/** Real-valued helpers shared by the encoders and the field stepper. */
module Numerics {

  /** Python's built-in `abs` on a float. */
  function Abs(v: real): (r: real)
    ensures r >= 0.0
    ensures r == v || r == -v
  {
    if v < 0.0 then -v else v
  }

  /** `np.clip(v, lo, hi)` on a scalar: the nearest point of [lo, hi]. */
  function Clip(v: real, lo: real, hi: real): (r: real)
    requires lo <= hi
    ensures lo <= r <= hi
    ensures lo <= v <= hi ==> r == v
    ensures v < lo ==> r == lo
    ensures v > hi ==> r == hi
  {
    if v < lo then lo else if v > hi then hi else v
  }

  /** Elementwise negation of a sample sequence (numpy's unary minus). */
  function Negate(s: seq<real>): (r: seq<real>)
    ensures |r| == |s|
    ensures forall i :: 0 <= i < |s| ==> r[i] == -s[i]
  {
    seq(|s|, i requires 0 <= i < |s| => -s[i])
  }

  /** Clipping to a range symmetric about 0 commutes with negation. */
  lemma ClipOdd(v: real, h: real)
    requires 0.0 <= h
    ensures Clip(-v, -h, h) == -Clip(v, -h, h)
  {
  }

  /** `m / n` as a float, or 0.0 when there is nothing to divide by. */
  function Fraction(m: nat, n: nat): (r: real)
    requires m <= n
    ensures 0.0 <= r <= 1.0
    ensures r == 0.0 <==> m == 0
    ensures r == 1.0 <==> 0 < n && m == n
  {
    if n == 0 then 0.0 else (m as real) / (n as real)
  }
}
