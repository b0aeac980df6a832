/** `np.gradient` on a one-dimensional sample with unit spacing and the
    default first-order edges: a central difference at every interior
    point, a one-sided difference at each end. Both encoders take the
    gradient of their input and then the gradient of that gradient. */
module Differences {

  import opened Numerics
  import opened Outcomes

  /** `np.gradient` raises on a sample with fewer than two points. */
  datatype GradientError = TooFewSamples

  function GradientAt(s: seq<real>, i: int): real
    requires 2 <= |s| && 0 <= i < |s|
  {
    if i == 0 then s[1] - s[0]
    else if i == |s| - 1 then s[i] - s[i - 1]
    else (s[i + 1] - s[i - 1]) / 2.0
  }

  /** The gradient of a sample long enough to have one. */
  function Central(s: seq<real>): (g: seq<real>)
    requires |s| >= 2
    ensures |g| == |s|
  {
    seq(|s|, i requires 0 <= i < |s| => GradientAt(s, i))
  }

  /** `np.gradient(s)`, failing exactly when the library raises. */
  function Gradient(s: seq<real>): (r: Result<seq<real>, GradientError>)
    ensures r.Ok? <==> |s| >= 2
    ensures r.Ok? ==> |r.value| == |s|
  {
    if |s| < 2 then Err(TooFewSamples) else Ok(Central(s))
  }

  /** `np.gradient(np.gradient(s))`: the discrete second derivative. */
  function Curvature(s: seq<real>): (c: seq<real>)
    requires |s| >= 2
    ensures |c| == |s|
  {
    Central(Central(s))
  }

  /** On the squares `0, 1, 4, 9, …` the gradient at every interior point
      is `2 i`, the exact derivative there; a one-sided difference would
      give `2 i + 1` or `2 i - 1`. So the interior values are central
      differences. */
  lemma CentralOfSquares(s: seq<real>)
    requires |s| >= 2
    requires forall i :: 0 <= i < |s| ==> s[i] == (i as real) * (i as real)
    ensures forall i :: 0 < i < |s| - 1 ==> Central(s)[i] == 2.0 * (i as real)
  {
    forall i | 0 < i < |s| - 1
      ensures Central(s)[i] == 2.0 * (i as real)
    {
      var r := i as real;
      assert s[i + 1] == ((i + 1) as real) * ((i + 1) as real);
      assert s[i - 1] == ((i - 1) as real) * ((i - 1) as real);
      assert (r + 1.0) * (r + 1.0) - (r - 1.0) * (r - 1.0) == 4.0 * r;
    }
  }

  /** Consecutive samples differ by exactly `k`. */
  predicate ConstantStep(s: seq<real>, k: real)
  {
    forall i :: 0 <= i < |s| - 1 ==> s[i + 1] - s[i] == k
  }

  /** A sample rising by a constant step has that step as its gradient
      everywhere, ends included. */
  lemma GradientOfConstantStep(s: seq<real>, k: real)
    requires |s| >= 2
    requires ConstantStep(s, k)
    ensures forall i :: 0 <= i < |s| ==> Central(s)[i] == k
  {
    forall i | 0 <= i < |s|
      ensures Central(s)[i] == k
    {
      if 0 < i < |s| - 1 {
        assert s[i + 1] - s[i] == k && s[i] - s[i - 1] == k;
      } else if i == 0 {
        assert s[1] - s[0] == k;
      } else {
        assert s[i] - s[i - 1] == k;
      }
    }
  }

  /** ... so its curvature vanishes everywhere. */
  lemma CurvatureOfConstantStep(s: seq<real>, k: real)
    requires |s| >= 2
    requires ConstantStep(s, k)
    ensures forall i :: 0 <= i < |s| ==> Curvature(s)[i] == 0.0
  {
    GradientOfConstantStep(s, k);
    assert ConstantStep(Central(s), 0.0) by {
      forall i | 0 <= i < |s| - 1
        ensures Central(s)[i + 1] - Central(s)[i] == 0.0
      {
        assert Central(s)[i + 1] == k && Central(s)[i] == k;
      }
    }
    GradientOfConstantStep(Central(s), 0.0);
  }

  /** Negating the sample negates its gradient. */
  lemma GradientOfNegation(s: seq<real>)
    requires |s| >= 2
    ensures Central(Negate(s)) == Negate(Central(s))
  {
    var n := Negate(s);
    forall i | 0 <= i < |s|
      ensures Central(n)[i] == -Central(s)[i]
    {
      if 0 < i < |s| - 1 {
        assert n[i + 1] == -s[i + 1] && n[i - 1] == -s[i - 1];
      } else if i == 0 {
        assert n[1] == -s[1] && n[0] == -s[0];
      } else {
        assert n[i] == -s[i] && n[i - 1] == -s[i - 1];
      }
    }
  }

  /** ... and its curvature. */
  lemma CurvatureOfNegation(s: seq<real>)
    requires |s| >= 2
    ensures Curvature(Negate(s)) == Negate(Curvature(s))
  {
    GradientOfNegation(s);
    GradientOfNegation(Central(s));
  }

  /** A strictly increasing sample has a strictly positive gradient. */
  lemma GradientOfIncreasing(s: seq<real>)
    requires |s| >= 2
    requires forall i :: 0 <= i < |s| - 1 ==> s[i] < s[i + 1]
    ensures forall i :: 0 <= i < |s| ==> Central(s)[i] > 0.0
  {
    forall i | 0 <= i < |s|
      ensures Central(s)[i] > 0.0
    {
      if 0 < i < |s| - 1 {
        assert s[i - 1] < s[i] < s[i + 1];
      } else if i == 0 {
        assert s[0] < s[1];
      } else {
        assert s[i - 1] < s[i];
      }
    }
  }
}
