/** Population statistics of a sample sequence, as `np.std` computes them
    (divisor n, no degrees-of-freedom correction). The square root itself has
    no exact counterpart over the reals, so a standard deviation is any
    non-negative number whose square is the variance. */
module Statistics {

  import opened Numerics

  function Sum(s: seq<real>): real
  {
    if |s| == 0 then 0.0 else s[0] + Sum(s[1..])
  }

  function Mean(s: seq<real>): real
    requires |s| > 0
  {
    Sum(s) / (|s| as real)
  }

  /** Sum of squared deviations of the samples from `m`. */
  function SquaredDeviation(s: seq<real>, m: real): (r: real)
    ensures r >= 0.0
  {
    if |s| == 0 then 0.0
    else
      var d := s[0] - m;
      assert d * d >= 0.0 by {
        if d < 0.0 { assert d * d == (-d) * (-d); }
      }
      d * d + SquaredDeviation(s[1..], m)
  }

  function Variance(s: seq<real>): (r: real)
    requires |s| > 0
    ensures r >= 0.0
  {
    SquaredDeviation(s, Mean(s)) / (|s| as real)
  }

  /** `sd` is the population standard deviation of `s`. */
  predicate IsStd(sd: real, s: seq<real>)
    requires |s| > 0
  {
    sd >= 0.0 && sd * sd == Variance(s)
  }

  lemma {:induction false} SumOfNegation(s: seq<real>)
    ensures Sum(Negate(s)) == -Sum(s)
    decreases |s|
  {
    if |s| > 0 {
      assert Negate(s)[1..] == Negate(s[1..]);
      SumOfNegation(s[1..]);
    }
  }

  lemma {:induction false} DeviationOfNegation(s: seq<real>, m: real)
    ensures SquaredDeviation(Negate(s), -m) == SquaredDeviation(s, m)
    decreases |s|
  {
    if |s| > 0 {
      assert Negate(s)[1..] == Negate(s[1..]);
      DeviationOfNegation(s[1..], m);
      assert (-s[0] - -m) * (-s[0] - -m) == (s[0] - m) * (s[0] - m);
    }
  }

  lemma QuotientOfNegation(a: real, n: real)
    requires n > 0.0
    ensures (-a) / n == -(a / n)
  {
  }

  /** Reflecting a sample about 0 moves its mean but not its spread, so it
      keeps its standard deviation. */
  lemma StdOfNegation(s: seq<real>, sd: real)
    requires |s| > 0
    ensures Mean(Negate(s)) == -Mean(s)
    ensures Variance(Negate(s)) == Variance(s)
    ensures IsStd(sd, Negate(s)) <==> IsStd(sd, s)
  {
    SumOfNegation(s);
    QuotientOfNegation(Sum(s), |s| as real);
    DeviationOfNegation(s, Mean(s));
  }
}
