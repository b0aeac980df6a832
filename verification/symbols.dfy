/** The symbolic alphabet both encoders emit and the rule that assigns a
    symbol to one point from its gradient `g` and curvature `l`. */
module Symbols {

  import opened Numerics
  import opened Differences

  /** `'τ↑'`, `'τ↓'`, `'δτ⨉'`, and `None` for a point that is none of them. */
  datatype Symbol = Rising | Falling | Disc | Flat

  /** One step of either encoder: a curvature above `lth` in magnitude is a
      discontinuity, whatever the slope; otherwise the slope decides, and a
      slope within `[-gth, gth]` leaves the point unmarked. */
  function Classify(g: real, l: real, gth: real, lth: real): (r: Symbol)
    ensures r == Disc <==> Abs(l) > lth
    ensures r == Rising <==> Abs(l) <= lth && g > gth
    ensures r == Falling <==> Abs(l) <= lth && g <= gth && g < -gth
    ensures r == Flat <==> Abs(l) <= lth && -gth <= g <= gth
  {
    if Abs(l) > lth then Disc
    else if g > gth then Rising
    else if g < -gth then Falling
    else Flat
  }

  /** With a non-negative slope threshold the rising and falling bands are
      disjoint, so "falling" needs no mention of the rising test. */
  lemma FallingBelowThreshold(g: real, l: real, gth: real, lth: real)
    requires gth >= 0.0
    ensures Classify(g, l, gth, lth) == Falling <==> Abs(l) <= lth && g < -gth
  {
  }

  /** Rising and falling swapped; the other symbols kept. */
  function Mirror(s: Symbol): Symbol
  {
    match s
    case Rising => Falling
    case Falling => Rising
    case _ => s
  }

  function MirrorAll(ss: seq<Symbol>): (r: seq<Symbol>)
    ensures |r| == |ss|
  {
    seq(|ss|, i requires 0 <= i < |ss| => Mirror(ss[i]))
  }

  /** Reflecting a point's slope and curvature mirrors its symbol. */
  lemma ClassifyOfNegation(g: real, l: real, gth: real, lth: real)
    requires gth >= 0.0
    ensures Classify(-g, -l, gth, lth) == Mirror(Classify(g, l, gth, lth))
  {
  }

  /** Classifying aligned gradient and curvature sequences point by point
      (the `zip` loop of both encoders). */
  function Encode(g: seq<real>, l: seq<real>, gth: real, lth: real): (r: seq<Symbol>)
    requires |g| == |l|
    ensures |r| == |g|
  {
    seq(|g|, i requires 0 <= i < |g| => Classify(g[i], l[i], gth, lth))
  }

  /** Symbols of a raw sample: classify its gradient and its curvature. */
  function EncodeSamples(s: seq<real>, gth: real, lth: real): (r: seq<Symbol>)
    requires |s| >= 2
    ensures |r| == |s|
  {
    Encode(Central(s), Curvature(s), gth, lth)
  }

  /** The encoding of a reflected sample is the mirrored encoding. */
  lemma EncodeSamplesOfNegation(s: seq<real>, gth: real, lth: real)
    requires |s| >= 2
    requires gth >= 0.0
    ensures EncodeSamples(Negate(s), gth, lth) == MirrorAll(EncodeSamples(s, gth, lth))
  {
    GradientOfNegation(s);
    CurvatureOfNegation(s);
    forall i | 0 <= i < |s|
      ensures EncodeSamples(Negate(s), gth, lth)[i] == Mirror(EncodeSamples(s, gth, lth)[i])
    {
      ClassifyOfNegation(Central(s)[i], Curvature(s)[i], gth, lth);
    }
  }

  /** A sample rising by a step above the slope threshold, with a
      non-negative curvature threshold, is rising everywhere. */
  lemma EncodeSamplesOfSteadyRise(s: seq<real>, k: real, gth: real, lth: real)
    requires |s| >= 2
    requires ConstantStep(s, k)
    requires k > gth && lth >= 0.0
    ensures forall i :: 0 <= i < |s| ==> EncodeSamples(s, gth, lth)[i] == Rising
  {
    GradientOfConstantStep(s, k);
    CurvatureOfConstantStep(s, k);
  }

  /** A sample falling by a step steeper than the slope threshold is
      falling everywhere. */
  lemma EncodeSamplesOfSteadyFall(s: seq<real>, k: real, gth: real, lth: real)
    requires |s| >= 2
    requires ConstantStep(s, k)
    requires k < -gth && gth >= 0.0 && lth >= 0.0
    ensures forall i :: 0 <= i < |s| ==> EncodeSamples(s, gth, lth)[i] == Falling
  {
    GradientOfConstantStep(s, k);
    CurvatureOfConstantStep(s, k);
  }

  /** A constant sample, under non-negative thresholds, carries no symbol. */
  lemma EncodeSamplesOfConstant(s: seq<real>, gth: real, lth: real)
    requires |s| >= 2
    requires ConstantStep(s, 0.0)
    requires gth >= 0.0 && lth >= 0.0
    ensures forall i :: 0 <= i < |s| ==> EncodeSamples(s, gth, lth)[i] == Flat
  {
    GradientOfConstantStep(s, 0.0);
    CurvatureOfConstantStep(s, 0.0);
  }
}
