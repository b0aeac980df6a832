/** The symbolic encoder of a simulated τ time series: a fixed slope
    threshold and a curvature threshold ten times larger. */
module TdmParser {

  import opened Outcomes
  import opened Numerics
  import opened Differences
  import opened Symbols

  /** Default slope threshold. */
  const DefaultThreshold: real := 0.00001

  /** The curvature threshold that goes with the default slope threshold. */
  const DefaultCurvatureThreshold: real := DefaultThreshold * 10.0

  /** Encodes `tau` point by point. Fails, as `np.gradient` does, on fewer
      than two samples; otherwise yields one symbol per sample, each the
      classification of that sample's gradient and curvature under the
      thresholds `threshold` and `10 * threshold`. */
  method ParseTauField(tau: seq<real>, threshold: real) returns (r: Result<seq<Symbol>, GradientError>)
    ensures r.Err? <==> |tau| < 2
    ensures r.Ok? ==> r.value == EncodeSamples(tau, threshold, threshold * 10.0)
    ensures r.Ok? ==> forall i :: 0 <= i < |tau| ==>
      (r.value[i] == Disc <==> Abs(Curvature(tau)[i]) > threshold * 10.0)
  {
    var dtau := Gradient(tau);
    if dtau.Err? {
      return Err(dtau.error);
    }
    // The gradient keeps the length, so the second gradient cannot fail.
    var g := dtau.value;
    var l := Central(g);
    var symbols: seq<Symbol> := [];
    var i := 0;
    while i < |g|
      invariant 0 <= i <= |g|
      invariant symbols == Encode(g[..i], l[..i], threshold, threshold * 10.0)
    {
      var sym;
      if Abs(l[i]) > threshold * 10.0 {
        sym := Disc;
      } else if g[i] > threshold {
        sym := Rising;
      } else if g[i] < -threshold {
        sym := Falling;
      } else {
        sym := Flat;
      }
      symbols := symbols + [sym];
      i := i + 1;
    }
    assert g[..i] == g && l[..i] == l;
    return Ok(symbols);
  }

  /** At the default threshold a constant series carries no symbol. */
  lemma DefaultThresholdOfConstant(tau: seq<real>)
    requires |tau| >= 2
    requires ConstantStep(tau, 0.0)
    ensures forall i :: 0 <= i < |tau| ==> EncodeSamples(tau, DefaultThreshold, DefaultCurvatureThreshold)[i] == Flat
  {
    EncodeSamplesOfConstant(tau, DefaultThreshold, DefaultCurvatureThreshold);
  }

  /** A single spike at index 5 of an otherwise steady rise: the curvature
      threshold is exceeded two points before the spike, at the spike and
      two points after it; the point just before the spike still rises, the
      point just after it falls, and the rest rise. */
  method SpikeMarksDiscontinuities() returns (r: Result<seq<Symbol>, GradientError>)
    ensures r == Ok([Rising, Rising, Rising, Disc, Rising, Disc, Falling, Disc, Rising, Rising])
  {
    var s := [1.0, 2.0, 3.0, 4.0, 5.0, 100.0, 6.0, 7.0, 8.0, 9.0];
    r := ParseTauField(s, 0.5);
    SpikeEncoding();
  }

  lemma SpikeEncoding()
    ensures EncodeSamples([1.0, 2.0, 3.0, 4.0, 5.0, 100.0, 6.0, 7.0, 8.0, 9.0], 0.5, 5.0)
         == [Rising, Rising, Rising, Disc, Rising, Disc, Falling, Disc, Rising, Rising]
  {
    var s := [1.0, 2.0, 3.0, 4.0, 5.0, 100.0, 6.0, 7.0, 8.0, 9.0];
    var g := Central(s);
    assert g == [1.0, 1.0, 1.0, 1.0, 48.0, 0.5, -46.5, 1.0, 1.0, 1.0];
    var l := Central(g);
    assert l == [0.0, 0.0, 0.0, 23.5, -0.25, -47.25, 0.25, 23.75, 0.0, 0.0];
  }
}
