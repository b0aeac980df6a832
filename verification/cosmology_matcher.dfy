/** The cosmological side of the pipeline: an angular power spectrum is
    encoded with thresholds scaled to its own variability, and two symbol
    sequences are scored by how often their marked points agree. */
module CosmologyMatcher {

  import opened Outcomes
  import opened Numerics
  import opened Statistics
  import opened Differences
  import opened Symbols

  const DefaultGradFactor: real := 0.5
  const DefaultLapFactor: real := 0.5

  /** Encodes the spectrum `cl` with a slope threshold of `gradFactor`
      standard deviations of its gradient and a curvature threshold of
      `lapFactor` standard deviations of its curvature. The two standard
      deviations are supplied by the caller (`gradStd`, `lapStd`): the
      precondition pins them down as the population standard deviations. */
  function ParseClToTauSymbols(cl: seq<real>, gradFactor: real, lapFactor: real,
                               gradStd: real, lapStd: real): (r: Result<seq<Symbol>, GradientError>)
    requires |cl| >= 2 ==> IsStd(gradStd, Central(cl)) && IsStd(lapStd, Curvature(cl))
    ensures r.Err? <==> |cl| < 2
    ensures r.Ok? ==> |r.value| == |cl|
    ensures r.Ok? ==> forall i :: 0 <= i < |cl| ==>
      (r.value[i] == Disc <==> Abs(Curvature(cl)[i]) > lapFactor * lapStd) &&
      (r.value[i] == Flat <==> Abs(Curvature(cl)[i]) <= lapFactor * lapStd &&
                               -(gradFactor * gradStd) <= Central(cl)[i] <= gradFactor * gradStd)
  {
    match Gradient(cl)
    case Err(e) => Err(e)
    case Ok(dcl) =>
      var ddcl := Central(dcl);
      Ok(Encode(dcl, ddcl, gradFactor * gradStd, lapFactor * lapStd))
  }

  /** With the thresholds the adaptive rule computes, this encoder and the
      fixed-threshold one produce the same symbols. */
  lemma ParseClMatchesFixedThresholds(cl: seq<real>, gradFactor: real, lapFactor: real,
                                      gradStd: real, lapStd: real)
    requires |cl| >= 2
    requires IsStd(gradStd, Central(cl)) && IsStd(lapStd, Curvature(cl))
    ensures ParseClToTauSymbols(cl, gradFactor, lapFactor, gradStd, lapStd)
         == Ok(EncodeSamples(cl, gradFactor * gradStd, lapFactor * lapStd))
  {
  }

  /** Reflecting the spectrum keeps both standard deviations and swaps
      rising with falling. */
  lemma ParseClOfNegation(cl: seq<real>, gradFactor: real, lapFactor: real,
                          gradStd: real, lapStd: real)
    requires |cl| >= 2
    requires IsStd(gradStd, Central(cl)) && IsStd(lapStd, Curvature(cl))
    requires gradFactor >= 0.0
    ensures IsStd(gradStd, Central(Negate(cl))) && IsStd(lapStd, Curvature(Negate(cl)))
    ensures ParseClToTauSymbols(Negate(cl), gradFactor, lapFactor, gradStd, lapStd)
         == Ok(MirrorAll(EncodeSamples(cl, gradFactor * gradStd, lapFactor * lapStd)))
  {
    GradientOfNegation(cl);
    CurvatureOfNegation(cl);
    StdOfNegation(Central(cl), gradStd);
    StdOfNegation(Curvature(cl), lapStd);
    NonNegativeProduct(gradFactor, gradStd);
    EncodeSamplesOfNegation(cl, gradFactor * gradStd, lapFactor * lapStd);
  }

  /** A flat spectrum carries no symbol. */
  lemma ParseClOfConstant(cl: seq<real>, gradFactor: real, lapFactor: real,
                          gradStd: real, lapStd: real)
    requires |cl| >= 2
    requires ConstantStep(cl, 0.0)
    requires IsStd(gradStd, Central(cl)) && IsStd(lapStd, Curvature(cl))
    requires gradFactor >= 0.0 && lapFactor >= 0.0
    ensures ParseClToTauSymbols(cl, gradFactor, lapFactor, gradStd, lapStd).Ok?
    ensures forall i :: 0 <= i < |cl| ==>
      ParseClToTauSymbols(cl, gradFactor, lapFactor, gradStd, lapStd).value[i] == Flat
  {
    NonNegativeProduct(gradFactor, gradStd);
    NonNegativeProduct(lapFactor, lapStd);
    EncodeSamplesOfConstant(cl, gradFactor * gradStd, lapFactor * lapStd);
  }

  /** The default factors are non-negative, so the reflection and constant
      spectrum lemmas apply to the encoder as it is called by default. */
  lemma DefaultFactorsOfConstant(cl: seq<real>, gradStd: real, lapStd: real)
    requires |cl| >= 2
    requires ConstantStep(cl, 0.0)
    requires IsStd(gradStd, Central(cl)) && IsStd(lapStd, Curvature(cl))
    ensures forall i :: 0 <= i < |cl| ==>
      ParseClToTauSymbols(cl, DefaultGradFactor, DefaultLapFactor, gradStd, lapStd).value[i] == Flat
  {
    ParseClOfConstant(cl, DefaultGradFactor, DefaultLapFactor, gradStd, lapStd);
  }

  lemma NonNegativeProduct(a: real, b: real)
    requires a >= 0.0 && b >= 0.0
    ensures a * b >= 0.0
  {
  }

  /** The aligned pairs in which both points carry a symbol; `zip` stops at
      the shorter sequence. */
  function Paired(obs: seq<Symbol>, sim: seq<Symbol>): (ps: seq<(Symbol, Symbol)>)
    ensures |ps| <= |obs| && |ps| <= |sim|
    ensures forall k :: 0 <= k < |ps| ==> ps[k].0 != Flat && ps[k].1 != Flat
    decreases |obs|
  {
    if |obs| == 0 || |sim| == 0 then []
    else
      (if obs[0] != Flat && sim[0] != Flat then [(obs[0], sim[0])] else [])
      + Paired(obs[1..], sim[1..])
  }

  /** How many pairs carry the same symbol on both sides. */
  function Agreements(ps: seq<(Symbol, Symbol)>): (n: nat)
    ensures n <= |ps|
  {
    if |ps| == 0 then 0
    else (if ps[0].0 == ps[0].1 then 1 else 0) + Agreements(ps[1..])
  }

  /** The share of jointly marked aligned points on which the two
      sequences agree; 0.0 when no aligned point is marked on both sides. */
  function CompareSymbolSequences(obs: seq<Symbol>, sim: seq<Symbol>): (r: real)
    ensures 0.0 <= r <= 1.0
    ensures |Paired(obs, sim)| == 0 ==> r == 0.0
  {
    var ps := Paired(obs, sim);
    Fraction(Agreements(ps), |ps|)
  }

  /** No pair survives exactly when every aligned position has an
      unmarked point on at least one side. */
  lemma {:induction false} PairedEmpty(obs: seq<Symbol>, sim: seq<Symbol>)
    ensures |Paired(obs, sim)| == 0 <==>
      forall i :: 0 <= i < |obs| && i < |sim| ==> obs[i] == Flat || sim[i] == Flat
    decreases |obs|
  {
    if |obs| > 0 && |sim| > 0 {
      PairedEmpty(obs[1..], sim[1..]);
      if obs[0] == Flat || sim[0] == Flat {
        assert forall i :: 1 <= i < |obs| && i < |sim| ==>
          (obs[i] == Flat || sim[i] == Flat <==> obs[1..][i - 1] == Flat || sim[1..][i - 1] == Flat);
      }
    }
  }

  lemma {:induction false} AllAgree(ps: seq<(Symbol, Symbol)>)
    ensures Agreements(ps) == |ps| <==> forall k :: 0 <= k < |ps| ==> ps[k].0 == ps[k].1
    decreases |ps|
  {
    if |ps| > 0 {
      AllAgree(ps[1..]);
      assert forall k :: 1 <= k < |ps| ==> ps[k] == ps[1..][k - 1];
    }
  }

  lemma {:induction false} NoneAgree(ps: seq<(Symbol, Symbol)>)
    ensures Agreements(ps) == 0 <==> forall k :: 0 <= k < |ps| ==> ps[k].0 != ps[k].1
    decreases |ps|
  {
    if |ps| > 0 {
      NoneAgree(ps[1..]);
      assert forall k :: 1 <= k < |ps| ==> ps[k] == ps[1..][k - 1];
    }
  }

  /** A score of 1.0 means some pair survived and every pair agrees. */
  lemma PerfectScore(obs: seq<Symbol>, sim: seq<Symbol>)
    ensures CompareSymbolSequences(obs, sim) == 1.0 <==>
      var ps := Paired(obs, sim);
      |ps| > 0 && forall k :: 0 <= k < |ps| ==> ps[k].0 == ps[k].1
  {
    AllAgree(Paired(obs, sim));
  }

  /** Some pair carries the same symbol on both sides. */
  predicate SomeAgreement(ps: seq<(Symbol, Symbol)>)
  {
    exists k :: 0 <= k < |ps| && ps[k].0 == ps[k].1
  }

  /** A score above 0.0 means some surviving pair agrees; otherwise the
      score is exactly 0.0. */
  lemma PositiveScore(obs: seq<Symbol>, sim: seq<Symbol>)
    ensures CompareSymbolSequences(obs, sim) > 0.0 <==> SomeAgreement(Paired(obs, sim))
    ensures CompareSymbolSequences(obs, sim) == 0.0 <==> !SomeAgreement(Paired(obs, sim))
  {
    NoneAgree(Paired(obs, sim));
  }

  /** Agreements are counted pair by pair, so they add up over a split. */
  lemma {:induction false} AgreementsOfConcat(a: seq<(Symbol, Symbol)>, b: seq<(Symbol, Symbol)>)
    ensures Agreements(a + b) == Agreements(a) + Agreements(b)
    decreases |a|
  {
    if |a| > 0 {
      assert (a + b)[0] == a[0];
      assert (a + b)[1..] == a[1..] + b;
      AgreementsOfConcat(a[1..], b);
    } else {
      assert a + b == b;
    }
  }

  lemma {:induction false} PairedSelf(s: seq<Symbol>)
    ensures Agreements(Paired(s, s)) == |Paired(s, s)|
    ensures |Paired(s, s)| == 0 <==> forall i :: 0 <= i < |s| ==> s[i] == Flat
    decreases |s|
  {
    if |s| > 0 {
      PairedSelf(s[1..]);
      var head := if s[0] != Flat then [(s[0], s[0])] else [];
      AgreementsOfConcat(head, Paired(s[1..], s[1..]));
      assert forall i :: 1 <= i < |s| ==> s[i] == s[1..][i - 1];
    }
  }

  /** A sequence with at least one marked point matches itself perfectly. */
  lemma CompareWithItself(s: seq<Symbol>)
    requires exists i :: 0 <= i < |s| && s[i] != Flat
    ensures CompareSymbolSequences(s, s) == 1.0
  {
    PairedSelf(s);
  }

  lemma {:induction false} PairedSwap(obs: seq<Symbol>, sim: seq<Symbol>)
    ensures |Paired(sim, obs)| == |Paired(obs, sim)|
    ensures Agreements(Paired(sim, obs)) == Agreements(Paired(obs, sim))
    decreases |obs|
  {
    if |obs| > 0 && |sim| > 0 {
      PairedSwap(obs[1..], sim[1..]);
      var ho := if obs[0] != Flat && sim[0] != Flat then [(obs[0], sim[0])] else [];
      var hs := if sim[0] != Flat && obs[0] != Flat then [(sim[0], obs[0])] else [];
      AgreementsOfConcat(ho, Paired(obs[1..], sim[1..]));
      AgreementsOfConcat(hs, Paired(sim[1..], obs[1..]));
    }
  }

  /** The score does not depend on which side is observed. */
  lemma CompareSymmetric(obs: seq<Symbol>, sim: seq<Symbol>)
    ensures CompareSymbolSequences(obs, sim) == CompareSymbolSequences(sim, obs)
  {
    PairedSwap(obs, sim);
  }

  lemma {:induction false} PairedIgnoresTail(obs: seq<Symbol>, sim: seq<Symbol>)
    requires |sim| <= |obs|
    ensures Paired(obs, sim) == Paired(obs[..|sim|], sim)
    decreases |sim|
  {
    if |sim| > 0 {
      assert obs[..|sim|][1..] == obs[1..][..|sim| - 1];
      PairedIgnoresTail(obs[1..], sim[1..]);
    }
  }

  /** Points of the longer sequence past the end of the shorter one are
      ignored. */
  lemma CompareIgnoresTail(obs: seq<Symbol>, sim: seq<Symbol>)
    requires |sim| <= |obs|
    ensures CompareSymbolSequences(obs, sim) == CompareSymbolSequences(obs[..|sim|], sim)
  {
    PairedIgnoresTail(obs, sim);
  }

  /** How many positions `zip` aligns: the length of the shorter sequence. */
  function Aligned(obs: seq<Symbol>, sim: seq<Symbol>): (m: nat)
    ensures m <= |obs| && m <= |sim|
    ensures m == |obs| || m == |sim|
  {
    if |obs| <= |sim| then |obs| else |sim|
  }

  /** Position `i` carries a symbol on both sides. */
  predicate JointlyMarked(obs: seq<Symbol>, sim: seq<Symbol>, i: int)
    requires 0 <= i < |obs| && i < |sim|
  {
    obs[i] != Flat && sim[i] != Flat
  }

  /** Reference count, by position: how many positions below `n` are
      marked on both sides. */
  function MarkedBelow(obs: seq<Symbol>, sim: seq<Symbol>, n: nat): nat
    requires n <= |obs| && n <= |sim|
  {
    if n == 0 then 0
    else MarkedBelow(obs, sim, n - 1) + (if JointlyMarked(obs, sim, n - 1) then 1 else 0)
  }

  /** Reference count, by position: how many positions below `n` are marked
      on both sides with the same symbol. */
  function AgreeingBelow(obs: seq<Symbol>, sim: seq<Symbol>, n: nat): (r: nat)
    requires n <= |obs| && n <= |sim|
    ensures r <= MarkedBelow(obs, sim, n)
  {
    if n == 0 then 0
    else AgreeingBelow(obs, sim, n - 1) + (if JointlyMarked(obs, sim, n - 1) && obs[n - 1] == sim[n - 1] then 1 else 0)
  }

  /** A marked position's index in the pairs list, `MarkedBelow(i)`, grows
      with the position, so distinct marked positions get distinct pairs. */
  lemma {:induction false} MarkedBelowGrows(obs: seq<Symbol>, sim: seq<Symbol>, i: nat, j: nat)
    requires i < j <= |obs| && j <= |sim|
    requires JointlyMarked(obs, sim, i)
    ensures MarkedBelow(obs, sim, i) < MarkedBelow(obs, sim, j)
    decreases j
  {
    if j > i + 1 {
      MarkedBelowGrows(obs, sim, i, j - 1);
    }
  }

  /** The pair position `n` contributes, if any. */
  function PairAt(obs: seq<Symbol>, sim: seq<Symbol>, n: nat): seq<(Symbol, Symbol)>
    requires n < |obs| && n < |sim|
  {
    if JointlyMarked(obs, sim, n) then [(obs[n], sim[n])] else []
  }

  /** Extending both prefixes by one position appends that position's
      pair, if it has one. */
  lemma {:induction false} PairedSnoc(obs: seq<Symbol>, sim: seq<Symbol>, n: nat)
    requires n < |obs| && n < |sim|
    ensures Paired(obs[..n + 1], sim[..n + 1]) == Paired(obs[..n], sim[..n]) + PairAt(obs, sim, n)
    decreases n
  {
    if n == 0 {
      assert obs[..1][1..] == [] && sim[..1][1..] == [];
    } else {
      assert obs[..n + 1][1..] == obs[1..][..n];
      assert sim[..n + 1][1..] == sim[1..][..n];
      assert obs[..n][1..] == obs[1..][..n - 1];
      assert sim[..n][1..] == sim[1..][..n - 1];
      PairedSnoc(obs[1..], sim[1..], n - 1);
      assert PairAt(obs[1..], sim[1..], n - 1) == PairAt(obs, sim, n);
      var head := if obs[0] != Flat && sim[0] != Flat then [(obs[0], sim[0])] else [];
      assert Paired(obs[..n + 1], sim[..n + 1]) == head + Paired(obs[1..][..n], sim[1..][..n]);
      assert Paired(obs[..n], sim[..n]) == head + Paired(obs[1..][..n - 1], sim[1..][..n - 1]);
    }
  }

  /** Only the aligned prefixes take part. */
  lemma {:induction false} PairedOfAligned(obs: seq<Symbol>, sim: seq<Symbol>)
    ensures Paired(obs, sim) == Paired(obs[..Aligned(obs, sim)], sim[..Aligned(obs, sim)])
    decreases |obs|
  {
    var m := Aligned(obs, sim);
    if m > 0 {
      assert obs[..m][1..] == obs[1..][..Aligned(obs[1..], sim[1..])];
      assert sim[..m][1..] == sim[1..][..Aligned(obs[1..], sim[1..])];
      PairedOfAligned(obs[1..], sim[1..]);
    }
  }

  /** On the first `n` positions the pairs are exactly the jointly marked
      positions, in order: a marked position `i` sits at index
      `MarkedBelow(i)`, and there are no other pairs. */
  lemma {:induction false} PairedOfPrefix(obs: seq<Symbol>, sim: seq<Symbol>, n: nat)
    requires n <= |obs| && n <= |sim|
    ensures |Paired(obs[..n], sim[..n])| == MarkedBelow(obs, sim, n)
    ensures Agreements(Paired(obs[..n], sim[..n])) == AgreeingBelow(obs, sim, n)
    ensures forall i :: 0 <= i < n && JointlyMarked(obs, sim, i) ==>
      MarkedBelow(obs, sim, i) < |Paired(obs[..n], sim[..n])| &&
      Paired(obs[..n], sim[..n])[MarkedBelow(obs, sim, i)] == (obs[i], sim[i])
    decreases n
  {
    if n == 0 {
      assert obs[..0] == [];
    } else {
      var k: nat := n - 1;
      PairedOfPrefix(obs, sim, k);
      PairedSnoc(obs, sim, k);
      AgreementsOfConcat(Paired(obs[..k], sim[..k]), PairAt(obs, sim, k));
    }
  }

  /** The score by position: of the aligned positions marked on both
      sides, the share that carry the same symbol. The pairs list holds
      exactly those positions, in order. */
  lemma ScoreByPosition(obs: seq<Symbol>, sim: seq<Symbol>)
    ensures |Paired(obs, sim)| == MarkedBelow(obs, sim, Aligned(obs, sim))
    ensures forall i :: 0 <= i < Aligned(obs, sim) && JointlyMarked(obs, sim, i) ==>
      MarkedBelow(obs, sim, i) < |Paired(obs, sim)| &&
      Paired(obs, sim)[MarkedBelow(obs, sim, i)] == (obs[i], sim[i])
    ensures CompareSymbolSequences(obs, sim)
         == Fraction(AgreeingBelow(obs, sim, Aligned(obs, sim)), MarkedBelow(obs, sim, Aligned(obs, sim)))
  {
    PairedOfAligned(obs, sim);
    PairedOfPrefix(obs, sim, Aligned(obs, sim));
  }

  /** Two marked points survive and one of them agrees; the unmarked
      points and the tail of the longer sequence do not count. */
  lemma CompareExample()
    ensures CompareSymbolSequences([Rising, Falling, Flat, Disc], [Rising, Rising, Disc, Flat, Rising]) == 0.5
  {
    var ps := Paired([Rising, Falling, Flat, Disc], [Rising, Rising, Disc, Flat, Rising]);
    assert ps == [(Rising, Rising), (Falling, Rising)];
    assert Agreements(ps) == 1;
  }
}
