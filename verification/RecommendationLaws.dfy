/** What the engine core promises about any day's signals, and about any two days. */
module RecommendationLaws {
  import opened Prelude
  import opened Rounding
  import opened Recommendation

  // --- the survivors -------------------------------------------------------------------

  predicate AllWithin(signals: Signals, lo: real, hi: real) {
    forall m: Module :: Available(signals, m) ==> lo <= signals[m].value <= hi
  }

  predicate VotesWithin(votes: seq<Vote>, lo: real, hi: real) {
    forall i :: 0 <= i < |votes| ==> lo <= votes[i].signal <= hi
  }

  predicate NonNegativeVotes(votes: seq<Vote>) {
    forall i :: 0 <= i < |votes| ==> votes[i].weight >= 0.0
  }

  lemma {:induction false} SurvivorsWithin(ms: seq<Module>, signals: Signals, w: Weights, lo: real, hi: real)
    requires AllWithin(signals, lo, hi)
    ensures VotesWithin(Survivors(ms, signals, w), lo, hi)
  {
    if ms != [] { SurvivorsWithin(ms[1..], signals, w, lo, hi); }
  }

  lemma {:induction false} SurvivorsNonNegative(ms: seq<Module>, signals: Signals, w: Weights)
    requires w.NonNegative()
    ensures NonNegativeVotes(Survivors(ms, signals, w))
  {
    if ms != [] { SurvivorsNonNegative(ms[1..], signals, w); }
  }

  lemma {:induction false} TotalNonNegative(votes: seq<Vote>)
    requires NonNegativeVotes(votes)
    ensures TotalWeight(votes) >= 0.0
  {
    if votes != [] { TotalNonNegative(votes[1..]); }
  }

  lemma {:induction false} RenormalisedShape(votes: seq<Vote>, denom: real)
    requires denom != 0.0
    ensures |Renormalised(votes, denom)| == |votes|
    ensures forall i :: 0 <= i < |votes| ==>
        Renormalised(votes, denom)[i] == Vote(votes[i].weight / denom, votes[i].signal)
    ensures SignalsOf(Renormalised(votes, denom)) == SignalsOf(votes)
    ensures TotalWeight(Renormalised(votes, denom)) == TotalWeight(votes) / denom
  {
    if votes != [] {
      RenormalisedShape(votes[1..], denom);
      AddQuotients(votes[0].weight, TotalWeight(votes[1..]), denom);
    }
  }

  /** Effective weights of the day: non-negative, and they add up to exactly one. */
  lemma EffectiveVotes(signals: Signals, w: Weights) returns (eff: seq<Vote>)
    requires w.NonNegative() && TotalWeight(Survivors(MODULES, signals, w)) != 0.0
    ensures eff == Renormalised(Survivors(MODULES, signals, w), TotalWeight(Survivors(MODULES, signals, w)))
    ensures NonNegativeVotes(eff) && TotalWeight(eff) == 1.0
    ensures SignalsOf(eff) == SurvivingSignals(signals, w)
  {
    var votes := Survivors(MODULES, signals, w);
    var denom := TotalWeight(votes);
    SurvivorsNonNegative(MODULES, signals, w);
    TotalNonNegative(votes);
    RenormalisedShape(votes, denom);
    QuotientUnique(1.0, denom, denom);
    eff := Renormalised(votes, denom);
    forall i | 0 <= i < |eff| ensures eff[i].weight >= 0.0 {
      assert eff[i] == Vote(votes[i].weight / denom, votes[i].signal);
      assert eff[i].weight * denom == votes[i].weight;
      Cancel(0.0, eff[i].weight, denom);
    }
  }

  // --- the composite is a weighted mean of the survivors --------------------------------

  lemma {:induction false} DotBounds(votes: seq<Vote>, lo: real, hi: real)
    requires NonNegativeVotes(votes) && VotesWithin(votes, lo, hi)
    ensures lo * TotalWeight(votes) <= Dot(votes) <= hi * TotalWeight(votes)
  {
    if votes != [] {
      DotBounds(votes[1..], lo, hi);
      ContributionBetween(votes[0], lo, hi);
      SplitBound(lo, votes[0].weight, TotalWeight(votes[1..]));
      SplitBound(hi, votes[0].weight, TotalWeight(votes[1..]));
      hide Vote.Contribution;
    }
  }

  lemma WeightedMeanBetween(votes: seq<Vote>, lo: real, hi: real)
    requires NonNegativeVotes(votes) && TotalWeight(votes) == 1.0 && VotesWithin(votes, lo, hi)
    ensures lo <= Dot(votes) <= hi
  {
    DotBounds(votes, lo, hi);
    hide TotalWeight, Dot;
  }

  lemma SplitBound(b: real, w: real, t: real)
    ensures b * (w + t) == b * w + b * t
  {
  }

  lemma ContributionBetween(v: Vote, lo: real, hi: real)
    requires v.weight >= 0.0 && lo <= v.signal <= hi
    ensures lo * v.weight <= v.Contribution() <= hi * v.weight
  {
    assert v.weight * (v.signal - lo) >= 0.0 && v.weight * (hi - v.signal) >= 0.0;
  }

  /** The unrounded composite lies between the least and the greatest surviving signal. */
  lemma CompositeBetween(signals: Signals, w: Weights, lo: real, hi: real)
    requires w.NonNegative() && TotalWeight(Survivors(MODULES, signals, w)) != 0.0
    requires AllWithin(signals, lo, hi)
    ensures lo <= RawComposite(signals, w) <= hi
  {
    var eff := EffectiveVotes(signals, w);
    var votes := Survivors(MODULES, signals, w);
    SurvivorsWithin(MODULES, signals, w, lo, hi);
    RenormalisedShape(votes, TotalWeight(votes));
    WeightedMeanBetween(eff, lo, hi);
  }

  lemma {:induction false} ExtremesBound(xs: seq<real>)
    requires xs != []
    ensures forall i :: 0 <= i < |xs| ==> Least(xs) <= xs[i] <= Greatest(xs)
    ensures Least(xs) in xs && Greatest(xs) in xs
  {
    if |xs| > 1 {
      ExtremesBound(xs[1..]);
      assert forall i :: 0 < i < |xs| ==> xs[i] == xs[1..][i - 1];
    }
  }

  /** In particular it lies between the two signals whose distance is the reported spread. */
  lemma CompositeWithinSpread(signals: Signals, w: Weights)
    requires w.NonNegative() && TotalWeight(Survivors(MODULES, signals, w)) != 0.0
    ensures SurvivingSignals(signals, w) != []
    ensures Least(SurvivingSignals(signals, w)) <= RawComposite(signals, w) <= Greatest(SurvivingSignals(signals, w))
  {
    var xs := SurvivingSignals(signals, w);
    assert Survivors(MODULES, signals, w) != [];
    SignalsOfShape(Survivors(MODULES, signals, w));
    hide Survivors, Least, Greatest, Renormalised, SignalsOf, Dot, TotalWeight;
    var eff := EffectiveVotes(signals, w);
    SignalsOfShape(eff);
    ExtremesBound(xs);
    forall i | 0 <= i < |eff| ensures Least(xs) <= eff[i].signal <= Greatest(xs) {
      assert xs[i] == eff[i].signal;
    }
    WeightedMeanBetween(eff, Least(xs), Greatest(xs));
  }

  // --- the call, in terms of the unrounded composite --------------------------------------

  /** Rounding moves each band edge by exactly half a cent of signal. */
  lemma CallFromRaw(raw: real)
    ensures CallForComposite(Q2(raw)) == STRONG_BUY <==> raw >= 1.505
    ensures CallForComposite(Q2(raw)) in {BUY, STRONG_BUY} <==> raw >= 0.755
    ensures CallForComposite(Q2(raw)) in {SELL, STRONG_SELL} <==> raw <= -0.755
    ensures CallForComposite(Q2(raw)) == STRONG_SELL <==> raw <= -1.505
  {
    NearestReaches(raw * 100.0, 151);
    NearestReaches(raw * 100.0, 76);
  }

  // --- agreement ---------------------------------------------------------------------------

  predicate Directional(call: Call) { call in {STRONG_SELL, SELL, BUY, STRONG_BUY} }

  predicate Strong(call: Call) { call in {STRONG_SELL, STRONG_BUY} }

  function AgreeingWeight(call: Call, composite: real, votes: seq<Vote>): real {
    if votes == [] then 0.0
    else (if Agrees(call, composite, votes[0].signal) then votes[0].weight else 0.0)
         + AgreeingWeight(call, composite, votes[1..])
  }

  lemma {:induction false} DotBelowAgreeing(call: Call, composite: real, votes: seq<Vote>)
    requires NonNegativeVotes(votes) && VotesWithin(votes, -2.0, 2.0)
    requires call != HOLD && composite != 0.0
    ensures composite > 0.0 ==> Dot(votes) <= 2.0 * AgreeingWeight(call, composite, votes)
    ensures composite < 0.0 ==> Dot(votes) >= -2.0 * AgreeingWeight(call, composite, votes)
  {
    if votes != [] {
      DotBelowAgreeing(call, composite, votes[1..]);
      var v := votes[0];
      ContributionBetween(v, -2.0, 2.0);
      if v.signal <= 0.0 { ContributionBetween(v, -2.0, 0.0); }
      if v.signal >= 0.0 { ContributionBetween(v, 0.0, 2.0); }
      hide Vote.Contribution;
    }
  }

  /** For any non-negative weights: the lenses that agree with a directional call carry at
      least 0.3775 of the effective weight, those behind a STRONG call at least 0.7525. */
  lemma AgreeingShare(signals: Signals, w: Weights)
    requires w.NonNegative() && TotalWeight(Survivors(MODULES, signals, w)) != 0.0
    requires AllWithin(signals, -2.0, 2.0)
    ensures
      var votes := Survivors(MODULES, signals, w);
      var composite := Q2(RawComposite(signals, w));
      var call := CallForComposite(composite);
      var share := AgreeingWeight(call, composite, Renormalised(votes, TotalWeight(votes)));
      (Directional(call) ==> share >= 0.3775) && (Strong(call) ==> share >= 0.7525)
  {
    var eff := EffectiveVotes(signals, w);
    var votes := Survivors(MODULES, signals, w);
    SurvivorsWithin(MODULES, signals, w, -2.0, 2.0);
    RenormalisedShape(votes, TotalWeight(votes));
    var raw := RawComposite(signals, w);
    CallFromRaw(raw);
    if CallForComposite(Q2(raw)) != HOLD {
      DotBelowAgreeing(CallForComposite(Q2(raw)), Q2(raw), eff);
    }
  }

  /** What n votes can weigh together. */
  function Capped(cap: real, n: nat): real { cap * (n as real) }

  lemma CappedGrows(cap: real, n: nat)
    ensures Capped(cap, 0) == 0.0 && Capped(cap, n + 1) == Capped(cap, n) + cap
  {
  }

  lemma {:induction false} AgreeingWeightCapped(call: Call, composite: real, votes: seq<Vote>, cap: real)
    requires forall i :: 0 <= i < |votes| ==> votes[i].weight <= cap
    ensures AgreeingWeight(call, composite, votes) <= Capped(cap, AgreeCount(call, composite, SignalsOf(votes)))
  {
    hide Agrees, Capped;
    CappedGrows(cap, 0);
    if votes != [] {
      AgreeingWeightCapped(call, composite, votes[1..], cap);
      assert SignalsOf(votes)[1..] == SignalsOf(votes[1..]);
      CappedGrows(cap, AgreeCount(call, composite, SignalsOf(votes[1..])));
    }
  }

  lemma DefaultSurvivors(signals: Signals)
    requires |Missing(MODULES, signals)| <= 1
    ensures TotalWeight(Survivors(MODULES, signals, DEFAULT_WEIGHTS)) >= 0.70
    ensures Missing(MODULES, signals) == [] ==> TotalWeight(Survivors(MODULES, signals, DEFAULT_WEIGHTS)) == 1.0
    ensures forall i :: 0 <= i < |Survivors(MODULES, signals, DEFAULT_WEIGHTS)|
              ==> Survivors(MODULES, signals, DEFAULT_WEIGHTS)[i].weight <= 0.30
  {
    UnrollSurvivors(signals, DEFAULT_WEIGHTS);
  }

  function One(signals: Signals, w: Weights, m: Module): seq<Vote> {
    if Available(signals, m) then [Vote(w.Of(m), signals[m].value)] else []
  }

  lemma UnrollSurvivors(signals: Signals, w: Weights)
    ensures Survivors(MODULES, signals, w)
         == One(signals, w, Technical)
           + (One(signals, w, Fundamental) + (One(signals, w, Chip) + One(signals, w, News)))
    ensures TotalWeight(Survivors(MODULES, signals, w))
         == WeightIf(signals, w, Technical) + WeightIf(signals, w, Fundamental)
          + WeightIf(signals, w, Chip) + WeightIf(signals, w, News)
    ensures |Missing(MODULES, signals)| == |MODULES| - |Survivors(MODULES, signals, w)|
  {
    assert MODULES[1..] == [Fundamental, Chip, News];
    assert MODULES[1..][1..] == [Chip, News];
    assert MODULES[1..][1..][1..] == [News];
    SurvivorsStep([News], signals, w);
    SurvivorsStep([Chip, News], signals, w);
    SurvivorsStep([Fundamental, Chip, News], signals, w);
    SurvivorsStep(MODULES, signals, w);
    SurvivorsAndMissing(MODULES, signals, w);
  }

  function WeightIf(signals: Signals, w: Weights, m: Module): real {
    if Available(signals, m) then w.Of(m) else 0.0
  }

  lemma SurvivorsStep(ms: seq<Module>, signals: Signals, w: Weights)
    requires ms != []
    ensures Survivors(ms, signals, w) == One(signals, w, ms[0]) + Survivors(ms[1..], signals, w)
    ensures TotalWeight(Survivors(ms, signals, w))
         == WeightIf(signals, w, ms[0]) + TotalWeight(Survivors(ms[1..], signals, w))
  {
    if Available(signals, ms[0]) {
      assert Survivors(ms, signals, w)[1..] == Survivors(ms[1..], signals, w);
    } else {
      assert Survivors(ms, signals, w) == Survivors(ms[1..], signals, w);
    }
  }

  /** No lens carries more than `cap` of the effective weight: then the number of lenses
      agreeing with a directional call is at least 0.3775 / cap. */
  lemma AgreementFloor(signals: Signals, w: Weights, cap: real)
    requires w.NonNegative() && TotalWeight(Survivors(MODULES, signals, w)) != 0.0
    requires AllWithin(signals, -2.0, 2.0)
    requires forall i :: 0 <= i < |Survivors(MODULES, signals, w)| ==>
      Survivors(MODULES, signals, w)[i].weight / TotalWeight(Survivors(MODULES, signals, w)) <= cap
    ensures
      var composite := Q2(RawComposite(signals, w));
      var call := CallForComposite(composite);
      var agree := AgreeCount(call, composite, SurvivingSignals(signals, w)) as real;
      (Directional(call) ==> cap * agree >= 0.3775) && (Strong(call) ==> cap * agree >= 0.7525)
  {
    var votes := Survivors(MODULES, signals, w);
    var denom := TotalWeight(votes);
    var composite := Q2(RawComposite(signals, w));
    RenormalisedShape(votes, denom);
    AgreeingShare(signals, w);
    AgreeingWeightCapped(CallForComposite(composite), composite, Renormalised(votes, denom), cap);
  }

  lemma ShareAtMost(x: real, n: real, most: real, least: real)
    requires 0.0 <= x <= most && n >= least > 0.0
    ensures x / n <= most / least
  {
    var q := most / least;
    assert q * least == most && q >= 0.0;
    assert q * n >= q * least;
    QuotientBounds(x, n, 0.0, q);
  }

  /** Default weights, signals in range. With all four lenses a directional call has at
      least MEDIUM confidence and a STRONG call always HIGH; with one lens missing a
      STRONG call is still at least MEDIUM. */
  lemma DefaultWeightsConfidence(signals: Signals, inputs: Option<TargetInputs>, subfields: map<Module, bool>)
    requires AllWithin(signals, -2.0, 2.0) && |Missing(MODULES, signals)| <= 1
    ensures
      var r := ComputeRecommendation(signals, DEFAULT_WEIGHTS, inputs, subfields);
      && r.Returned?
      && (Missing(MODULES, signals) == [] ==>
           && (Directional(r.value.call) ==> r.value.confidenceLevel in {Some(MEDIUM), Some(HIGH)})
           && (Strong(r.value.call) ==> r.value.confidenceLevel == Some(HIGH)))
      && (Strong(r.value.call) ==> r.value.confidenceLevel in {Some(MEDIUM), Some(HIGH)})
  {
    var votes := Survivors(MODULES, signals, DEFAULT_WEIGHTS);
    var denom := TotalWeight(votes);
    DefaultSurvivors(signals);
    SurvivorsNonNegative(MODULES, signals, DEFAULT_WEIGHTS);
    SurvivorsAndMissing(MODULES, signals, DEFAULT_WEIGHTS);
    SignalsOfShape(votes);
    var least := if Missing(MODULES, signals) == [] then 1.0 else 0.70;
    forall i | 0 <= i < |votes| ensures votes[i].weight / denom <= 0.30 / least {
      ShareAtMost(votes[i].weight, denom, 0.30, least);
    }
    AgreementFloor(signals, DEFAULT_WEIGHTS, 0.30 / least);
    var composite := Q2(RawComposite(signals, DEFAULT_WEIGHTS));
    var agree := AgreeCount(CallForComposite(composite), composite, SignalsOf(votes));
    CountFloor(agree, |votes|, least);
    hide AgreeCount, Survivors, Missing, RawComposite, Breakdown, ComputeTargets, StoredWeights;
  }

  /** From capped weight back to a confidence percentage. */
  lemma CountFloor(agree: nat, n: nat, least: real)
    requires (n == 4 && least == 1.0) || (n == 3 && least == 0.70)
    ensures 0.30 / least * (agree as real) >= 0.7525 ==>
        Q2(100.0 * (agree as real) / (n as real)) >= if n == 4 then 75.0 else 50.0
    ensures n == 4 && 0.30 / least * (agree as real) >= 0.3775 ==> Q2(100.0 * (agree as real) / (n as real)) >= 50.0
  {
    var a := agree as real;
    if n == 4 {
      assert 100.0 * a / 4.0 * 100.0 == 2500.0 * a;
    } else {
      assert 0.30 / 0.70 * a == 3.0 * a / 7.0;
      if agree >= 2 {
        Q2IsMonotone(50.0, 100.0 * a / 3.0);
      }
    }
  }

  /** Confidence levels over three surviving lenses. */
  lemma ThirdsLevel(agree: nat)
    requires agree <= 3
    ensures LevelFor(Q2(100.0 * (agree as real) / 3.0)) == LOW <==> agree <= 1
  {
    Q2OfWholes();
    if agree <= 1 {
      Q2IsMonotone(100.0 * (agree as real) / 3.0, 34.0);
    } else {
      Q2IsMonotone(66.0, 100.0 * (agree as real) / 3.0);
    }
    hide Q2;
  }

  lemma Q2OfWholes()
    ensures Q2(34.0) == 34.0 && Q2(66.0) == 66.0
  {
  }

  lemma {:induction false} AgreeAtMostAll(call: Call, composite: real, xs: seq<real>)
    ensures AgreeCount(call, composite, xs) <= |xs|
  {
    if xs != [] { AgreeAtMostAll(call, composite, xs[1..]); }
  }

  /** The surviving signals with the composite's sign, counted on their own. */
  function WithSign(positive: bool, xs: seq<real>): nat {
    if xs == [] then 0
    else WithSign(positive, xs[1..]) + if (if positive then xs[0] > 0.0 else xs[0] < 0.0) then 1 else 0
  }

  lemma {:induction false} DirectionalAgrees(call: Call, composite: real, xs: seq<real>)
    requires Directional(call)
    ensures AgreeCount(call, composite, xs) == WithSign(composite > 0.0, xs)
  {
    if xs != [] { DirectionalAgrees(call, composite, xs[1..]); }
  }

  /** Default weights, signals in range, one lens missing: a directional call has LOW
      confidence exactly when a single surviving signal has the composite's sign. */
  lemma OneLensDownConfidence(signals: Signals, inputs: Option<TargetInputs>, subfields: map<Module, bool>)
    requires AllWithin(signals, -2.0, 2.0) && |Missing(MODULES, signals)| == 1
    ensures
      var r := ComputeRecommendation(signals, DEFAULT_WEIGHTS, inputs, subfields);
      && r.Returned? && r.value.composite.Some?
      && (Directional(r.value.call) ==>
           (r.value.confidenceLevel == Some(LOW)
            <==> WithSign(r.value.composite.value > 0.0, SurvivingSignals(signals, DEFAULT_WEIGHTS)) == 1))
  {
    var xs := SurvivingSignals(signals, DEFAULT_WEIGHTS);
    DefaultSurvivors(signals);
    SurvivorsNonNegative(MODULES, signals, DEFAULT_WEIGHTS);
    SurvivorsAndMissing(MODULES, signals, DEFAULT_WEIGHTS);
    SignalsOfShape(Survivors(MODULES, signals, DEFAULT_WEIGHTS));
    var composite := Q2(RawComposite(signals, DEFAULT_WEIGHTS));
    var call := CallForComposite(composite);
    AgreeAtMostAll(call, composite, xs);
    ThirdsLevel(AgreeCount(call, composite, xs));
    if Directional(call) {
      DirectionalAgrees(call, composite, xs);
      SomeoneAgrees(signals);
    }
    hide AgreeCount, Survivors, Missing, RawComposite, Breakdown, ComputeTargets, StoredWeights, Q2, LevelFor, WithSign;
  }

  lemma SomeoneAgrees(signals: Signals)
    requires AllWithin(signals, -2.0, 2.0) && |Missing(MODULES, signals)| <= 1
    ensures TotalWeight(Survivors(MODULES, signals, DEFAULT_WEIGHTS)) != 0.0
    ensures
      var composite := Q2(RawComposite(signals, DEFAULT_WEIGHTS));
      var call := CallForComposite(composite);
      Directional(call) ==> AgreeCount(call, composite, SurvivingSignals(signals, DEFAULT_WEIGHTS)) > 0
  {
    var votes := Survivors(MODULES, signals, DEFAULT_WEIGHTS);
    DefaultSurvivors(signals);
    SurvivorsNonNegative(MODULES, signals, DEFAULT_WEIGHTS);
    forall i | 0 <= i < |votes| ensures votes[i].weight / TotalWeight(votes) <= 0.30 / 0.70 {
      ShareAtMost(votes[i].weight, TotalWeight(votes), 0.30, 0.70);
    }
    AgreementFloor(signals, DEFAULT_WEIGHTS, 0.30 / 0.70);
    hide AgreeCount, Survivors, Missing, RawComposite, Q2, SurvivingSignals;
  }

  const LONE_SIGNAL: Signals := map[Technical := Some(2.0), Fundamental := Some(0.0), News := Some(0.0)]

  lemma LoneSignalVotes()
    ensures Survivors(MODULES, LONE_SIGNAL, DEFAULT_WEIGHTS) == [Vote(0.30, 2.0), Vote(0.30, 0.0), Vote(0.15, 0.0)]
    ensures |Missing(MODULES, LONE_SIGNAL)| == 1
  {
    UnrollSurvivors(LONE_SIGNAL, DEFAULT_WEIGHTS);
  }

  lemma LoneSignalMath()
    ensures
      var votes := [Vote(0.30, 2.0), Vote(0.30, 0.0), Vote(0.15, 0.0)];
      && TotalWeight(votes) == 0.75
      && Dot(Renormalised(votes, 0.75)) == 0.8
      && SignalsOf(votes) == [2.0, 0.0, 0.0]
  {
    var t, f, n := Vote(0.30, 2.0), Vote(0.30, 0.0), Vote(0.15, 0.0);
    assert [t, f, n][1..] == [f, n] && [f, n][1..] == [n];
    assert Renormalised([n], 0.75) == [Vote(0.2, 0.0)];
    assert Renormalised([f, n], 0.75) == [Vote(0.4, 0.0), Vote(0.2, 0.0)];
    assert Renormalised([t, f, n], 0.75) == [Vote(0.4, 2.0), Vote(0.4, 0.0), Vote(0.2, 0.0)];
    assert [Vote(0.4, 2.0), Vote(0.4, 0.0), Vote(0.2, 0.0)][1..] == [Vote(0.4, 0.0), Vote(0.2, 0.0)];
    assert [Vote(0.4, 0.0), Vote(0.2, 0.0)][1..] == [Vote(0.2, 0.0)];
    assert SignalsOf([n]) == [0.0] && SignalsOf([f, n]) == [0.0, 0.0];
  }

  lemma LoneSignalAgreement()
    ensures ConfidencePct(BUY, 0.8, [2.0, 0.0, 0.0]) == 33.33
  {
    assert [2.0, 0.0, 0.0][1..] == [0.0, 0.0] && [0.0, 0.0][1..] == [0.0];
    assert AgreeCount(BUY, 0.8, [0.0]) == 0;
  }

  /** Tightness: with one lens missing a plain BUY may rest on a single lens. */
  lemma OneLensDownCanBeLow()
    ensures
      var r := ComputeRecommendation(LONE_SIGNAL, DEFAULT_WEIGHTS, None, map[]);
      r.Returned? && r.value.call == BUY && r.value.confidenceLevel == Some(LOW)
  {
    hide Survivors, Missing, Breakdown, Renormalised, Dot, TotalWeight, SignalsOf, ConfidencePct, StoredWeights,
         Greatest, Least;
    LoneSignalVotes();
    LoneSignalMath();
    LoneSignalAgreement();
  }
}
