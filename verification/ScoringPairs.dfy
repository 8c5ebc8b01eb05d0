/** Properties that compare the engine on two related days: every signal negated, and
    signals raised. */
module ScoringPairs {
  import opened Prelude
  import opened Rounding
  import opened Recommendation
  import opened RecommendationLaws

  // --- mirror image: every signal negated ------------------------------------------------

  function Negate(signals: Signals): Signals {
    map m | m in signals :: if signals[m].Some? then Some(-signals[m].value) else None
  }

  function MirrorCall(call: Call): Call {
    match call
    case STRONG_SELL => STRONG_BUY
    case SELL => BUY
    case BUY => SELL
    case STRONG_BUY => STRONG_SELL
    case HOLD => HOLD
    case SUPPRESSED => SUPPRESSED
  }

  function NegateVotes(votes: seq<Vote>): seq<Vote> {
    if votes == [] then [] else [Vote(votes[0].weight, -votes[0].signal)] + NegateVotes(votes[1..])
  }

  function NegateAll(xs: seq<real>): seq<real> {
    if xs == [] then [] else [-xs[0]] + NegateAll(xs[1..])
  }

  lemma {:induction false} NegateSurvivors(ms: seq<Module>, signals: Signals, w: Weights)
    ensures Survivors(ms, Negate(signals), w) == NegateVotes(Survivors(ms, signals, w))
    ensures Missing(ms, Negate(signals)) == Missing(ms, signals)
  {
    if ms != [] {
      NegateSurvivors(ms[1..], signals, w);
      var rest := Survivors(ms[1..], signals, w);
      if Available(signals, ms[0]) {
        assert Survivors(ms, signals, w)[1..] == rest;
      } else {
        assert Survivors(ms, signals, w) == rest;
      }
    }
  }

  lemma {:induction false} NegateVotesLaws(votes: seq<Vote>, denom: real)
    requires denom != 0.0
    ensures |NegateVotes(votes)| == |votes|
    ensures TotalWeight(NegateVotes(votes)) == TotalWeight(votes)
    ensures Renormalised(NegateVotes(votes), denom) == NegateVotes(Renormalised(votes, denom))
    ensures Dot(NegateVotes(votes)) == -Dot(votes)
    ensures SignalsOf(NegateVotes(votes)) == NegateAll(SignalsOf(votes))
  {
    if votes != [] {
      NegateVotesLaws(votes[1..], denom);
      assert NegateVotes(votes)[1..] == NegateVotes(votes[1..]);
      assert Renormalised(votes, denom)[1..] == Renormalised(votes[1..], denom);
      assert SignalsOf(votes)[1..] == SignalsOf(votes[1..]);
    }
  }

  lemma {:induction false} NegateAgreement(call: Call, composite: real, xs: seq<real>)
    requires call != HOLD ==> composite != 0.0
    ensures AgreeCount(MirrorCall(call), -composite, NegateAll(xs)) == AgreeCount(call, composite, xs)
    ensures |NegateAll(xs)| == |xs|
  {
    if xs != [] {
      NegateAgreement(call, composite, xs[1..]);
      assert NegateAll(xs)[1..] == NegateAll(xs[1..]);
      assert Agrees(MirrorCall(call), -composite, -xs[0]) <==> Agrees(call, composite, xs[0]);
    }
  }

  lemma {:induction false} NegateExtremes(xs: seq<real>)
    requires xs != []
    ensures NegateAll(xs) != []
    ensures Greatest(NegateAll(xs)) == -Least(xs) && Least(NegateAll(xs)) == -Greatest(xs)
  {
    if |xs| > 1 {
      NegateExtremes(xs[1..]);
      assert NegateAll(xs)[1..] == NegateAll(xs[1..]);
    }
  }

  lemma MirrorBands(composite: real)
    ensures CallForComposite(-composite) == MirrorCall(CallForComposite(composite))
  {
  }

  /** A mirrored day: the composite is negated, the call mirrored; confidence, spread,
      conflict flag, weights, completeness and the list of missing lenses stay the same. */
  predicate IsMirrorOf(r: EngineResult, r': EngineResult) {
    && r'.composite == (if r.composite.Some? then Some(-r.composite.value) else None)
    && r'.call == MirrorCall(r.call)
    && r'.confidencePct == r.confidencePct && r'.confidenceLevel == r.confidenceLevel
    && r'.spread == r.spread && r'.conflict == r.conflict
    && r'.weightEffective == r.weightEffective && r'.completeness == r.completeness
    && r'.reducedConfidence == r.reducedConfidence && r'.targets == r.targets && r'.missing == r.missing
  }

  lemma MirrorParts(signals: Signals, w: Weights)
    ensures Missing(MODULES, Negate(signals)) == Missing(MODULES, signals)
    ensures |Survivors(MODULES, Negate(signals), w)| == |Survivors(MODULES, signals, w)|
    ensures TotalWeight(Survivors(MODULES, Negate(signals), w)) == TotalWeight(Survivors(MODULES, signals, w))
    ensures SurvivingSignals(Negate(signals), w) == NegateAll(SurvivingSignals(signals, w))
    ensures TotalWeight(Survivors(MODULES, signals, w)) != 0.0 ==>
      RawComposite(Negate(signals), w) == -RawComposite(signals, w)
  {
    var votes := Survivors(MODULES, signals, w);
    var denom := TotalWeight(votes);
    NegateSurvivors(MODULES, signals, w);
    NegateVotesLaws(votes, 1.0);
    if denom != 0.0 {
      NegateVotesLaws(votes, denom);
      NegateVotesLaws(Renormalised(votes, denom), 1.0);
    }
  }

  lemma MirrorConfidence(composite: real, xs: seq<real>)
    requires xs != []
    ensures NegateAll(xs) != []
    ensures ConfidencePct(MirrorCall(CallForComposite(composite)), -composite, NegateAll(xs))
         == ConfidencePct(CallForComposite(composite), composite, xs)
  {
    NegateAgreement(CallForComposite(composite), composite, xs);
  }

  lemma SuppressedMirror(signals: Signals, w: Weights, subfields: map<Module, bool>)
    ensures IsMirrorOf(SuppressedResult(signals, w, subfields), SuppressedResult(Negate(signals), w, subfields))
  {
    NegateSurvivors(MODULES, signals, w);
  }

  /** Negating every signal mirrors the whole result, or both days fail alike. */
  lemma MirrorSymmetry(signals: Signals, w: Weights, inputs: Option<TargetInputs>, subfields: map<Module, bool>)
    ensures
      var r := ComputeRecommendation(signals, w, inputs, subfields);
      var r' := ComputeRecommendation(Negate(signals), w, inputs, subfields);
      && (r.Returned? <==> r'.Returned?)
      && (r.Returned? ==> IsMirrorOf(r.value, r'.value))
  {
    hide Survivors, Missing, Breakdown, RawComposite, TotalWeight, SurvivingSignals, SignalsOf, ConfidencePct,
         StoredWeights, Greatest, Least, CallForComposite, Q2, ComputeTargets, NegateAll, SuppressedResult, LevelFor;
    MirrorParts(signals, w);
    SuppressedMirror(signals, w, subfields);
    SurvivorsAndMissing(MODULES, signals, w);
    SignalsOfShape(Survivors(MODULES, signals, w));
    var xs := SurvivingSignals(signals, w);
    var denom := TotalWeight(Survivors(MODULES, signals, w));
    if |Missing(MODULES, signals)| < 2 && denom != 0.0 {
      assert xs == SignalsOf(Survivors(MODULES, signals, w)) by { UnfoldSurviving(signals, w); }
      var raw := RawComposite(signals, w);
      Q2IsOdd(raw);
      MirrorBands(Q2(raw));
      MirrorConfidence(Q2(raw), xs);
      NegateExtremes(xs);
      SameStored(signals, w, denom);
    }
  }

  lemma UnfoldSurviving(signals: Signals, w: Weights)
    ensures SurvivingSignals(signals, w) == SignalsOf(Survivors(MODULES, signals, w))
  {
  }

  lemma SameStored(signals: Signals, w: Weights, denom: real)
    requires denom != 0.0
    ensures StoredWeights(Negate(signals), w, denom) == StoredWeights(signals, w, denom)
  {
  }

  // --- raising signals ---------------------------------------------------------------------

  /** The same lenses are available and none reads lower. */
  predicate RaisedFrom(signals: Signals, signals': Signals) {
    forall m: Module ::
      && (Available(signals, m) <==> Available(signals', m))
      && (Available(signals, m) ==> signals[m].value <= signals'[m].value)
  }

  predicate VotesRaised(votes: seq<Vote>, votes': seq<Vote>) {
    && |votes| == |votes'|
    && forall i :: 0 <= i < |votes| ==> votes'[i].weight == votes[i].weight && votes[i].signal <= votes'[i].signal
  }

  lemma {:induction false} RaisedSurvivors(ms: seq<Module>, signals: Signals, signals': Signals, w: Weights)
    requires RaisedFrom(signals, signals')
    ensures VotesRaised(Survivors(ms, signals, w), Survivors(ms, signals', w))
    ensures Missing(ms, signals) == Missing(ms, signals')
  {
    if ms != [] {
      RaisedSurvivors(ms[1..], signals, signals', w);
      assert Available(signals, ms[0]) <==> Available(signals', ms[0]);
    }
  }

  lemma {:induction false} RaisedLaws(votes: seq<Vote>, votes': seq<Vote>)
    requires VotesRaised(votes, votes') && NonNegativeVotes(votes)
    ensures TotalWeight(votes) == TotalWeight(votes')
    ensures Dot(votes) <= Dot(votes')
  {
    if votes != [] {
      RaisedLaws(votes[1..], votes'[1..]);
      var d := votes'[0].signal - votes[0].signal;
      assert votes[0].weight * d >= 0.0;
      assert votes'[0].Contribution() == votes[0].Contribution() + votes[0].weight * d;
    }
  }

  function Rank(call: Call): int {
    match call
    case STRONG_SELL => -2
    case SELL => -1
    case HOLD => 0
    case SUPPRESSED => 0
    case BUY => 1
    case STRONG_BUY => 2
  }

  /** Raising signals never lowers the composite and never moves the call toward sell. */
  lemma RaisingNeverSells(signals: Signals, signals': Signals, w: Weights, inputs: Option<TargetInputs>,
                          subfields: map<Module, bool>)
    requires w.NonNegative() && RaisedFrom(signals, signals')
    ensures
      var r := ComputeRecommendation(signals, w, inputs, subfields);
      var r' := ComputeRecommendation(signals', w, inputs, subfields);
      && (r.Returned? <==> r'.Returned?)
      && (r.Returned? ==>
           && (r.value.call == SUPPRESSED <==> r'.value.call == SUPPRESSED)
           && Rank(r.value.call) <= Rank(r'.value.call)
           && (r.value.composite.Some? ==>
                 r'.value.composite.Some? && r.value.composite.value <= r'.value.composite.value))
  {
    var votes, votes' := Survivors(MODULES, signals, w), Survivors(MODULES, signals', w);
    RaisedSurvivors(MODULES, signals, signals', w);
    SurvivorsNonNegative(MODULES, signals, w);
    RaisedLaws(votes, votes');
    var denom := TotalWeight(votes);
    if |Missing(MODULES, signals)| < 2 && denom != 0.0 {
      var eff := EffectiveVotes(signals, w);
      RenormalisedShape(votes, denom);
      RenormalisedShape(votes', denom);
      RaisedLaws(eff, Renormalised(votes', denom));
      Q2IsMonotone(RawComposite(signals, w), RawComposite(signals', w));
      RankMonotone(Q2(RawComposite(signals, w)), Q2(RawComposite(signals', w)));
    }
    hide Survivors, Missing, Breakdown, Renormalised, Dot, TotalWeight, SignalsOf, AgreeCount, StoredWeights,
         Greatest, Least, Q2, ComputeTargets;
  }

  lemma RankMonotone(c: real, c': real)
    requires c <= c'
    ensures Rank(CallForComposite(c)) <= Rank(CallForComposite(c'))
  {
  }
}
