/** What each field of a recommendation says about the signals and weights of the lenses, by
    their names. */
module RecommendationMeaning {
  import opened Prelude
  import opened Rounding
  import opened Recommendation
  import opened RecommendationLaws

  // --- the composite ------------------------------------------------------------------------------

  /** A lens counts only while it is available. */
  function If(up: bool, x: real): real { if up then x else 0.0 }

  /** The configured weight of the lenses that are available. */
  function WeightUp(signals: Signals, w: Weights): real {
    If(Available(signals, Technical), w.technical) + If(Available(signals, Fundamental), w.fundamental)
    + If(Available(signals, Chip), w.chip) + If(Available(signals, News), w.news)
  }

  /** What a lens of that weight contributes. */
  function Part(signals: Signals, m: Module, weight: real): real {
    if Available(signals, m) then weight * signals[m].value else 0.0
  }

  /** Weight times signal, over the lenses that are available. */
  function SignalUp(signals: Signals, w: Weights): real {
    Part(signals, Technical, w.technical) + Part(signals, Fundamental, w.fundamental)
    + Part(signals, Chip, w.chip) + Part(signals, News, w.news)
  }

  lemma DotStep(ms: seq<Module>, signals: Signals, w: Weights)
    requires ms != []
    ensures Dot(Survivors(ms, signals, w)) == Part(signals, ms[0], w.Of(ms[0])) + Dot(Survivors(ms[1..], signals, w))
  {
    if Available(signals, ms[0]) {
      assert Survivors(ms, signals, w)[1..] == Survivors(ms[1..], signals, w);
    } else {
      assert Survivors(ms, signals, w) == Survivors(ms[1..], signals, w);
    }
  }

  lemma DotUnrolled(signals: Signals, w: Weights)
    ensures Dot(Survivors(MODULES, signals, w)) == SignalUp(signals, w)
  {
    assert MODULES[1..] == [Fundamental, Chip, News];
    assert MODULES[1..][1..] == [Chip, News];
    assert MODULES[1..][1..][1..] == [News];
    NoDot(signals, w);
    NamedWeights(w);
    hide Survivors, Dot, Part, Weights.Of;
    DotStep([News], signals, w);
    DotStep([Chip, News], signals, w);
    DotStep([Fundamental, Chip, News], signals, w);
    DotStep(MODULES, signals, w);
  }

  lemma NoDot(signals: Signals, w: Weights)
    ensures Dot(Survivors([], signals, w)) == 0.0
  {
  }

  lemma NamedWeights(w: Weights)
    ensures w.Of(Technical) == w.technical && w.Of(Fundamental) == w.fundamental
    ensures w.Of(Chip) == w.chip && w.Of(News) == w.news
  {
  }

  lemma {:induction false} RenormalisedDot(votes: seq<Vote>, denom: real)
    requires denom != 0.0
    ensures Dot(Renormalised(votes, denom)) * denom == Dot(votes)
  {
    if votes != [] {
      RenormalisedDot(votes[1..], denom);
      ShareTimes(votes[0].weight, votes[0].signal, denom, Dot(Renormalised(votes[1..], denom)));
      assert Renormalised(votes, denom)[1..] == Renormalised(votes[1..], denom);
    }
  }

  lemma ShareTimes(w: real, s: real, n: real, rest: real)
    requires n != 0.0
    ensures (w / n * s + rest) * n == w * s + rest * n
  {
    var q := w / n;
    assert q * n == w;
    assert q * s * n == q * n * s;
  }

  lemma WeightUnrolled(signals: Signals, w: Weights)
    ensures TotalWeight(Survivors(MODULES, signals, w)) == WeightUp(signals, w)
  {
    UnrollSurvivors(signals, w);
  }

  /** The composite is the mean of the available signals, each lens by its own configured weight. */
  lemma CompositeByName(signals: Signals, w: Weights)
    ensures TotalWeight(Survivors(MODULES, signals, w)) == WeightUp(signals, w)
    ensures WeightUp(signals, w) != 0.0 ==> RawComposite(signals, w) * WeightUp(signals, w) == SignalUp(signals, w)
  {
    WeightUnrolled(signals, w);
    DotUnrolled(signals, w);
    hide WeightUp, SignalUp, Survivors, TotalWeight, Dot, Renormalised;
    if WeightUp(signals, w) != 0.0 { RenormalisedDot(Survivors(MODULES, signals, w), WeightUp(signals, w)); }
  }

  function Item(m: Module, signals: Signals, w: Weights, eff: Weights, sub: map<Module, bool>): BreakdownItem {
    BreakdownItem(m, if Available(signals, m) then Some(Q2(signals[m].value)) else None, w.Of(m), eff.Of(m),
                  Available(signals, m), m in sub ==> sub[m])
  }

  lemma FirstBreakdown(m: Module, ms: seq<Module>, signals: Signals, w: Weights, eff: Weights, sub: map<Module, bool>)
    ensures
      var b := Breakdown([m] + ms, signals, w, eff, sub);
      b != [] && b[0] == Item(m, signals, w, eff, sub) && b[1..] == Breakdown(ms, signals, w, eff, sub)
  {
    assert ([m] + ms)[1..] == ms;
    hide Q2;
  }

  lemma BreakdownItems(signals: Signals, w: Weights, eff: Weights, sub: map<Module, bool>)
    ensures
      var b := Breakdown(MODULES, signals, w, eff, sub);
      && |b| == 4
      && b[0] == Item(Technical, signals, w, eff, sub) && b[1] == Item(Fundamental, signals, w, eff, sub)
      && b[2] == Item(Chip, signals, w, eff, sub) && b[3] == Item(News, signals, w, eff, sub)
  {
    var b := Breakdown(MODULES, signals, w, eff, sub);
    NoBreakdown(signals, w, eff, sub);
    hide Breakdown, Item;
    FirstBreakdown(Technical, [Fundamental, Chip, News], signals, w, eff, sub);
    FirstBreakdown(Fundamental, [Chip, News], signals, w, eff, sub);
    FirstBreakdown(Chip, [News], signals, w, eff, sub);
    FirstBreakdown(News, [], signals, w, eff, sub);
    assert MODULES == [Technical] + [Fundamental, Chip, News];
    assert [Fundamental, Chip, News] == [Fundamental] + [Chip, News] && [Chip, News] == [Chip] + [News];
    assert [News] == [News] + [];
    assert b[1] == b[1..][0] && b[2] == b[1..][1..][0] && b[3] == b[1..][1..][1..][0];
  }

  lemma NoBreakdown(signals: Signals, w: Weights, eff: Weights, sub: map<Module, bool>)
    ensures Breakdown([], signals, w, eff, sub) == []
  {
  }

  lemma ItemSignal(m: Module, signals: Signals, w: Weights, eff: Weights, sub: map<Module, bool>)
    ensures
      var item := Item(m, signals, w, eff, sub);
      && item.lens == m
      && (item.signalScore.Some? <==> Available(signals, m))
      && (item.signalScore.Some? ==> Abs(item.signalScore.value - signals[m].value) <= 0.005)
      && (item.subfieldsComplete <==> (m in sub ==> sub[m]))
  {
    if Available(signals, m) { Q2Error(signals[m].value); }
    hide Q2;
  }

  /** The breakdown lists the lenses in their fixed order, each with its own weight and signal. */
  lemma BreakdownByName(signals: Signals, w: Weights, eff: Weights, sub: map<Module, bool>)
    ensures
      var b := Breakdown(MODULES, signals, w, eff, sub);
      && |b| == 4
      && b[0].lens == Technical && b[0].weightAssigned == w.technical && b[0].weightEffective == eff.technical
      && b[1].lens == Fundamental && b[1].weightAssigned == w.fundamental && b[1].weightEffective == eff.fundamental
      && b[2].lens == Chip && b[2].weightAssigned == w.chip && b[2].weightEffective == eff.chip
      && b[3].lens == News && b[3].weightAssigned == w.news && b[3].weightEffective == eff.news
      && forall i :: 0 <= i < 4 ==>
           && (b[i].signalScore.Some? <==> Available(signals, b[i].lens))
           && (b[i].signalScore.Some? ==> Abs(b[i].signalScore.value - signals[b[i].lens].value) <= 0.005)
           && (b[i].subfieldsComplete <==> (b[i].lens in sub ==> sub[b[i].lens]))
  {
    BreakdownItems(signals, w, eff, sub);
    hide Breakdown, Q2, Abs;
    ItemSignal(Technical, signals, w, eff, sub);
    ItemSignal(Fundamental, signals, w, eff, sub);
    ItemSignal(Chip, signals, w, eff, sub);
    ItemSignal(News, signals, w, eff, sub);
  }

  lemma Q2Error(x: real)
    ensures Abs(Q2(x) - x) <= 0.005
  {
  }

  /** The stored effective weight of each lens is its configured weight over the weight that is
      available, to four decimals, and zero for a lens that is down. */
  lemma StoredByName(signals: Signals, w: Weights, denom: real)
    requires denom != 0.0
    ensures
      var eff := StoredWeights(signals, w, denom);
      && Abs(eff.technical - If(Available(signals, Technical), w.technical / denom)) <= 0.00005
      && Abs(eff.fundamental - If(Available(signals, Fundamental), w.fundamental / denom)) <= 0.00005
      && Abs(eff.chip - If(Available(signals, Chip), w.chip / denom)) <= 0.00005
      && Abs(eff.news - If(Available(signals, News), w.news / denom)) <= 0.00005
  {
    Q4Error(w.technical / denom);
    Q4Error(w.fundamental / denom);
    Q4Error(w.chip / denom);
    Q4Error(w.news / denom);
    hide Q4;
  }

  lemma RoundedMean(raw: real, n: real, total: real)
    requires n != 0.0 && raw * n == total
    ensures Abs(Q2(raw) - total / n) <= 0.005
  {
    QuotientUnique(raw, n, total);
    Q2Error(raw);
    hide Q2;
  }

  /** A row that is not suppressed: its composite is the weighted mean of the available signals to
      two decimals, its stored weights and breakdown are those of the lenses they are named after,
      and its target uses the fundamental leg only if that lens is up. */
  lemma RowByName(signals: Signals, w: Weights, inputs: Option<TargetInputs>, sub: map<Module, bool>)
    ensures
      var r := ComputeRecommendation(signals, w, inputs, sub);
      r.Returned? && r.value.call != SUPPRESSED ==>
        var n := WeightUp(signals, w);
        && n != 0.0
        && r.value.composite.Some? && Abs(r.value.composite.value - SignalUp(signals, w) / n) <= 0.005
        && Abs(r.value.weightEffective.technical - If(Available(signals, Technical), w.technical / n)) <= 0.00005
        && Abs(r.value.weightEffective.fundamental - If(Available(signals, Fundamental), w.fundamental / n)) <= 0.00005
        && Abs(r.value.weightEffective.chip - If(Available(signals, Chip), w.chip / n)) <= 0.00005
        && Abs(r.value.weightEffective.news - If(Available(signals, News), w.news / n)) <= 0.00005
    ensures
      var r := ComputeRecommendation(signals, w, inputs, sub);
      r.Returned? ==>
        && r.value.breakdown == Breakdown(MODULES, signals, w, r.value.weightEffective, sub)
        && r.value.targets
          == if r.value.call == SUPPRESSED then NoTargets else ComputeTargets(inputs, Available(signals, Fundamental))
  {
    CompositeByName(signals, w);
    SurvivorsAndMissing(MODULES, signals, w);
    var n := WeightUp(signals, w);
    hide WeightUp, SignalUp, If, Survivors, TotalWeight, Missing, Breakdown, RawComposite, SurvivingSignals,
         ConfidencePct, StoredWeights, Greatest, Least, Q2, ComputeTargets, LevelFor;
    if n != 0.0 {
      RoundedMean(RawComposite(signals, w), n, SignalUp(signals, w));
      StoredByName(signals, w, n);
    }
    hide Abs;
  }

  // --- confidence ---------------------------------------------------------------------------------

  function Small(xs: seq<real>): nat {
    if xs == [] then 0 else Small(xs[1..]) + if -0.75 <= xs[0] <= 0.75 then 1 else 0
  }

  /** The surviving signals that back a call: close to zero for HOLD, else of the composite's sign. */
  function Backing(call: Call, composite: real, xs: seq<real>): nat {
    if call == HOLD then Small(xs) else WithSign(composite > 0.0, xs)
  }

  lemma {:induction false} BackingIsAgreement(call: Call, composite: real, xs: seq<real>)
    requires call == HOLD || (Directional(call) && composite != 0.0)
    ensures AgreeCount(call, composite, xs) == Backing(call, composite, xs) <= |xs|
  {
    if xs != [] { BackingIsAgreement(call, composite, xs[1..]); }
  }

  lemma LevelByCount(agree: nat, n: nat)
    requires agree <= n && 3 <= n <= 4
    ensures
      var pct := Q2(100.0 * (agree as real) / (n as real));
      && (LevelFor(pct) == HIGH <==> agree >= 3)
      && (LevelFor(pct) == MEDIUM <==> agree == 2)
      && (LevelFor(pct) == LOW <==> agree <= 1)
      && Abs(pct - 100.0 * (agree as real) / (n as real)) <= 0.005
  {
    Q2Error(100.0 * (agree as real) / (n as real));
    Percentages();
    if n == 3 { ThreeCases(agree); } else { FourCases(agree); }
    hide Q2;
  }

  lemma Percentages()
    ensures Q2(0.0) == 0.0 && Q2(25.0) == 25.0 && Q2(50.0) == 50.0 && Q2(75.0) == 75.0 && Q2(100.0) == 100.0
  {
  }

  lemma ThreeCases(agree: nat)
    requires agree <= 3
    ensures
      var x := 100.0 * (agree as real) / 3.0;
      && (agree <= 1 ==> Abs(x) < 40.0) && (agree == 2 ==> 60.0 < x < 70.0) && (agree == 3 ==> x == 100.0)
  {
  }

  lemma FourCases(agree: nat)
    requires agree <= 4
    ensures 100.0 * (agree as real) / 4.0 in {0.0, 25.0, 50.0, 75.0, 100.0}
    ensures 100.0 * (agree as real) / 4.0 == 25.0 * (agree as real)
  {
  }

  /** Confidence is a head count: HIGH from three backing lenses on, MEDIUM with two, LOW with
      fewer, whether three lenses are up or four. */
  lemma ConfidenceIsHeadCount(signals: Signals, w: Weights, inputs: Option<TargetInputs>, sub: map<Module, bool>)
    ensures
      var r := ComputeRecommendation(signals, w, inputs, sub);
      r.Returned? && r.value.call != SUPPRESSED ==>
        var xs := SurvivingSignals(signals, w);
        && r.value.composite.Some? && r.value.confidencePct.Some? && 3 <= |xs| <= 4
        && var k := Backing(r.value.call, r.value.composite.value, xs);
           && k <= |xs|
           && (r.value.confidenceLevel == Some(HIGH) <==> k >= 3)
           && (r.value.confidenceLevel == Some(MEDIUM) <==> k == 2)
           && (r.value.confidenceLevel == Some(LOW) <==> k <= 1)
           && Abs(r.value.confidencePct.value - 100.0 * (k as real) / (|xs| as real)) <= 0.005
  {
    SurvivorsAndMissing(MODULES, signals, w);
    SignalsOfShape(Survivors(MODULES, signals, w));
    hide Survivors, Missing, Breakdown, RawComposite, TotalWeight, StoredWeights, Greatest, Least, Q2, ComputeTargets,
         LevelFor, Backing, AgreeCount, Abs, SignalsOf;
    var r := ComputeRecommendation(signals, w, inputs, sub);
    if r.Returned? && |Missing(MODULES, signals)| < 2 {
      var composite, xs := r.value.composite.value, SurvivingSignals(signals, w);
      BackingIsAgreement(r.value.call, composite, xs);
      LevelByCount(AgreeCount(r.value.call, composite, xs), |xs|);
    }
  }

  // --- conflict -----------------------------------------------------------------------------------

  lemma EveryModule(m: Module)
    ensures m in MODULES
  {
    match m
    case Technical => assert MODULES[0] == m;
    case Fundamental => assert MODULES[1] == m;
    case Chip => assert MODULES[2] == m;
    case News => assert MODULES[3] == m;
  }

  lemma {:induction false} MemberSurvivesAmong(ms: seq<Module>, signals: Signals, w: Weights, m: Module)
    requires m in ms && Available(signals, m)
    ensures signals[m].value in SignalsOf(Survivors(ms, signals, w))
  {
    var rest := Survivors(ms[1..], signals, w);
    if Available(signals, ms[0]) {
      assert Survivors(ms, signals, w)[1..] == rest;
      assert SignalsOf(Survivors(ms, signals, w)) == [signals[ms[0]].value] + SignalsOf(rest);
    } else {
      assert Survivors(ms, signals, w) == rest;
    }
    if m != ms[0] {
      assert ms == [ms[0]] + ms[1..];
      MemberSurvivesAmong(ms[1..], signals, w, m);
    }
  }

  lemma MemberSurvives(signals: Signals, w: Weights, m: Module)
    requires Available(signals, m)
    ensures signals[m].value in SurvivingSignals(signals, w)
  {
    EveryModule(m);
    MemberSurvivesAmong(MODULES, signals, w, m);
    hide SignalsOf, Survivors;
  }

  lemma {:induction false} SurvivorIsALens(ms: seq<Module>, signals: Signals, w: Weights, x: real) returns (m: Module)
    requires x in SignalsOf(Survivors(ms, signals, w))
    ensures Available(signals, m) && signals[m].value == x
  {
    var rest := Survivors(ms[1..], signals, w);
    if Available(signals, ms[0]) && signals[ms[0]].value == x {
      m := ms[0];
    } else {
      if Available(signals, ms[0]) {
        assert Survivors(ms, signals, w)[1..] == rest;
        assert SignalsOf(Survivors(ms, signals, w)) == [signals[ms[0]].value] + SignalsOf(rest);
      } else {
        assert Survivors(ms, signals, w) == rest;
      }
      m := SurvivorIsALens(ms[1..], signals, w, x);
    }
  }

  /** The conflict flag is up exactly when two available lenses lie more than 2.0 apart, and the
      spread is the largest such distance. */
  lemma ConflictMeans(signals: Signals, w: Weights, inputs: Option<TargetInputs>, sub: map<Module, bool>)
    ensures
      var r := ComputeRecommendation(signals, w, inputs, sub);
      r.Returned? && r.value.call != SUPPRESSED ==>
        && r.value.spread.Some?
        && (forall a: Module, b: Module :: Available(signals, a) && Available(signals, b) ==>
              signals[a].value - signals[b].value <= r.value.spread.value)
        && (exists a: Module, b: Module :: Available(signals, a) && Available(signals, b)
              && signals[a].value - signals[b].value == r.value.spread.value)
        && (r.value.conflict <==> r.value.spread.value > 2.0)
  {
    SurvivorsAndMissing(MODULES, signals, w);
    SignalsOfShape(Survivors(MODULES, signals, w));
    hide Survivors, Missing, Breakdown, RawComposite, TotalWeight, StoredWeights, Greatest, Least, Q2, ComputeTargets,
         LevelFor, ConfidencePct, SignalsOf;
    if |Missing(MODULES, signals)| < 2 {
      var xs := SurvivingSignals(signals, w);
      ExtremesBound(xs);
      var a := SurvivorIsALens(MODULES, signals, w, Greatest(xs));
      var b := SurvivorIsALens(MODULES, signals, w, Least(xs));
      assert Available(signals, a) && Available(signals, b);
      forall c: Module | Available(signals, c) ensures Least(xs) <= signals[c].value <= Greatest(xs) {
        MemberSurvives(signals, w, c);
      }
    }
  }

  // --- the target ---------------------------------------------------------------------------------

  /** With a close the base is the close alone, to four decimals, unless the fundamental lens is
      up, the EPS positive and a peer P/E known; then it is the mean of close and P/E times EPS.
      Bear and bull are 85% and 115% of it. */
  lemma TargetByField(inputs: TargetInputs, fundamentalUp: bool)
    requires inputs.latestClose.Some?
    ensures
      var t := ComputeTargets(Some(inputs), fundamentalUp);
      var close := inputs.latestClose.value;
      var leg := fundamentalUp && inputs.trailingEps.Some? && inputs.trailingEps.value > 0.0
        && inputs.peerMedianPe.Some?;
      && t.Targets?
      && (t.usable <==> leg)
      && (!leg ==> Abs(t.base - close) <= 0.00005)
      && (leg ==> Abs(t.base - (inputs.peerMedianPe.value * inputs.trailingEps.value + close) / 2.0) <= 0.00005)
      && Abs(t.bear - 0.85 * t.base) <= 0.00005 && Abs(t.bull - 1.15 * t.base) <= 0.00005
  {
    var price := TargetPrice(inputs, fundamentalUp);
    Q4Error(price);
    Q4Error(Q4(price) * 0.85);
    Q4Error(Q4(price) * 1.15);
    hide Q4;
  }
}
