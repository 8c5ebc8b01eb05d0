/** The shape of every engine result: ranges, suppression, stored weights, targets. */
module ScoringShape {
  import opened Prelude
  import opened Rounding
  import opened Recommendation
  import opened RecommendationLaws

  /** The CHECK constraints of the recommendation table. */
  predicate RowChecks(r: EngineResult) {
    // ck_rec_signal_range
    && (r.composite.Some? ==> -2.0 <= r.composite.value <= 2.0)
    // ck_rec_breakdown_nonempty
    && r.breakdown != []
    // ck_rec_suppressed_shape
    && (r.call == SUPPRESSED ==> r.composite.None? && r.targets.NoTargets? && r.confidenceLevel.None?)
    && (r.call != SUPPRESSED ==> r.composite.Some?)
  }

  /** What the row says about the day's lenses. */
  predicate RowMeaning(r: EngineResult, signals: Signals, inputs: Option<TargetInputs>) {
    var down := |Missing(MODULES, signals)|;
    && (r.call == SUPPRESSED <==> down >= 2)
    && r.missing == Missing(MODULES, signals)
    && r.completeness == (4 - down) as real / 4.0
    && (r.reducedConfidence <==> down == 1 || (down == 0 && inputs.Some? && !(r.targets.Targets? && r.targets.usable)))
    && |r.breakdown| == 4
    && (forall i :: 0 <= i < 4 ==>
          && r.breakdown[i].lens == MODULES[i]
          && r.breakdown[i].ok == Available(signals, MODULES[i])
          && (r.breakdown[i].signalScore.Some? <==> r.breakdown[i].ok)
          && r.breakdown[i].weightEffective == r.weightEffective.Of(MODULES[i]))
  }

  lemma {:induction false} BreakdownShape(ms: seq<Module>, signals: Signals, w: Weights, eff: Weights,
                                          sub: map<Module, bool>)
    ensures
      var b := Breakdown(ms, signals, w, eff, sub);
      && |b| == |ms|
      && forall i :: 0 <= i < |ms| ==>
           && b[i].lens == ms[i] && b[i].ok == Available(signals, ms[i])
           && (b[i].signalScore.Some? <==> b[i].ok) && b[i].weightEffective == eff.Of(ms[i])
  {
    if ms != [] { BreakdownShape(ms[1..], signals, w, eff, sub); }
  }

  lemma BandsNeverSuppress(composite: real)
    ensures CallForComposite(composite) != SUPPRESSED
  {
  }

  lemma RoundedInRange(raw: real)
    requires -2.0 <= raw <= 2.0
    ensures -2.0 <= Q2(raw) <= 2.0
  {
    Q2IsMonotone(-2.0, raw);
    Q2IsMonotone(raw, 2.0);
  }

  /** Whatever the signals and weights, a result describes the day's lenses truthfully, and
      the engine raises exactly when at least three lenses are up and their weights sum to zero. */
  lemma RowTellsTruth(signals: Signals, w: Weights, inputs: Option<TargetInputs>, subfields: map<Module, bool>)
    ensures
      var r := ComputeRecommendation(signals, w, inputs, subfields);
      && (r.Threw? <==> |Missing(MODULES, signals)| < 2 && TotalWeight(Survivors(MODULES, signals, w)) == 0.0)
      && (r.Returned? ==> RowMeaning(r.value, signals, inputs))
  {
    var votes := Survivors(MODULES, signals, w);
    SurvivorsAndMissing(MODULES, signals, w);
    if |Missing(MODULES, signals)| >= 2 {
      BreakdownShape(MODULES, signals, w, NO_WEIGHTS, subfields);
    } else if TotalWeight(votes) != 0.0 {
      BreakdownShape(MODULES, signals, w, StoredWeights(signals, w, TotalWeight(votes)), subfields);
      BandsNeverSuppress(Q2(RawComposite(signals, w)));
    }
    hide Survivors, Missing, Breakdown, RawComposite, TotalWeight, SurvivingSignals, StoredWeights, Greatest, Least,
         Q2, ComputeTargets, CallForComposite, ConfidencePct;
  }

  /** For any lens outputs in range and non-negative weights, whatever the engine returns
      satisfies the table's checks. */
  lemma EveryRowIsLegal(signals: Signals, w: Weights, inputs: Option<TargetInputs>, subfields: map<Module, bool>)
    requires w.NonNegative() && AllWithin(signals, -2.0, 2.0)
    ensures
      var r := ComputeRecommendation(signals, w, inputs, subfields);
      r.Returned? ==> RowChecks(r.value) && RowMeaning(r.value, signals, inputs)
  {
    var votes := Survivors(MODULES, signals, w);
    SurvivorsAndMissing(MODULES, signals, w);
    RowTellsTruth(signals, w, inputs, subfields);
    if |Missing(MODULES, signals)| < 2 && TotalWeight(votes) != 0.0 {
      CompositeBetween(signals, w, -2.0, 2.0);
      RoundedInRange(RawComposite(signals, w));
    }
    hide Survivors, Missing, Breakdown, RawComposite, TotalWeight, SurvivingSignals, StoredWeights, Greatest, Least,
         Q2, ComputeTargets, CallForComposite, ConfidencePct;
  }

  /** Full completeness is exactly "no lens missing": the backtest's full segment. */
  lemma CompletenessIsFull(signals: Signals, w: Weights, inputs: Option<TargetInputs>, subfields: map<Module, bool>)
    requires ComputeRecommendation(signals, w, inputs, subfields).Returned?
    ensures ComputeRecommendation(signals, w, inputs, subfields).value.completeness == 1.0
            <==> forall m: Module :: Available(signals, m)
  {
    UnrollSurvivors(signals, w);
    SurvivorsAndMissing(MODULES, signals, w);
    assert |One(signals, w, Technical)| + |One(signals, w, Fundamental)| + |One(signals, w, Chip)|
      + |One(signals, w, News)|
        == |Survivors(MODULES, signals, w)|;
    forall m: Module | |Survivors(MODULES, signals, w)| == 4 ensures Available(signals, m) {
      match m case Technical => case Fundamental => case Chip => case News =>
    }
    hide Survivors, Missing, Breakdown, RawComposite, TotalWeight, SurvivingSignals, StoredWeights, Greatest, Least,
         Q2, ComputeTargets, CallForComposite, ConfidencePct;
  }

  /** Rounding the stored weights to four decimals moves their sum off 1 by at most
      0.00005 per surviving lens. */
  lemma StoredWeightsSum(signals: Signals, w: Weights)
    requires TotalWeight(Survivors(MODULES, signals, w)) != 0.0
    ensures
      var votes := Survivors(MODULES, signals, w);
      Abs(StoredWeights(signals, w, TotalWeight(votes)).Total() - 1.0) <= 0.00005 * (|votes| as real)
  {
    UnrollSurvivors(signals, w);
    hide Survivors, TotalWeight, Q4, StoredWeight, WeightIf, One;
    var denom := TotalWeight(Survivors(MODULES, signals, w));
    StoredWeightError(signals, w, denom, Technical);
    StoredWeightError(signals, w, denom, Fundamental);
    StoredWeightError(signals, w, denom, Chip);
    StoredWeightError(signals, w, denom, News);
    EffectiveSum(signals, w, denom);
    TriangleFour(
      StoredWeight(signals, w, denom, Technical), StoredWeight(signals, w, denom, Fundamental),
      StoredWeight(signals, w, denom, Chip), StoredWeight(signals, w, denom, News),
      WeightIf(signals, w, Technical) / denom, WeightIf(signals, w, Fundamental) / denom,
      WeightIf(signals, w, Chip) / denom, WeightIf(signals, w, News) / denom,
      |One(signals, w, Technical)|, |One(signals, w, Fundamental)|, |One(signals, w, Chip)|, |One(signals, w, News)|);
  }

  lemma StoredWeightError(signals: Signals, w: Weights, denom: real, m: Module)
    requires denom != 0.0
    ensures Abs(StoredWeight(signals, w, denom, m) - WeightIf(signals, w, m) / denom)
            <= 0.00005 * (|One(signals, w, m)| as real)
  {
    if Available(signals, m) {
      Q4Error(w.Of(m) / denom);
    } else {
      QuotientUnique(0.0, denom, 0.0);
    }
  }

  lemma EffectiveSum(signals: Signals, w: Weights, denom: real)
    requires denom != 0.0 && denom == TotalWeight(Survivors(MODULES, signals, w))
    ensures WeightIf(signals, w, Technical) / denom + WeightIf(signals, w, Fundamental) / denom
          + WeightIf(signals, w, Chip) / denom + WeightIf(signals, w, News) / denom == 1.0
  {
    UnrollSurvivors(signals, w);
    hide Survivors, TotalWeight, WeightIf;
    var t, f, c, n := WeightIf(signals, w, Technical), WeightIf(signals, w, Fundamental),
                      WeightIf(signals, w, Chip), WeightIf(signals, w, News);
    AddQuotients(t, f, denom);
    AddQuotients(t + f, c, denom);
    AddQuotients(t + f + c, n, denom);
    QuotientUnique(1.0, denom, denom);
  }

  lemma TriangleFour(a: real, b: real, c: real, d: real, a': real, b': real, c': real, d': real,
                     i: nat, j: nat, k: nat, l: nat)
    requires a' + b' + c' + d' == 1.0
    requires Abs(a - a') <= 0.00005 * (i as real) && Abs(b - b') <= 0.00005 * (j as real)
    requires Abs(c - c') <= 0.00005 * (k as real) && Abs(d - d') <= 0.00005 * (l as real)
    ensures Abs(a + b + c + d - 1.0) <= 0.00005 * ((i + j + k + l) as real)
  {
  }

  /** There is a target exactly when there is a latest close, and then
      bear <= base <= bull exactly when the base is above -0.0004. */
  lemma TargetOrder(inputs: Option<TargetInputs>, fundamentalAvailable: bool)
    ensures
      var t := ComputeTargets(inputs, fundamentalAvailable);
      && (t.Targets? <==> inputs.Some? && inputs.value.latestClose.Some?)
      && (t.Targets? ==> (t.bear <= t.base <= t.bull <==> t.base > -0.0004))
  {
    if inputs.Some? && inputs.value.latestClose.Some? {
      hide Q4, TargetPrice;
      TargetBands(TargetPrice(inputs.value, fundamentalAvailable));
    }
  }

  /** The base target lies between the close and the fair value when the fundamental leg is
      usable, and is the close otherwise, up to the one rounding. */
  lemma TargetBetween(inputs: TargetInputs, fundamentalAvailable: bool)
    requires inputs.latestClose.Some?
    ensures
      var close := inputs.latestClose.value;
      var base := ComputeTargets(Some(inputs), fundamentalAvailable).base;
      if FundamentalLegUsable(inputs, fundamentalAvailable)
      then Q4(Min(FairValue(inputs), close)) <= base <= Q4(Max(FairValue(inputs), close))
      else base == Q4(close)
  {
    hide Q4, FairValue;
    if FundamentalLegUsable(inputs, fundamentalAvailable) {
      var close, fair := inputs.latestClose.value, FairValue(inputs);
      Midpoint(fair, close);
      Q4IsMonotone(Min(fair, close), 0.5 * fair + 0.5 * close);
      Q4IsMonotone(0.5 * fair + 0.5 * close, Max(fair, close));
    }
  }

  lemma Midpoint(x: real, y: real)
    ensures Min(x, y) <= 0.5 * x + 0.5 * y <= Max(x, y)
  {
  }

  lemma TargetBands(price: real)
    ensures Q4(Q4(price) * 0.85) <= Q4(price) <= Q4(Q4(price) * 1.15) <==> Q4(price) > -0.0004
  {
    var n := Nearest(price * 10000.0);
    var base := Q4(price);
    assert base * 0.85 * 10000.0 == 0.85 * (n as real) && base * 1.15 * 10000.0 == 1.15 * (n as real);
    NearestScaled(n);
  }

  lemma NearestScaled(n: int)
    ensures Nearest(0.85 * (n as real)) <= n <= Nearest(1.15 * (n as real)) <==> n > -4
  {
    if n > 0 {
      NearestReaches(1.15 * (n as real), n);
    }
  }
}
