/** The pure recommendation engine: renormalised weights, one rounding, call bands,
    confidence, targets, and the suppressed shape. */
module Recommendation {
  import opened Prelude
  import opened Rounding

  datatype Module = Technical | Fundamental | Chip | News

  const MODULES: seq<Module> := [Technical, Fundamental, Chip, News]

  /** The configured weight of each lens; also the stored effective weights. */
  datatype Weights = Weights(technical: real, fundamental: real, chip: real, news: real) {
    function Of(m: Module): real {
      match m
      case Technical => technical
      case Fundamental => fundamental
      case Chip => chip
      case News => news
    }

    predicate NonNegative() { technical >= 0.0 && fundamental >= 0.0 && chip >= 0.0 && news >= 0.0 }

    function Total(): real { technical + fundamental + chip + news }
  }

  const DEFAULT_WEIGHTS := Weights(0.30, 0.30, 0.25, 0.15)

  const HOLD_EDGE := 0.75
  const STRONG_EDGE := 1.5
  const CONFLICT_SPREAD := 2.0

  datatype Call = STRONG_SELL | SELL | HOLD | BUY | STRONG_BUY | SUPPRESSED

  datatype Level = HIGH | MEDIUM | LOW

  /** Bands on the rounded composite; each boundary belongs to the milder call. */
  function CallForComposite(composite: real): Call {
    if composite < -STRONG_EDGE then STRONG_SELL
    else if composite < -HOLD_EDGE then SELL
    else if composite <= HOLD_EDGE then HOLD
    else if composite <= STRONG_EDGE then BUY
    else STRONG_BUY
  }

  /** Does one surviving signal agree with the call? */
  predicate Agrees(call: Call, composite: real, s: real) {
    if call == HOLD then Abs(s) <= HOLD_EDGE
    else s != 0.0 && (s > 0.0 <==> composite > 0.0)
  }

  function AgreeCount(call: Call, composite: real, signals: seq<real>): nat {
    if signals == [] then 0
    else AgreeCount(call, composite, signals[1..]) + if Agrees(call, composite, signals[0]) then 1 else 0
  }

  function ConfidencePct(call: Call, composite: real, signals: seq<real>): real
    requires signals != []
  {
    Q2(100.0 * (AgreeCount(call, composite, signals) as real) / (|signals| as real))
  }

  function LevelFor(pct: real): Level {
    if pct >= 75.0 then HIGH else if pct >= 50.0 then MEDIUM else LOW
  }

  /** The day's facts behind the price target. */
  datatype TargetInputs = TargetInputs(latestClose: Option<real>, peerMedianPe: Option<real>, trailingEps: Option<real>)

  datatype Targets = NoTargets | Targets(base: real, bear: real, bull: real, usable: bool)

  predicate FundamentalLegUsable(inputs: TargetInputs, fundamentalAvailable: bool) {
    fundamentalAvailable && inputs.trailingEps.Some? && inputs.trailingEps.value > 0.0 && inputs.peerMedianPe.Some?
  }

  function FairValue(inputs: TargetInputs): real
    requires inputs.peerMedianPe.Some? && inputs.trailingEps.Some?
  {
    inputs.peerMedianPe.value * inputs.trailingEps.value
  }

  /** Half fair value, half close; the close alone when the fundamental leg is unusable. */
  function TargetPrice(inputs: TargetInputs, fundamentalAvailable: bool): real
    requires inputs.latestClose.Some?
  {
    if FundamentalLegUsable(inputs, fundamentalAvailable)
    then 0.5 * FairValue(inputs) + 0.5 * inputs.latestClose.value
    else inputs.latestClose.value
  }

  function ComputeTargets(inputs: Option<TargetInputs>, fundamentalAvailable: bool): Targets {
    if inputs.None? || inputs.value.latestClose.None? then NoTargets
    else
      var i := inputs.value;
      var usable := FundamentalLegUsable(i, fundamentalAvailable);
      var base := Q4(TargetPrice(i, fundamentalAvailable));
      Targets(base, Q4(base * 0.85), Q4(base * 1.15), usable)
  }

  /** What each lens delivered; a lens absent from the map is unavailable too. */
  type Signals = map<Module, Option<real>>

  predicate Available(signals: Signals, m: Module) {
    m in signals && signals[m].Some?
  }

  /** One surviving lens: its weight and its signal. */
  datatype Vote = Vote(weight: real, signal: real) {
    function Contribution(): real { weight * signal }
  }

  function Survivors(ms: seq<Module>, signals: Signals, weights: Weights): seq<Vote> {
    if ms == [] then []
    else
      (if Available(signals, ms[0]) then [Vote(weights.Of(ms[0]), signals[ms[0]].value)] else [])
      + Survivors(ms[1..], signals, weights)
  }

  function Missing(ms: seq<Module>, signals: Signals): seq<Module> {
    if ms == [] then []
    else (if Available(signals, ms[0]) then [] else [ms[0]]) + Missing(ms[1..], signals)
  }

  function TotalWeight(votes: seq<Vote>): real {
    if votes == [] then 0.0 else votes[0].weight + TotalWeight(votes[1..])
  }

  /** Sum of weight * signal. */
  function Dot(votes: seq<Vote>): real {
    if votes == [] then 0.0 else votes[0].Contribution() + Dot(votes[1..])
  }

  /** Weights divided by their sum, at full precision. */
  function Renormalised(votes: seq<Vote>, denom: real): seq<Vote>
    requires denom != 0.0
  {
    if votes == [] then []
    else [Vote(votes[0].weight / denom, votes[0].signal)] + Renormalised(votes[1..], denom)
  }

  function SignalsOf(votes: seq<Vote>): seq<real> {
    if votes == [] then [] else [votes[0].signal] + SignalsOf(votes[1..])
  }

  function Greatest(xs: seq<real>): real
    requires xs != []
  {
    if |xs| == 1 then xs[0] else Max(xs[0], Greatest(xs[1..]))
  }

  function Least(xs: seq<real>): real
    requires xs != []
  {
    if |xs| == 1 then xs[0] else Min(xs[0], Least(xs[1..]))
  }

  datatype BreakdownItem = BreakdownItem(
    lens: Module, signalScore: Option<real>, weightAssigned: real, weightEffective: real,
    ok: bool, subfieldsComplete: bool)

  function Breakdown(ms: seq<Module>, signals: Signals, weights: Weights, effective: Weights,
                     subfields: map<Module, bool>): seq<BreakdownItem> {
    if ms == [] then []
    else
      var m := ms[0];
      var score := if Available(signals, m) then Some(Q2(signals[m].value)) else None;
      [BreakdownItem(m, score, weights.Of(m), effective.Of(m), Available(signals, m),
                     m in subfields ==> subfields[m])]
      + Breakdown(ms[1..], signals, weights, effective, subfields)
  }

  datatype EngineResult = EngineResult(
    composite: Option<real>, call: Call, weightEffective: Weights, completeness: real,
    reducedConfidence: bool, spread: Option<real>, conflict: bool,
    confidencePct: Option<real>, confidenceLevel: Option<Level>,
    targets: Targets, breakdown: seq<BreakdownItem>, missing: seq<Module>)

  const NO_WEIGHTS := Weights(0.0, 0.0, 0.0, 0.0)

  function StoredWeight(signals: Signals, weights: Weights, denom: real, m: Module): real
    requires denom != 0.0
  {
    if Available(signals, m) then Q4(weights.Of(m) / denom) else 0.0
  }

  function StoredWeights(signals: Signals, weights: Weights, denom: real): Weights
    requires denom != 0.0
  {
    Weights(StoredWeight(signals, weights, denom, Technical),
            StoredWeight(signals, weights, denom, Fundamental),
            StoredWeight(signals, weights, denom, Chip),
            StoredWeight(signals, weights, denom, News))
  }

  /** The composite before its one rounding. */
  function RawComposite(signals: Signals, weights: Weights): real
    requires TotalWeight(Survivors(MODULES, signals, weights)) != 0.0
  {
    var votes := Survivors(MODULES, signals, weights);
    Dot(Renormalised(votes, TotalWeight(votes)))
  }

  function SurvivingSignals(signals: Signals, weights: Weights): seq<real> {
    SignalsOf(Survivors(MODULES, signals, weights))
  }

  lemma {:induction false} SignalsOfShape(votes: seq<Vote>)
    ensures |SignalsOf(votes)| == |votes|
    ensures forall i :: 0 <= i < |votes| ==> SignalsOf(votes)[i] == votes[i].signal
  {
    if votes != [] { SignalsOfShape(votes[1..]); }
  }

  lemma {:induction false} SurvivorsAndMissing(ms: seq<Module>, signals: Signals, weights: Weights)
    ensures |Survivors(ms, signals, weights)| + |Missing(ms, signals)| == |ms|
  {
    if ms != [] { SurvivorsAndMissing(ms[1..], signals, weights); }
  }

  function SuppressedResult(signals: Signals, weights: Weights, subfields: map<Module, bool>): EngineResult {
    var missing := Missing(MODULES, signals);
    EngineResult(None, SUPPRESSED, NO_WEIGHTS, (|MODULES| - |missing|) as real / 4.0,
                 false, None, false, None, None, NoTargets,
                 Breakdown(MODULES, signals, weights, NO_WEIGHTS, subfields), missing)
  }

  /** The engine core. Dividing by a zero weight sum raises. */
  function ComputeRecommendation(signals: Signals, weights: Weights, targetInputs: Option<TargetInputs>,
                                 subfields: map<Module, bool>): Result<EngineResult> {
    var missing := Missing(MODULES, signals);
    if |missing| >= 2 then Returned(SuppressedResult(signals, weights, subfields))
    else
      var votes := Survivors(MODULES, signals, weights);
      var denom := TotalWeight(votes);
      if denom == 0.0 then Threw(DivisionByZero)
      else
        SurvivorsAndMissing(MODULES, signals, weights);
        SignalsOfShape(votes);
        var stored := StoredWeights(signals, weights, denom);
        var composite := Q2(RawComposite(signals, weights));
        var call := CallForComposite(composite);
        var survivors := SurvivingSignals(signals, weights);
        var spread := Greatest(survivors) - Least(survivors);
        var pct := ConfidencePct(call, composite, survivors);
        var targets := ComputeTargets(targetInputs, Available(signals, Fundamental));
        var usable := targets.Targets? && targets.usable;
        Returned(EngineResult(
          Some(composite), call, stored, |votes| as real / 4.0,
          |missing| == 1 || (targetInputs.Some? && !usable),
          Some(spread), spread > CONFLICT_SPREAD,
          Some(pct), Some(LevelFor(pct)),
          targets, Breakdown(MODULES, signals, weights, stored, subfields), missing))
  }
}
