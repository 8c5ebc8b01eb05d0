/** Scoring a ticker from its day's facts, persisting the row, and the loop over the
    covered tickers. */
module ScoringEngine {
  import opened Prelude
  import opened LensSignal
  import opened Calendar
  import opened PipelineRuns
  import opened Recommendation
  import opened RecommendationLaws
  import opened ScoringShape
  import TL = Technical
  import TechnicalLaws
  import FL = Fundamental
  import CL = Chip
  import NL = News

  const HISTORY_BARS := 150

  /** Everything the four lenses read for one ticker on one day. */
  datatype TickerFacts = TickerFacts(
    id: int, symbol: string, taiwan: bool,
    closes: seq<real>,                                   // non-null closes, in date order
    snapshot: Option<FL.Snapshot>, peers: seq<FL.Snapshot>,
    chipRow: Option<CL.ChipRow>, quarterTotals: seq<int>,
    sentiments: seq<real>)

  /** The bounded fetch: the latest 150 closes. */
  function Fetched(closes: seq<real>): seq<real> {
    if |closes| <= HISTORY_BARS then closes else closes[|closes| - HISTORY_BARS..]
  }

  function LatestClose(f: TickerFacts): Option<real> {
    if f.closes == [] then None else Some(Last(f.closes))
  }

  function ChipLens(f: TickerFacts): ModuleSignal {
    if f.taiwan then CL.ChipScoreTw(f.chipRow) else CL.ChipScoreUs(f.quarterTotals)
  }

  /** Where the news lens looks for its fetch outcome. */
  datatype NewsEvidence = NewsEvidence(override: Option<bool>, row: Option<RunRow>)

  function Lens(f: TickerFacts, news: NewsEvidence, m: Module): ModuleSignal {
    match m
    case Technical => TL.TechnicalLens(Fetched(f.closes))
    case Fundamental => FL.FundamentalLens(f.snapshot, f.peers)
    case Chip => ChipLens(f)
    case News => NL.NewsLens(f.symbol, news.override, news.row, f.sentiments)
  }

  function Lenses(f: TickerFacts, news: NewsEvidence): Signals {
    map m: Module | m in MODULES :: Lens(f, news, m).signal
  }

  function InputsOf(f: TickerFacts): TargetInputs {
    TargetInputs(LatestClose(f), FL.PeerMedianPe(f.peers), if f.snapshot.None? then None else f.snapshot.value.eps)
  }

  function Subfields(f: TickerFacts, news: NewsEvidence): map<Module, bool> {
    map m: Module | m in MODULES :: Lens(f, news, m).subfieldsComplete
  }

  /** Nothing at all to say about the ticker: no row is written. */
  predicate NothingScoreable(f: TickerFacts, news: NewsEvidence) {
    (forall m: Module :: !Lens(f, news, m).Available()) && LatestClose(f).None?
  }

  /** The pure part of `score_ticker`. */
  function ScoreFacts(f: TickerFacts, news: NewsEvidence, weights: Weights): Result<Option<EngineResult>> {
    if NothingScoreable(f, news) then Returned(None)
    else
      match ComputeRecommendation(Lenses(f, news), weights, Some(InputsOf(f)), Subfields(f, news))
      case Returned(r) => Returned(Some(r))
      case Threw(e) => Threw(e)
  }

  /** Where each lens and the target get their figures: the technical lens scores the last 150
      closes, or all of them if there are fewer; a Taiwan ticker's chip lens never looks at the 13F
      totals, and any other's never at the chip row; the target takes the last close, the median of
      the peers' P/E and the ticker's own EPS; signal and completeness flag go in under the lens's name. */
  lemma LensInputs(f: TickerFacts, news: NewsEvidence, older: seq<real>, recent: seq<real>)
    ensures |recent| == 150 ==> Lens(f.(closes := older + recent), news, Technical) == TL.TechnicalLens(recent)
    ensures |f.closes| <= 150 ==> Lens(f, news, Technical) == TL.TechnicalLens(f.closes)
    ensures Lens(f, news, Fundamental) == FL.FundamentalLens(f.snapshot, f.peers)
    ensures f.taiwan ==> Lens(f, news, Chip) == CL.ChipScoreTw(f.chipRow)
    ensures !f.taiwan ==> Lens(f, news, Chip) == CL.ChipScoreUs(f.quarterTotals)
    ensures InputsOf(f).latestClose == if |f.closes| == 0 then None else Some(f.closes[|f.closes| - 1])
    ensures InputsOf(f).peerMedianPe == FL.PeerMedianPe(f.peers)
    ensures f.snapshot.None? ==> InputsOf(f).trailingEps.None?
    ensures f.snapshot.Some? ==> InputsOf(f).trailingEps == f.snapshot.value.eps
    ensures forall m: Module :: m in MODULES ==>
      && m in Subfields(f, news) && Subfields(f, news)[m] == Lens(f, news, m).subfieldsComplete
      && m in Lenses(f, news) && Lenses(f, news)[m] == Lens(f, news, m).signal
  {
    if |recent| == 150 {
      var closes := older + recent;
      assert closes[|closes| - 150..] == recent;
      assert closes == (if |closes| <= 150 then recent else closes);
    }
  }

  lemma LensesAreLenses(f: TickerFacts, news: NewsEvidence)
    ensures forall m: Module :: m in MODULES
    ensures forall m: Module :: Available(Lenses(f, news), m) <==> Lens(f, news, m).Available()
  {
    forall m: Module ensures m in MODULES {
      match m
      case Technical => assert MODULES[0] == m;
      case Fundamental => assert MODULES[1] == m;
      case Chip => assert MODULES[2] == m;
      case News => assert MODULES[3] == m;
    }
  }

  /** Whatever prices, snapshots, chip rows, 13F totals and sentiments come in, every lens
      lands in [-2, 2]. */
  lemma LensesInRange(f: TickerFacts, news: NewsEvidence)
    ensures AllWithin(Lenses(f, news), -2.0, 2.0)
  {
    hide TL.TechnicalLens, FL.FundamentalLens, CL.ChipScoreTw, CL.ChipScoreUs, NL.NewsLens;
    LensesAreLenses(f, news);
    TechnicalLaws.TechnicalLensInRange(Fetched(f.closes));
    FL.FundamentalInRange(f.snapshot, f.peers);
    CL.ChipInRange(f.chipRow, f.quarterTotals);
    NL.QuietIsNotFailed(f.symbol, news.override, news.row, f.sentiments);
    forall m: Module | Available(Lenses(f, news), m) ensures -2.0 <= Lenses(f, news)[m].value <= 2.0 {
      match m case Technical => case Fundamental => case Chip => case News =>
    }
  }

  lemma {:induction false} MissingMembers(ms: seq<Module>, signals: Signals)
    ensures forall m: Module :: m in Missing(ms, signals) <==> m in ms && !Available(signals, m)
  {
    if ms != [] {
      MissingMembers(ms[1..], signals);
      assert ms == [ms[0]] + ms[1..];
    }
  }

  /** End to end, for any facts and any non-negative weights: a row that is written satisfies
      every check of the table, and its `missing` names exactly the lenses that are down. */
  lemma EveryWrittenRowIsLegal(f: TickerFacts, news: NewsEvidence, weights: Weights)
    requires weights.NonNegative()
    ensures
      var r := ScoreFacts(f, news, weights);
      && (r.Returned? && r.value.Some? ==>
           && RowChecks(r.value.value)
           && RowMeaning(r.value.value, Lenses(f, news), Some(InputsOf(f)))
           && (forall m: Module :: m in r.value.value.missing <==> !Lens(f, news, m).Available()))
      && (r == Returned(None) <==> (forall m: Module :: !Lens(f, news, m).Available()) && f.closes == [])
  {
    LensesInRange(f, news);
    LensesAreLenses(f, news);
    EveryRowIsLegal(Lenses(f, news), weights, Some(InputsOf(f)), Subfields(f, news));
    MissingMembers(MODULES, Lenses(f, news));
    hide ComputeRecommendation, Lens, Missing, RowChecks, Survivors, TotalWeight;
  }

  // --- configured weights ------------------------------------------------------------------

  /** `user_config`: each stored weight, if present; absent ones take their default. */
  datatype StoredConfig = StoredConfig(technical: Option<real>, fundamental: Option<real>, chip: Option<real>,
                                       news: Option<real>, horizonMonths: int)

  function OrDefault(v: Option<real>, default: real): real { if v.Some? then v.value else default }

  function LoadWeights(row: Option<StoredConfig>): (Weights, int) {
    match row
    case None => (DEFAULT_WEIGHTS, 6)
    case Some(c) =>
      var w := Weights(OrDefault(c.technical, DEFAULT_WEIGHTS.technical),
                       OrDefault(c.fundamental, DEFAULT_WEIGHTS.fundamental),
                       OrDefault(c.chip, DEFAULT_WEIGHTS.chip), OrDefault(c.news, DEFAULT_WEIGHTS.news));
      (if Abs(w.Total() - 1.0) > 0.001 then DEFAULT_WEIGHTS else w, c.horizonMonths)
  }

  /** The loaded weights always sum to 1 within 0.001, so the engine never divides by a
      vanishing sum unless the lenses that carry the weight are down. */
  lemma LoadedWeightsSumToOne(row: Option<StoredConfig>)
    ensures Abs(LoadWeights(row).0.Total() - 1.0) <= 0.001
  {
  }

  /** Each lens gets its own stored weight where there is one and its default otherwise, unless
      the four are off by more than 0.001 from 1; then all four defaults. */
  lemma LoadedByName(row: Option<StoredConfig>)
    ensures
      var w := LoadWeights(row).0;
      if row.None? then LoadWeights(row) == (Weights(0.30, 0.30, 0.25, 0.15), 6)
      else
        var c := row.value;
        var t := if c.technical.Some? then c.technical.value else 0.30;
        var f := if c.fundamental.Some? then c.fundamental.value else 0.30;
        var k := if c.chip.Some? then c.chip.value else 0.25;
        var n := if c.news.Some? then c.news.value else 0.15;
        && LoadWeights(row).1 == c.horizonMonths
        && (-0.001 <= t + f + k + n - 1.0 <= 0.001 ==>
              w.technical == t && w.fundamental == f && w.chip == k && w.news == n)
        && (!(-0.001 <= t + f + k + n - 1.0 <= 0.001) ==>
              w.technical == 0.30 && w.fundamental == 0.30 && w.chip == 0.25 && w.news == 0.15)
  {
  }

  // --- the recommendation table ---------------------------------------------------------------

  datatype RecRow = RecRow(result: EngineResult, horizonMonths: int, methodology: string)

  /** PRIMARY KEY (ticker_id, rec_date). */
  datatype RecKey = RecKey(tickerId: int, recDate: Date)

  type RecTable = map<RecKey, RecRow>

  /** A covered ticker's turn: its reads raise, or deliver the day's facts. */
  datatype Turn = ReadsFail | HasFacts(facts: TickerFacts)

  datatype TurnOutcome = TurnFailed | TurnSkipped | TurnSuppressed | TurnScored

  function OutcomeOf(t: Turn, newsRow: Option<RunRow>, weights: Weights): TurnOutcome {
    if t.ReadsFail? then TurnFailed
    else
      match ScoreFacts(t.facts, NewsEvidence(None, newsRow), weights)
      case Threw(_) => TurnFailed
      case Returned(None) => TurnSkipped
      case Returned(Some(r)) => if r.call == SUPPRESSED then TurnSuppressed else TurnScored
  }

  function WithTurn(rows: RecTable, t: Turn, newsRow: Option<RunRow>, date: Date, weights: Weights,
                    horizon: int, methodology: string): RecTable {
    if t.ReadsFail? then rows
    else
      match ScoreFacts(t.facts, NewsEvidence(None, newsRow), weights)
      case Returned(Some(r)) => rows[RecKey(t.facts.id, date) := RecRow(r, horizon, methodology)]
      case _ => rows
  }

  function WithTurns(rows: RecTable, ts: seq<Turn>, newsRow: Option<RunRow>, date: Date, weights: Weights,
                     horizon: int, methodology: string): RecTable {
    if ts == [] then rows
    else WithTurn(WithTurns(rows, ts[..|ts| - 1], newsRow, date, weights, horizon, methodology),
                  Last(ts), newsRow, date, weights, horizon, methodology)
  }

  function CountOutcome(ts: seq<Turn>, newsRow: Option<RunRow>, weights: Weights, o: TurnOutcome): nat {
    if ts == [] then 0
    else CountOutcome(ts[..|ts| - 1], newsRow, weights, o) + if OutcomeOf(Last(ts), newsRow, weights) == o then 1 else 0
  }

  /** A covered ticker's turn fails when its reads do or when the lenses that are up carry no weight;
      it is skipped when no lens is up and there is no close, suppressed when two or more are down,
      and scored otherwise. */
  lemma OutcomeMeans(t: Turn, newsRow: Option<RunRow>, w: Weights)
    ensures t.ReadsFail? ==> OutcomeOf(t, newsRow, w) == TurnFailed
    ensures t.HasFacts? ==>
      var news := NewsEvidence(None, newsRow);
      var signals, o := Lenses(t.facts, news), OutcomeOf(t, newsRow, w);
      var silent := (forall m: Module :: !Lens(t.facts, news, m).Available()) && t.facts.closes == [];
      var enough := |Missing(MODULES, signals)| < 2;
      var weightless := TotalWeight(Survivors(MODULES, signals, w)) == 0.0;
      && (o == TurnSkipped <==> silent)
      && (o == TurnSuppressed <==> !silent && !enough)
      && (o == TurnFailed <==> !silent && enough && weightless)
      && (o == TurnScored <==> !silent && enough && !weightless)
  {
    if t.HasFacts? {
      var news := NewsEvidence(None, newsRow);
      hide ComputeRecommendation, Missing, Survivors, TotalWeight, Subfields, InputsOf, Lens, Lenses;
      NothingMeans(t.facts, news);
      hide NothingScoreable;
      CallTells(Lenses(t.facts, news), w, Some(InputsOf(t.facts)), Subfields(t.facts, news));
    }
  }

  lemma NothingMeans(f: TickerFacts, news: NewsEvidence)
    ensures NothingScoreable(f, news) <==> (forall m: Module :: !Lens(f, news, m).Available()) && f.closes == []
  {
    hide Lens;
  }

  lemma CallTells(signals: Signals, w: Weights, inputs: Option<TargetInputs>, sub: map<Module, bool>)
    ensures
      var r, enough := ComputeRecommendation(signals, w, inputs, sub), |Missing(MODULES, signals)| < 2;
      && (r.Threw? <==> enough && TotalWeight(Survivors(MODULES, signals, w)) == 0.0)
      && (r.Returned? ==> (r.value.call == SUPPRESSED <==> !enough))
  {
    RowTellsTruth(signals, w, inputs, sub);
    hide ComputeRecommendation, Missing, Survivors, TotalWeight;
  }

  lemma TurnStep(rows: RecTable, ts: seq<Turn>, i: nat, newsRow: Option<RunRow>, date: Date, w: Weights,
                 horizon: int, methodology: string)
    requires i < |ts|
    ensures WithTurns(rows, ts[..i + 1], newsRow, date, w, horizon, methodology)
         == WithTurn(WithTurns(rows, ts[..i], newsRow, date, w, horizon, methodology), ts[i], newsRow, date, w,
                     horizon, methodology)
    ensures forall o :: (CountOutcome(ts[..i + 1], newsRow, w, o)
                         == CountOutcome(ts[..i], newsRow, w, o) + if OutcomeOf(ts[i], newsRow, w) == o then 1 else 0)
  {
    hide OutcomeOf, WithTurn;
    assert ts[..i + 1][..i] == ts[..i] && Last(ts[..i + 1]) == ts[i];
  }

  /** `after` differs from `before` only in rows of the date, each of which is legal. */
  ghost predicate OnlyLegalRowsOf(before: RecTable, after: RecTable, date: Date) {
    && (forall k: RecKey :: k.recDate != date ==>
          (k in after <==> k in before) && (k in before ==> after[k] == before[k]))
    && (forall k: RecKey :: k in after ==>
          (k in before && after[k] == before[k]) || (k.recDate == date && RowChecks(after[k].result)))
  }

  lemma OneLegalRow(before: RecTable, key: RecKey, row: RecRow)
    requires RowChecks(row.result)
    ensures OnlyLegalRowsOf(before, before[key := row], key.recDate)
  {
    hide RowChecks;
  }

  lemma NoNewRow(before: RecTable, date: Date)
    ensures OnlyLegalRowsOf(before, before, date)
  {
    hide RowChecks;
  }

  /** What writing the scored row does to the table. */
  lemma WrittenRow(before: RecTable, f: TickerFacts, date: Date, weights: Weights, horizon: int, methodology: string,
                   news: NewsEvidence)
    requires weights.NonNegative()
    ensures OnlyLegalRowsOf(before, before, date)
    ensures
      var r := ScoreFacts(f, news, weights);
      r.Returned? && r.value.Some? ==>
        && OnlyLegalRowsOf(before, before[RecKey(f.id, date) := RecRow(r.value.value, horizon, methodology)], date)
        && (forall m: Module :: m in r.value.value.missing <==> !Lens(f, news, m).Available())
  {
    hide ScoreFacts, RowChecks, RowMeaning, NothingScoreable, Lens, Lenses, OnlyLegalRowsOf;
    EveryWrittenRowIsLegal(f, news, weights);
    NoNewRow(before, date);
    var r := ScoreFacts(f, news, weights);
    if r.Returned? && r.value.Some? {
      OneLegalRow(before, RecKey(f.id, date), RecRow(r.value.value, horizon, methodology));
    }
  }

  class EngineRunStats {
    var tickersScored: nat
    var tickersSuppressed: nat
    var tickersSkipped: nat
    var tickersFailed: nat

    constructor ()
      ensures tickersScored == tickersSuppressed == tickersSkipped == tickersFailed == 0
    {
      tickersScored, tickersSuppressed, tickersSkipped, tickersFailed := 0, 0, 0, 0;
    }
  }

  class RecommendationStore {
    var rows: RecTable

    constructor ()
      ensures rows == map[]
    {
      rows := map[];
    }

    /** INSERT ... ON CONFLICT (ticker_id, rec_date) DO UPDATE. */
    method PersistRecommendation(tickerId: int, date: Date, result: EngineResult, horizon: int, methodology: string)
      modifies this
      ensures rows == old(rows)[RecKey(tickerId, date) := RecRow(result, horizon, methodology)]
    {
      rows := rows[RecKey(tickerId, date) := RecRow(result, horizon, methodology)];
    }

    /** `score_ticker`: a row it writes is the ticker's own for the date, legal, and names exactly
        the lenses that are down; nothing else in the table changes, and nothing at all when
        scoring raises or there is nothing to say. */
    method ScoreTicker(f: TickerFacts, date: Date, weights: Weights, horizon: int, methodology: string,
                       news: NewsEvidence)
      returns (r: Result<Option<EngineResult>>)
      modifies this
      ensures r == ScoreFacts(f, news, weights)
      ensures rows == if r.Returned? && r.value.Some?
                      then old(rows)[RecKey(f.id, date) := RecRow(r.value.value, horizon, methodology)]
                      else old(rows)
      ensures weights.NonNegative() ==> OnlyLegalRowsOf(old(rows), rows, date)
      ensures forall k: RecKey :: k != RecKey(f.id, date) ==>
        (k in rows <==> k in old(rows)) && (k in rows ==> rows[k] == old(rows)[k])
      ensures weights.NonNegative() && r.Returned? && r.value.Some? ==>
        && RecKey(f.id, date) in rows
        && (forall m: Module :: m in rows[RecKey(f.id, date)].result.missing <==> !Lens(f, news, m).Available())
    {
      hide ScoreFacts, Lens, OnlyLegalRowsOf;
      r := ScoreFacts(f, news, weights);
      if weights.NonNegative() { WrittenRow(rows, f, date, weights, horizon, methodology, news); }
      if r.Returned? && r.value.Some? {
        PersistRecommendation(f.id, date, r.value.value, horizon, methodology);
      }
    }

    /** One ticker's turn: whatever it raises is counted, never passed on. */
    method TakeTurn(t: Turn, newsRow: Option<RunRow>, date: Date, w: Weights, horizon: int, methodology: string,
                    stats: EngineRunStats)
      modifies this, stats
      ensures rows == WithTurn(old(rows), t, newsRow, date, w, horizon, methodology)
      ensures
        var o := OutcomeOf(t, newsRow, w);
        && stats.tickersFailed == old(stats.tickersFailed) + (if o == TurnFailed then 1 else 0)
        && stats.tickersSkipped == old(stats.tickersSkipped) + (if o == TurnSkipped then 1 else 0)
        && stats.tickersSuppressed == old(stats.tickersSuppressed) + (if o == TurnSuppressed then 1 else 0)
        && stats.tickersScored == old(stats.tickersScored) + (if o in {TurnScored, TurnSuppressed} then 1 else 0)
    {
      hide ScoreFacts;
      if t.ReadsFail? {
        stats.tickersFailed := stats.tickersFailed + 1;
        return;
      }
      var r := ScoreTicker(t.facts, date, w, horizon, methodology, NewsEvidence(None, newsRow));
      if r.Threw? {
        stats.tickersFailed := stats.tickersFailed + 1;
      } else if r.value.None? {
        stats.tickersSkipped := stats.tickersSkipped + 1;
      } else {
        if r.value.value.call == SUPPRESSED {
          stats.tickersSuppressed := stats.tickersSuppressed + 1;
        }
        stats.tickersScored := stats.tickersScored + 1;
      }
    }

    /** `run_engine`: per-ticker isolation over the covered tickers. */
    method RunEngine(turns: seq<Turn>, newsRow: Option<RunRow>, date: Date, config: Option<StoredConfig>,
                     methodology: string)
      returns (stats: EngineRunStats)
      modifies this
      ensures fresh(stats)
      ensures rows == WithTurns(old(rows), turns, newsRow, date, LoadWeights(config).0, LoadWeights(config).1,
                                methodology)
      ensures stats.tickersSkipped == CountOutcome(turns, newsRow, LoadWeights(config).0, TurnSkipped)
      ensures stats.tickersFailed == CountOutcome(turns, newsRow, LoadWeights(config).0, TurnFailed)
      ensures stats.tickersSuppressed == CountOutcome(turns, newsRow, LoadWeights(config).0, TurnSuppressed)
      ensures stats.tickersScored
        == stats.tickersSuppressed + CountOutcome(turns, newsRow, LoadWeights(config).0, TurnScored)
      ensures stats.tickersScored + stats.tickersSkipped + stats.tickersFailed == |turns|
    {
      hide OutcomeOf, WithTurn, LoadWeights;
      assert turns[..0] == [];
      stats := new EngineRunStats();
      var loaded := LoadWeights(config);
      var w, horizon := loaded.0, loaded.1;
      for i := 0 to |turns|
        invariant fresh(stats)
        invariant rows == WithTurns(old(rows), turns[..i], newsRow, date, w, horizon, methodology)
        invariant stats.tickersSkipped == CountOutcome(turns[..i], newsRow, w, TurnSkipped)
        invariant stats.tickersFailed == CountOutcome(turns[..i], newsRow, w, TurnFailed)
        invariant stats.tickersSuppressed == CountOutcome(turns[..i], newsRow, w, TurnSuppressed)
        invariant stats.tickersScored == stats.tickersSuppressed + CountOutcome(turns[..i], newsRow, w, TurnScored)
        invariant stats.tickersScored + stats.tickersSkipped + stats.tickersFailed == i
      {
        TurnStep(old(rows), turns, i, newsRow, date, w, horizon, methodology);
        TakeTurn(turns[i], newsRow, date, w, horizon, methodology, stats);
      }
      assert turns[..|turns|] == turns;
    }
  }

  lemma TurnHistory(before: RecTable, mid: RecTable, t: Turn, newsRow: Option<RunRow>, date: Date, w: Weights,
                    horizon: int, methodology: string)
    requires w.NonNegative() && OnlyLegalRowsOf(before, mid, date)
    ensures OnlyLegalRowsOf(before, WithTurn(mid, t, newsRow, date, w, horizon, methodology), date)
  {
    hide ScoreFacts, RowChecks, RowMeaning, NothingScoreable, Lens, Lenses;
    if t.HasFacts? { EveryWrittenRowIsLegal(t.facts, NewsEvidence(None, newsRow), w); }
  }

  /** History is immutable: a run only ever writes rows of its own date, and every row it
      leaves for that date is either untouched or legal. */
  lemma {:induction false} EngineRunHistory(rows: RecTable, ts: seq<Turn>, newsRow: Option<RunRow>, date: Date,
                                            w: Weights,
                                            horizon: int, methodology: string)
    requires w.NonNegative()
    ensures OnlyLegalRowsOf(rows, WithTurns(rows, ts, newsRow, date, w, horizon, methodology), date)
  {
    if ts != [] {
      hide WithTurn, OnlyLegalRowsOf;
      EngineRunHistory(rows, ts[..|ts| - 1], newsRow, date, w, horizon, methodology);
      TurnHistory(rows, WithTurns(rows, ts[..|ts| - 1], newsRow, date, w, horizon, methodology), Last(ts), newsRow,
                  date, w, horizon, methodology);
    }
  }
}
