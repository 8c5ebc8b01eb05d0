/** Backtest engine: which recommendations count, whether they were right, and the
    window-by-segment summaries, nightly and per ticker. */
module Backtest {
  import opened Prelude
  import opened Rounding
  import opened Calendar
  import opened PriceBars
  import opened Recommendation

  const WINDOWS: seq<int> := [3, 6, 12]
  const WIDEST := 12
  const THRESHOLD_PP := 2.0
  const MIN_HISTORY_MONTHS := 12

  datatype Segment = Full | Partial

  const SEGMENTS: seq<Segment> := [Full, Partial]

  /** One stored recommendation joined with its ticker. `call` is None for a text that is
      none of the known calls. */
  datatype Rec = Rec(tickerId: int, recDate: Day, call: Option<Call>, horizonMonths: int,
                     completeness: Option<real>, symbol: string)

  datatype EvaluatedRec = EvaluatedRec(recDate: Day, segment: Segment, correct: bool, signedDeltaPp: real)

  function EndsWith(s: string, suffix: string): bool {
    |suffix| <= |s| && s[|s| - |suffix|..] == suffix
  }

  function BenchmarkFor(symbol: string): string {
    if EndsWith(symbol, ".TW") || EndsWith(symbol, ".TWO") then "^TWII" else "^GSPC"
  }

  function SegmentFor(completeness: Option<real>): Segment {
    if completeness == Some(1.0) then Full else Partial
  }

  predicate IsExcluded(call: Option<Call>) { call in {Some(HOLD), Some(SUPPRESSED)} }

  predicate IsBuy(call: Option<Call>) { call in {Some(BUY), Some(STRONG_BUY)} }

  /** Strict on both sides; an unknown call raises. */
  function EvaluateCall(call: Option<Call>, deltaPp: real): Result<Option<bool>> {
    if IsExcluded(call) then Returned(None)
    else if IsBuy(call) then Returned(Some(deltaPp > THRESHOLD_PP))
    else if call in {Some(SELL), Some(STRONG_SELL)} then Returned(Some(deltaPp < -THRESHOLD_PP))
    else Threw(ValueError)
  }

  function HistoryInsufficient(earliest: Option<Day>, asOf: Day): Result<bool> {
    if earliest.None? then Returned(true)
    else
      match AddMonths(earliest.value, MIN_HISTORY_MONTHS)
      case Threw(e) => Threw(e)
      case Returned(d) => Returned(!d.AtMost(asOf))
  }

  // --- one recommendation -----------------------------------------------------------------

  datatype RecOutcome = Excluded | Immature | Unpriced | Evaluated(e: EvaluatedRec) | Raises

  function ReturnPct(entry: real, exit: real): real
    requires entry > 0.0
  {
    (exit - entry) / entry * 100.0
  }

  /** The loaded bars and the symbol index one run works with. */
  datatype Market = Market(bars: Bars, ids: map<string, int>)

  /** What a run at asOf sees: bars up to asOf and no further. */
  function MarketAt(rows: seq<BarRow>, ids: map<string, int>, asOf: Day): Market {
    Market(Loaded(BarsUpTo(rows, asOf)), ids)
  }

  function QuoteFor(m: Market, id: Option<int>, d: Day): Option<real> {
    if id.None? then None else QuoteIn(m.bars, id.value, d)
  }

  function BenchId(m: Market, symbol: string): Option<int> {
    if BenchmarkFor(symbol) in m.ids then Some(m.ids[BenchmarkFor(symbol)]) else None
  }

  /** The four closes a recommendation is judged by. */
  datatype Closes = Closes(entry: Option<real>, exit: Option<real>, benchEntry: Option<real>, benchExit: Option<real>) {
    predicate Usable() {
      entry.Some? && exit.Some? && benchEntry.Some? && benchExit.Some? && entry.value > 0.0 && benchEntry.value > 0.0
    }

    function DeltaPp(): real
      requires Usable()
    {
      ReturnPct(entry.value, exit.value) - ReturnPct(benchEntry.value, benchExit.value)
    }
  }

  function ClosesOf(rec: Rec, m: Market, exitDate: Day): Closes {
    Closes(QuoteIn(m.bars, rec.tickerId, rec.recDate), QuoteIn(m.bars, rec.tickerId, exitDate),
           QuoteFor(m, BenchId(m, rec.symbol), rec.recDate), QuoteFor(m, BenchId(m, rec.symbol), exitDate))
  }

  function Judge(rec: Rec, c: Closes): RecOutcome {
    if !c.Usable() then Unpriced
    else
      match EvaluateCall(rec.call, c.DeltaPp())
      case Threw(_) => Raises
      case Returned(correct) =>
        var sign := if IsBuy(rec.call) then 1.0 else -1.0;
        Evaluated(EvaluatedRec(rec.recDate, SegmentFor(rec.completeness), correct == Some(true), sign * c.DeltaPp()))
  }

  function EvaluateOne(rec: Rec, m: Market, asOf: Day): RecOutcome {
    if IsExcluded(rec.call) then Excluded
    else
      match AddMonths(rec.recDate, rec.horizonMonths)
      case Threw(_) => Raises
      case Returned(exitDate) =>
        if !exitDate.AtMost(asOf) then Immature else Judge(rec, ClosesOf(rec, m, exitDate))
  }

  /** The evaluated recommendation a rec contributes, if any. */
  function Contribution(m: Market, asOf: Day): Rec -> seq<EvaluatedRec> {
    (rec: Rec) => match EvaluateOne(rec, m, asOf) case Evaluated(e) => [e] case _ => []
  }

  function EvaluatedOf(recs: seq<Rec>, m: Market, asOf: Day): seq<EvaluatedRec> {
    FlatMap(Contribution(m, asOf), recs)
  }

  /** A recommendation that is not excluded and either ends outside the calendar, or is mature
      and priced and carries no known call. */
  predicate CannotJudge(rec: Rec, m: Market, asOf: Day) {
    && !IsExcluded(rec.call)
    && match AddMonths(rec.recDate, rec.horizonMonths)
       case Threw(_) => true
       case Returned(exitDate) => exitDate.AtMost(asOf) && ClosesOf(rec, m, exitDate).Usable() && rec.call.None?
  }

  lemma RaisesExactly(rec: Rec, m: Market, asOf: Day)
    ensures EvaluateOne(rec, m, asOf) == Raises <==> CannotJudge(rec, m, asOf)
  {
    hide ClosesOf, ReturnPct, Shift;
    forall d: real ensures EvaluateCall(rec.call, d).Threw? <==> rec.call.None? {
      match rec.call {
        case None =>
        case Some(c) =>
          match c case STRONG_SELL => case SELL => case HOLD => case BUY => case STRONG_BUY => case SUPPRESSED =>
      }
    }
  }

  predicate SomeRaises(recs: seq<Rec>, m: Market, asOf: Day) {
    exists i :: 0 <= i < |recs| && CannotJudge(recs[i], m, asOf)
  }

  datatype Tally = Tally(seen: nat, excluded: nat, immature: nat, unpriced: nat, evaluated: nat) {
    function Count(o: RecOutcome): Tally {
      match o
      case Excluded => this.(seen := seen + 1, excluded := excluded + 1)
      case Immature => this.(seen := seen + 1, immature := immature + 1)
      case Unpriced => this.(seen := seen + 1, unpriced := unpriced + 1)
      case Evaluated(_) => this.(seen := seen + 1, evaluated := evaluated + 1)
      case Raises => this.(seen := seen + 1)
    }
  }

  function TallyOf(recs: seq<Rec>, m: Market, asOf: Day): Tally {
    if recs == [] then Tally(0, 0, 0, 0, 0)
    else TallyOf(recs[..|recs| - 1], m, asOf).Count(EvaluateOne(Last(recs), m, asOf))
  }

  class BacktestRunStats {
    var recsSeen: nat
    var recsEvaluated: nat
    var recsExcluded: nat
    var recsImmature: nat
    var recsUnpriced: nat
    var rowsUpserted: nat
    var insufficientHistory: bool

    constructor ()
      ensures Counts() == Tally(0, 0, 0, 0, 0) && rowsUpserted == 0 && insufficientHistory
    {
      recsSeen, recsEvaluated, recsExcluded, recsImmature, recsUnpriced := 0, 0, 0, 0, 0;
      rowsUpserted, insufficientHistory := 0, true;
    }

    function Counts(): Tally
      reads this
    {
      Tally(recsSeen, recsExcluded, recsImmature, recsUnpriced, recsEvaluated)
    }
  }

  lemma FlatMapSnoc<A, B>(f: A -> seq<B>, xs: seq<A>, i: nat)
    requires i < |xs|
    ensures FlatMap(f, xs[..i + 1]) == FlatMap(f, xs[..i]) + f(xs[i])
  {
    assert xs[..i + 1] == xs[..i] + [xs[i]];
    FlatMapAppend(f, xs[..i], [xs[i]]);
    assert FlatMap(f, [xs[i]]) == f(xs[i]);
  }

  /** `_evaluate_recs`: raises at the first recommendation that raises; otherwise every rec
      ends in exactly one counter. */
  method EvaluateRecs(recs: seq<Rec>, m: Market, asOf: Day, stats: BacktestRunStats)
    returns (r: Result<seq<EvaluatedRec>>)
    requires stats.Counts() == Tally(0, 0, 0, 0, 0)
    modifies stats
    ensures r.Threw? <==> SomeRaises(recs, m, asOf)
    ensures r.Returned? ==> r.value == EvaluatedOf(recs, m, asOf) && stats.Counts() == TallyOf(recs, m, asOf)
    ensures stats.rowsUpserted == old(stats.rowsUpserted) && stats.insufficientHistory == old(stats.insufficientHistory)
  {
    hide EvaluateOne, CannotJudge;
    var evaluated: seq<EvaluatedRec> := [];
    for i := 0 to |recs|
      invariant evaluated == EvaluatedOf(recs[..i], m, asOf)
      invariant stats.Counts() == TallyOf(recs[..i], m, asOf)
      invariant forall j :: 0 <= j < i ==> !CannotJudge(recs[j], m, asOf)
      invariant stats.rowsUpserted == old(stats.rowsUpserted)
        && stats.insufficientHistory == old(stats.insufficientHistory)
    {
      FlatMapSnoc(Contribution(m, asOf), recs, i);
      assert recs[..i + 1][..i] == recs[..i] && Last(recs[..i + 1]) == recs[i];
      RaisesExactly(recs[i], m, asOf);
      stats.recsSeen := stats.recsSeen + 1;
      match EvaluateOne(recs[i], m, asOf) {
        case Excluded => stats.recsExcluded := stats.recsExcluded + 1;
        case Immature => stats.recsImmature := stats.recsImmature + 1;
        case Unpriced => stats.recsUnpriced := stats.recsUnpriced + 1;
        case Evaluated(e) =>
          evaluated := evaluated + [e];
          stats.recsEvaluated := stats.recsEvaluated + 1;
        case Raises => return Threw(ValueError);
      }
    }
    assert recs[..|recs|] == recs;
    return Returned(evaluated);
  }

  // --- summaries ------------------------------------------------------------------------------

  function InSegment(start: Day, segment: Segment): EvaluatedRec -> seq<EvaluatedRec> {
    (e: EvaluatedRec) => if start.AtMost(e.recDate) && e.segment == segment then [e] else []
  }

  function WindowSegment(evaluated: seq<EvaluatedRec>, start: Day, segment: Segment): seq<EvaluatedRec> {
    FlatMap(InSegment(start, segment), evaluated)
  }

  function CorrectCount(es: seq<EvaluatedRec>): nat {
    if es == [] then 0 else (if es[0].correct then 1 else 0) + CorrectCount(es[1..])
  }

  function DeltaSum(es: seq<EvaluatedRec>): real {
    if es == [] then 0.0 else es[0].signedDeltaPp + DeltaSum(es[1..])
  }

  datatype Summary = Summary(rollingAccuracy: Option<real>, estimatedReturn: Option<real>, sampleSize: nat)

  function MeanDelta(es: seq<EvaluatedRec>): real
    requires es != []
  {
    Q4(DeltaSum(es) / (|es| as real))
  }

  function SummarizeSegment(es: seq<EvaluatedRec>, insufficient: bool): Summary {
    if insufficient || es == [] then Summary(None, None, |es|)
    else Summary(Some(Q4(CorrectCount(es) as real / |es| as real)), Some(MeanDelta(es)), |es|)
  }

  // --- the nightly run ---------------------------------------------------------------------------

  function InDates(from: Day, to: Day): Rec -> seq<Rec> {
    (r: Rec) => if from.AtMost(r.recDate) && r.recDate.AtMost(to) then [r] else []
  }

  /** WHERE rec_date >= from AND rec_date <= to. */
  function SelectRecs(history: seq<Rec>, from: Day, to: Day): seq<Rec> { FlatMap(InDates(from, to), history) }

  function OfTicker(from: Day, to: Day, ticker: int): Rec -> seq<Rec> {
    (r: Rec) => if from.AtMost(r.recDate) && r.recDate.AtMost(to) && r.tickerId == ticker then [r] else []
  }

  function SelectRecsForTicker(history: seq<Rec>, from: Day, to: Day, ticker: int): seq<Rec> {
    FlatMap(OfTicker(from, to, ticker), history)
  }

  function Earlier(a: Day, b: Day): Day { if a.AtMost(b) then a else b }

  /** SELECT min(rec_date). */
  function Earliest(history: seq<Rec>): Option<Day> {
    if history == [] then None
    else
      match Earliest(history[1..])
      case None => Some(history[0].recDate)
      case Some(d) => Some(Earlier(history[0].recDate, d))
  }

  /** UNIQUE (as_of_date, window_months, completeness_segment, methodology_version). */
  datatype ResultKey = ResultKey(asOf: Day, window: int, segment: Segment, methodology: string)

  type ResultTable = map<ResultKey, Summary>

  function WindowStart(asOf: Day, window: int): Day {
    match AddMonths(asOf, -window)
    case Returned(d) => d
    case Threw(_) => asOf
  }

  function GlobalSummary(evaluated: seq<EvaluatedRec>, asOf: Day, window: int, segment: Segment,
                         insufficient: bool): Summary {
    SummarizeSegment(WindowSegment(evaluated, WindowStart(asOf, window), segment), insufficient)
  }

  /** Does any date the nightly run computes fall outside the calendar? */
  predicate DatesOverflow(history: seq<Rec>, asOf: Day) {
    AddMonths(asOf, -WIDEST).Threw? || HistoryInsufficient(Earliest(history), asOf).Threw?
  }

  lemma WindowStartFine(asOf: Day, window: int)
    requires AddMonths(asOf, -WIDEST).Returned? && 0 <= window <= WIDEST
    ensures AddMonths(asOf, -window) == Returned(WindowStart(asOf, window))
  {
  }

  /** Exactly the rows of asOf and methodology named in `done` hold their summaries; every
      other row is as before. */
  ghost predicate RowsWritten(before: ResultTable, after: ResultTable, done: set<(int, Segment)>,
                              evaluated: seq<EvaluatedRec>,
                              asOf: Day, insufficient: bool, methodology: string) {
    forall key: ResultKey ::
      if key.asOf == asOf && key.methodology == methodology && (key.window, key.segment) in done
      then key in after && after[key] == GlobalSummary(evaluated, asOf, key.window, key.segment, insufficient)
      else (key in after <==> key in before) && (key in after ==> after[key] == before[key])
  }

  lemma NoRowsYet(before: ResultTable, evaluated: seq<EvaluatedRec>, asOf: Day, insufficient: bool, methodology: string)
    ensures RowsWritten(before, before, {}, evaluated, asOf, insufficient, methodology)
  {
  }

  lemma OneMoreRow(before: ResultTable, after: ResultTable, done: set<(int, Segment)>, evaluated: seq<EvaluatedRec>,
                   asOf: Day, insufficient: bool, methodology: string, w: int, s: Segment)
    requires RowsWritten(before, after, done, evaluated, asOf, insufficient, methodology)
    ensures RowsWritten(before,
                        after[ResultKey(asOf, w, s, methodology) := GlobalSummary(evaluated, asOf, w, s, insufficient)],
                        done + {(w, s)}, evaluated, asOf, insufficient, methodology)
  {
    hide GlobalSummary;
  }

  const ALL_ROWS: set<(int, Segment)> := {(3, Full), (3, Partial), (6, Full), (6, Partial), (12, Full), (12, Partial)}

  function RowsDone(i: nat, j: nat): set<(int, Segment)>
    requires i <= |WINDOWS| && j <= |SEGMENTS| && (j > 0 ==> i < |WINDOWS|)
    decreases i, j
  {
    if j > 0 then RowsDone(i, j - 1) + {(WINDOWS[i], SEGMENTS[j - 1])}
    else if i > 0 then RowsDone(i - 1, |SEGMENTS|)
    else {}
  }

  lemma AllRowsDone()
    ensures RowsDone(|WINDOWS|, 0) == ALL_ROWS
  {
    assert RowsDone(0, 2) == {(3, Full), (3, Partial)};
    assert RowsDone(1, 2) == {(3, Full), (3, Partial), (6, Full), (6, Partial)};
  }

  class BacktestStore {
    var results: ResultTable

    constructor ()
      ensures results == map[]
    {
      results := map[];
    }

    /** INSERT ... ON CONFLICT DO UPDATE. */
    method Upsert(key: ResultKey, s: Summary)
      modifies this
      ensures results == old(results)[key := s]
    {
      results := results[key := s];
    }

    /** The window-by-segment loop of `run_backtest`. */
    method WriteRows(evaluated: seq<EvaluatedRec>, asOf: Day, methodology: string, stats: BacktestRunStats)
      requires AddMonths(asOf, -WIDEST).Returned?
      requires stats.rowsUpserted == 0
      modifies this, stats`rowsUpserted
      ensures RowsWritten(old(results), results, ALL_ROWS, evaluated, asOf, stats.insufficientHistory, methodology)
      ensures stats.rowsUpserted == 6
    {
      hide SummarizeSegment, WindowSegment, WindowStart, RowsWritten, AddMonths;
      NoRowsYet(results, evaluated, asOf, stats.insufficientHistory, methodology);
      for i := 0 to |WINDOWS|
        invariant stats.rowsUpserted == 2 * i
        invariant RowsWritten(old(results), results, RowsDone(i, 0), evaluated, asOf, stats.insufficientHistory,
                              methodology)
      {
        WindowStartFine(asOf, WINDOWS[i]);
        for j := 0 to |SEGMENTS|
          invariant stats.rowsUpserted == 2 * i + j
          invariant RowsWritten(old(results), results, RowsDone(i, j), evaluated, asOf, stats.insufficientHistory,
                                methodology)
        {
          var start := AddMonths(asOf, -WINDOWS[i]).value;
          var summary := SummarizeSegment(WindowSegment(evaluated, start, SEGMENTS[j]), stats.insufficientHistory);
          OneMoreRow(old(results), results, RowsDone(i, j), evaluated, asOf, stats.insufficientHistory, methodology,
                     WINDOWS[i], SEGMENTS[j]);
          Upsert(ResultKey(asOf, WINDOWS[i], SEGMENTS[j], methodology), summary);
          stats.rowsUpserted := stats.rowsUpserted + 1;
        }
      }
      AllRowsDone();
    }

    /** `run_backtest`. Bars are loaded up to asOf and no further. */
    method RunBacktest(history: seq<Rec>, barRows: seq<BarRow>, ids: map<string, int>, asOf: Day, methodology: string)
      returns (r: Result<BacktestRunStats>)
      modifies this
      ensures r.Threw? <==>
        (history != []
         && (DatesOverflow(history, asOf)
             || SomeRaises(SelectRecs(history, WindowStart(asOf, WIDEST), asOf), MarketAt(barRows, ids, asOf), asOf)))
      ensures r.Threw? || history == [] ==> results == old(results)
      ensures r.Returned? ==> fresh(r.value) && r.value.rowsUpserted == (if history == [] then 0 else 6)
      ensures r.Returned? && history != [] ==>
        var recs := SelectRecs(history, WindowStart(asOf, WIDEST), asOf);
        var m := MarketAt(barRows, ids, asOf);
        var insufficient := HistoryInsufficient(Earliest(history), asOf).value;
        && r.value.insufficientHistory == insufficient
        && r.value.Counts() == TallyOf(recs, m, asOf)
        && RowsWritten(old(results), results, ALL_ROWS, EvaluatedOf(recs, m, asOf), asOf, insufficient, methodology)
    {
      hide SomeRaises, TallyOf, EvaluatedOf, SelectRecs, HistoryInsufficient, RowsWritten, Loaded, BarsUpTo;
      var stats := new BacktestRunStats();
      var earliest := Earliest(history);
      if earliest.None? { return Returned(stats); }
      var gate := HistoryInsufficient(earliest, asOf);
      if gate.Threw? { return Threw(ValueError); }
      stats.insufficientHistory := gate.value;
      var from := AddMonths(asOf, -WIDEST);
      if from.Threw? { return Threw(ValueError); }
      var recs := SelectRecs(history, from.value, asOf);
      var bars := LoadBars(BarsUpTo(barRows, asOf));
      var m := Market(bars, ids);
      var outcome := EvaluateRecs(recs, m, asOf, stats);
      if outcome.Threw? { return Threw(ValueError); }
      var evaluated := outcome.value;
      WriteRows(evaluated, asOf, methodology, stats);
      return Returned(stats);
    }
  }

  // --- the ticker endpoint --------------------------------------------------------------------------

  datatype TickerBacktest = TickerBacktest(full: Option<Summary>, partial: Option<Summary>,
                                           estimatedReturn: Option<real>, insufficient: bool)

  function TickerEvaluated(history: seq<Rec>, m: Market, asOf: Day, window: int, ticker: int): seq<EvaluatedRec> {
    EvaluatedOf(SelectRecsForTicker(history, WindowStart(asOf, window), asOf, ticker), m, asOf)
  }

  function TickerSummary(history: seq<Rec>, m: Market, asOf: Day, window: int, ticker: int, s: Segment,
                         insufficient: bool): Summary {
    SummarizeSegment(WindowSegment(TickerEvaluated(history, m, asOf, window, ticker), WindowStart(asOf, window), s),
                     insufficient)
  }

  method ComputeTickerBacktest(history: seq<Rec>, barRows: seq<BarRow>, ids: map<string, int>, asOf: Day, window: int,
                               ticker: int)
    returns (r: Result<TickerBacktest>)
    ensures r.Threw? <==>
      (Earliest(history).Some?
       && (HistoryInsufficient(Earliest(history), asOf).Threw?
           || AddMonths(asOf, -window).Threw?
           || SomeRaises(SelectRecsForTicker(history, WindowStart(asOf, window), asOf, ticker),
                         MarketAt(barRows, ids, asOf), asOf)))
    ensures r.Returned? && Earliest(history).Some? ==>
      var m := MarketAt(barRows, ids, asOf);
      var recs := SelectRecsForTicker(history, WindowStart(asOf, window), asOf, ticker);
      var es := EvaluatedOf(recs, m, asOf);
      var gate := HistoryInsufficient(Earliest(history), asOf).value;
      && r.value.insufficient == gate
      && (recs == [] ==> r.value.full.None? && r.value.partial.None? && r.value.estimatedReturn.None?)
      && (recs != [] ==>
           && r.value.full == Some(TickerSummary(history, m, asOf, window, ticker, Full, gate))
           && r.value.partial == Some(TickerSummary(history, m, asOf, window, ticker, Partial, gate))
           && r.value.estimatedReturn == (if es != [] && !gate then Some(MeanDelta(es)) else None))
    ensures Earliest(history).None? ==> r == Returned(TickerBacktest(None, None, None, true))
  {
    hide EvaluatedOf, SelectRecsForTicker, SummarizeSegment, WindowSegment, MeanDelta;
    var earliest := Earliest(history);
    var gate := HistoryInsufficient(earliest, asOf);
    if gate.Threw? { return Threw(ValueError); }
    if earliest.None? { return Returned(TickerBacktest(None, None, None, gate.value)); }
    var start := AddMonths(asOf, -window);
    if start.Threw? { return Threw(ValueError); }
    var recs := SelectRecsForTicker(history, start.value, asOf, ticker);
    if recs == [] { return Returned(TickerBacktest(None, None, None, gate.value)); }
    var bars := LoadBars(BarsUpTo(barRows, asOf));
    var m := Market(bars, ids);
    var stats := new BacktestRunStats();
    var outcome := EvaluateRecs(recs, m, asOf, stats);
    if outcome.Threw? { return Threw(ValueError); }
    var full := SummarizeSegment(WindowSegment(outcome.value, start.value, Full), gate.value);
    var partial := SummarizeSegment(WindowSegment(outcome.value, start.value, Partial), gate.value);
    var estimated := None;
    if outcome.value != [] && !gate.value { estimated := Some(MeanDelta(outcome.value)); }
    return Returned(TickerBacktest(Some(full), Some(partial), estimated, gate.value));
  }
}
