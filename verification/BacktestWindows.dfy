/** How the windows, segments, history gate and blended return of the backtest behave, and
    that nothing dated after the exit is ever looked at. */
module BacktestWindows {
  import opened Prelude
  import opened Rounding
  import opened Calendar
  import opened PriceBars
  import opened Backtest
  import opened Recommendation
  import opened BacktestLaws

  // --- no look-ahead ------------------------------------------------------------------------

  lemma MarketQuote(rows: seq<BarRow>, ids: map<string, int>, asOf: Day, t: int, d: Day)
    requires d.AtMost(asOf)
    ensures QuoteIn(MarketAt(rows, ids, asOf).bars, t, d) == Quote(rows, t, d)
  {
    CutIsHarmless(rows, asOf, t, d);
  }

  lemma AgreeEarlier(rows: seq<BarRow>, rows': seq<BarRow>, d: Day, d': Day)
    requires AgreeUpTo(rows, rows', d) && d'.AtMost(d)
    ensures AgreeUpTo(rows, rows', d')
  {
    forall r: BarRow | r.date.AtMost(d') ensures r.date.AtMost(d) { OrderIsTransitive(r.date, d', d); }
  }

  lemma SameQuotes(rows: seq<BarRow>, rows': seq<BarRow>, ids: map<string, int>, asOf: Day, exitDate: Day, t: int,
                   d: Day)
    requires d.AtMost(exitDate) && exitDate.AtMost(asOf) && AgreeUpTo(rows, rows', exitDate)
    ensures QuoteIn(MarketAt(rows, ids, asOf).bars, t, d) == QuoteIn(MarketAt(rows', ids, asOf).bars, t, d)
  {
    hide Quote, QuoteIn, AgreeUpTo;
    OrderIsTransitive(d, exitDate, asOf);
    MarketQuote(rows, ids, asOf, t, d);
    MarketQuote(rows', ids, asOf, t, d);
    AgreeEarlier(rows, rows', exitDate, d);
    QuoteNoLookAhead(rows, rows', t, d);
  }

  /** The outcome of a recommendation depends only on bars dated on or before its exit date. */
  lemma OutcomeNoLookAhead(rec: Rec, rows: seq<BarRow>, rows': seq<BarRow>, ids: map<string, int>, asOf: Day)
    requires rec.horizonMonths >= 0
    requires AddMonths(rec.recDate, rec.horizonMonths).Returned? ==>
      AgreeUpTo(rows, rows', AddMonths(rec.recDate, rec.horizonMonths).value)
    ensures EvaluateOne(rec, MarketAt(rows, ids, asOf), asOf) == EvaluateOne(rec, MarketAt(rows', ids, asOf), asOf)
  {
    var m, m' := MarketAt(rows, ids, asOf), MarketAt(rows', ids, asOf);
    assert Shift(rec.recDate, 0) == rec.recDate;
    if AddMonths(rec.recDate, rec.horizonMonths).Returned? {
      ShiftMonotone(rec.recDate, rec.recDate, 0, rec.horizonMonths);
      hide Shift, QuoteIn, Judge, AgreeUpTo;
      var exitDate := AddMonths(rec.recDate, rec.horizonMonths).value;
      if exitDate.AtMost(asOf) {
        SameQuotes(rows, rows', ids, asOf, exitDate, rec.tickerId, rec.recDate);
        SameQuotes(rows, rows', ids, asOf, exitDate, rec.tickerId, exitDate);
        var b := BenchId(m, rec.symbol);
        if b.Some? {
          SameQuotes(rows, rows', ids, asOf, exitDate, b.value, rec.recDate);
          SameQuotes(rows, rows', ids, asOf, exitDate, b.value, exitDate);
        }
        assert ClosesOf(rec, m, exitDate) == ClosesOf(rec, m', exitDate);
      }
    }
  }

  /** Bar tables that agree up to asOf give identical backtests, whatever they hold later: the
      same recommendations raise, the same ones are evaluated alike and the counters are equal. */
  lemma {:induction false} BacktestNoLookAhead(recs: seq<Rec>, rows: seq<BarRow>, rows': seq<BarRow>,
                                               ids: map<string, int>, asOf: Day)
    requires AgreeUpTo(rows, rows', asOf) && forall i :: 0 <= i < |recs| ==> recs[i].horizonMonths >= 0
    ensures SomeRaises(recs, MarketAt(rows, ids, asOf), asOf) <==> SomeRaises(recs, MarketAt(rows', ids, asOf), asOf)
    ensures EvaluatedOf(recs, MarketAt(rows, ids, asOf), asOf) == EvaluatedOf(recs, MarketAt(rows', ids, asOf), asOf)
    ensures TallyOf(recs, MarketAt(rows, ids, asOf), asOf) == TallyOf(recs, MarketAt(rows', ids, asOf), asOf)
  {
    hide EvaluateOne, AgreeUpTo, MarketAt, CannotJudge;
    if recs != [] {
      var n := |recs| - 1;
      var m, m' := MarketAt(rows, ids, asOf), MarketAt(rows', ids, asOf);
      BacktestNoLookAhead(recs[..n], rows, rows', ids, asOf);
      FlatMapSnoc(Contribution(m, asOf), recs, n);
      FlatMapSnoc(Contribution(m', asOf), recs, n);
      assert recs[..n + 1] == recs;
      SameOutcome(recs[n], rows, rows', ids, asOf);
      RaisesExactly(recs[n], m, asOf);
      RaisesExactly(recs[n], m', asOf);
      RaisesSnoc(recs, m, asOf);
      RaisesSnoc(recs, m', asOf);
      hide SomeRaises;
    }
  }

  lemma RaisesSnoc(recs: seq<Rec>, m: Market, asOf: Day)
    requires recs != []
    ensures SomeRaises(recs, m, asOf) <==> SomeRaises(recs[..|recs| - 1], m, asOf) || CannotJudge(Last(recs), m, asOf)
  {
    hide CannotJudge;
    var n := |recs| - 1;
    if i :| 0 <= i < n && CannotJudge(recs[..n][i], m, asOf) { assert CannotJudge(recs[i], m, asOf); }
    if i :| 0 <= i < n && CannotJudge(recs[i], m, asOf) { assert CannotJudge(recs[..n][i], m, asOf); }
  }

  /** What a run writes is fixed by what it evaluates: with one table before, and bars that
      agree up to asOf, two runs leave the same table behind. */
  lemma SameRowsWritten(before: ResultTable, after: ResultTable, after': ResultTable, recs: seq<Rec>, rows: seq<BarRow>,
                        rows': seq<BarRow>, ids: map<string, int>, asOf: Day, insufficient: bool, methodology: string)
    requires AgreeUpTo(rows, rows', asOf) && forall i :: 0 <= i < |recs| ==> recs[i].horizonMonths >= 0
    requires RowsWritten(before, after, ALL_ROWS, EvaluatedOf(recs, MarketAt(rows, ids, asOf), asOf), asOf,
                         insufficient, methodology)
    requires RowsWritten(before, after', ALL_ROWS, EvaluatedOf(recs, MarketAt(rows', ids, asOf), asOf), asOf,
                         insufficient, methodology)
    ensures after == after'
  {
    hide EvaluatedOf, MarketAt, AgreeUpTo, GlobalSummary;
    BacktestNoLookAhead(recs, rows, rows', ids, asOf);
    var es := EvaluatedOf(recs, MarketAt(rows, ids, asOf), asOf);
    forall key: ResultKey ensures (key in after <==> key in after') && (key in after ==> after[key] == after'[key]) {
    }
    assert after.Keys == after'.Keys;
  }

  lemma SameOutcome(rec: Rec, rows: seq<BarRow>, rows': seq<BarRow>, ids: map<string, int>, asOf: Day)
    requires AgreeUpTo(rows, rows', asOf) && rec.horizonMonths >= 0
    ensures EvaluateOne(rec, MarketAt(rows, ids, asOf), asOf) == EvaluateOne(rec, MarketAt(rows', ids, asOf), asOf)
  {
    var exit := AddMonths(rec.recDate, rec.horizonMonths);
    if exit.Returned? && exit.value.AtMost(asOf) {
      AgreeEarlier(rows, rows', asOf, exit.value);
      OutcomeNoLookAhead(rec, rows, rows', ids, asOf);
    }
  }

  // --- the prices behind a judgement ------------------------------------------------------------

  /** What an evaluated recommendation was judged by: a and b are the latest closes of its stock on
      or before its date and its exit date, c and d those of the benchmark of its market. The
      excess is the stock's return over the benchmark's, counted up for buys and down for sells. */
  lemma EvaluatedPrices(rec: Rec, rows: seq<BarRow>, ids: map<string, int>, asOf: Day)
    returns (exitDate: Day, bench: int, a: real, b: real, c: real, d: real)
    requires rec.recDate.AtMost(asOf)
    requires EvaluateOne(rec, MarketAt(rows, ids, asOf), asOf).Evaluated?
    ensures AddMonths(rec.recDate, rec.horizonMonths) == Returned(exitDate) && exitDate.AtMost(asOf)
    ensures
      var n := |rec.symbol|;
      var taiwan := (n >= 3 && rec.symbol[n - 3..] == ".TW") || (n >= 4 && rec.symbol[n - 4..] == ".TWO");
      var index := if taiwan then "^TWII" else "^GSPC";
      index in ids && ids[index] == bench
    ensures IsLatestClose(rows, rec.tickerId, rec.recDate, Some(a))
      && IsLatestClose(rows, rec.tickerId, exitDate, Some(b))
    ensures IsLatestClose(rows, bench, rec.recDate, Some(c)) && IsLatestClose(rows, bench, exitDate, Some(d))
    ensures a > 0.0 && c > 0.0
    ensures
      var excess := (b - a) / a * 100.0 - (d - c) / c * 100.0;
      EvaluateOne(rec, MarketAt(rows, ids, asOf), asOf).e.signedDeltaPp
      == if rec.call in {Some(Call.BUY), Some(Call.STRONG_BUY)} then excess else -excess
  {
    hide Shift, IsLatestClose, Loaded, BarsUpTo, QuoteIn, Quote;
    var m := MarketAt(rows, ids, asOf);
    exitDate := AddMonths(rec.recDate, rec.horizonMonths).value;
    bench := m.ids[BenchmarkFor(rec.symbol)];
    a, b := QuoteIn(m.bars, rec.tickerId, rec.recDate).value, QuoteIn(m.bars, rec.tickerId, exitDate).value;
    c, d := QuoteIn(m.bars, bench, rec.recDate).value, QuoteIn(m.bars, bench, exitDate).value;
    LatestInMarket(rows, ids, asOf, rec.tickerId, rec.recDate);
    LatestInMarket(rows, ids, asOf, rec.tickerId, exitDate);
    LatestInMarket(rows, ids, asOf, bench, rec.recDate);
    LatestInMarket(rows, ids, asOf, bench, exitDate);
  }

  lemma LatestInMarket(rows: seq<BarRow>, ids: map<string, int>, asOf: Day, t: int, d: Day)
    requires d.AtMost(asOf)
    ensures IsLatestClose(rows, t, d, QuoteIn(MarketAt(rows, ids, asOf).bars, t, d))
  {
    MarketQuote(rows, ids, asOf, t, d);
    QuoteIsLatest(rows, t, d);
    hide IsLatestClose, QuoteIn, Quote;
  }

  /** The three ways a recommendation drops out, from its fields and the closes before asOf. */
  lemma DropsExactly(rec: Rec, rows: seq<BarRow>, ids: map<string, int>, asOf: Day)
    requires rec.recDate.AtMost(asOf)
    ensures
      var o := EvaluateOne(rec, MarketAt(rows, ids, asOf), asOf);
      var skipped := rec.call in {Some(Call.HOLD), Some(Call.SUPPRESSED)};
      var exit := AddMonths(rec.recDate, rec.horizonMonths);
      && (o == Excluded <==> skipped)
      && (o == Immature <==> !skipped && exit.Returned? && !exit.value.AtMost(asOf))
      && (o == Unpriced
          <==> !skipped && exit.Returned? && exit.value.AtMost(asOf) && !Priced4(rec, rows, ids, exit.value))
  {
    hide Shift, Loaded, BarsUpTo, QuoteIn, Quote, DaysIn;
    var exit := AddMonths(rec.recDate, rec.horizonMonths);
    if exit.Returned? && exit.value.AtMost(asOf) {
      var m := MarketAt(rows, ids, asOf);
      MarketQuote(rows, ids, asOf, rec.tickerId, rec.recDate);
      MarketQuote(rows, ids, asOf, rec.tickerId, exit.value);
      if BenchmarkFor(rec.symbol) in ids {
        var bench := ids[BenchmarkFor(rec.symbol)];
        MarketQuote(rows, ids, asOf, bench, rec.recDate);
        MarketQuote(rows, ids, asOf, bench, exit.value);
      }
    }
  }

  /** All four closes are there, and both entry closes are positive. */
  predicate Priced4(rec: Rec, rows: seq<BarRow>, ids: map<string, int>, exitDate: Day) {
    && BenchmarkFor(rec.symbol) in ids
    && Quote(rows, rec.tickerId, rec.recDate).Some? && Quote(rows, rec.tickerId, rec.recDate).value > 0.0
    && Quote(rows, rec.tickerId, exitDate).Some?
    && var bench := ids[BenchmarkFor(rec.symbol)];
       && Quote(rows, bench, rec.recDate).Some? && Quote(rows, bench, rec.recDate).value > 0.0
       && Quote(rows, bench, exitDate).Some?
  }

  // --- the history gate ---------------------------------------------------------------------------

  lemma {:induction false} EarliestIsFirst(history: seq<Rec>)
    ensures Earliest(history).None? <==> history == []
    ensures history != [] ==> exists i :: 0 <= i < |history| && history[i].recDate == Earliest(history).value
    ensures forall i :: 0 <= i < |history| ==> Earliest(history).value.AtMost(history[i].recDate)
  {
    hide DaysIn;
    if history != [] {
      EarliestIsFirst(history[1..]);
      if history[1..] != [] {
        var first := Earliest(history[1..]).value;
        OrderIsTotal(history[0].recDate, first);
        var k :| 0 <= k < |history[1..]| && history[1..][k].recDate == first;
        assert history[k + 1].recDate == first;
        forall i | 0 <= i < |history| ensures Earliest(history).value.AtMost(history[i].recDate) {
          if i > 0 {
            assert first.AtMost(history[1..][i - 1].recDate);
            OrderIsTransitive(Earliest(history).value, first, history[i].recDate);
          }
        }
      } else {
        OrderIsTotal(history[0].recDate, history[0].recDate);
        assert history == [history[0]];
      }
    }
  }

  /** The gate nulls the headline numbers exactly when no recommendation, of any ticker, is at
      least twelve months old. */
  lemma GateExactly(history: seq<Rec>, asOf: Day)
    requires HistoryInsufficient(Earliest(history), asOf).Returned?
    ensures HistoryInsufficient(Earliest(history), asOf).value
       <==> forall i :: 0 <= i < |history| ==> !Shift(history[i].recDate, 12).AtMost(asOf)
  {
    EarliestIsFirst(history);
    hide Shift, Earliest, DaysIn;
    if history != [] {
      var first := Earliest(history).value;
      forall i | 0 <= i < |history| && Shift(history[i].recDate, 12).AtMost(asOf)
        ensures Shift(first, 12).AtMost(asOf)
      {
        ShiftMonotone(first, history[i].recDate, 12, 12);
        OrderIsTransitive(Shift(first, 12), Shift(history[i].recDate, 12), asOf);
      }
    }
  }

  // --- windows and segments -------------------------------------------------------------------

  function Inside(start: Day, es: seq<EvaluatedRec>): nat {
    if es == [] then 0 else (if start.AtMost(es[0].recDate) then 1 else 0) + Inside(start, es[1..])
  }

  /** The two segments split each window, and a window that starts earlier is no smaller in
      either segment. */
  lemma {:induction false} SegmentsPartition(es: seq<EvaluatedRec>, start: Day, earlier: Day, s: Segment)
    requires earlier.AtMost(start)
    ensures |WindowSegment(es, start, Full)| + |WindowSegment(es, start, Partial)| == Inside(start, es)
    ensures |WindowSegment(es, start, s)| <= |WindowSegment(es, earlier, s)|
  {
    if es != [] {
      SegmentsPartition(es[1..], start, earlier, s);
      if start.AtMost(es[0].recDate) { OrderIsTransitive(earlier, start, es[0].recDate); }
    }
  }

  lemma {:induction false} WindowMembers(es: seq<EvaluatedRec>, start: Day, s: Segment)
    ensures forall e :: e in WindowSegment(es, start, s) <==> e in es && start.AtMost(e.recDate) && e.segment == s
  {
    if es != [] {
      WindowMembers(es[1..], start, s);
      assert es == [es[0]] + es[1..];
    }
  }

  /** A window shorter than the horizon can hold no evaluated recommendation: when every
      recommendation has a horizon longer than the window, both rows read (None, None, 0). */
  lemma ShortWindowIsEmpty(recs: seq<Rec>, m: Market, asOf: Day, window: int, s: Segment, insufficient: bool)
    requires AddMonths(asOf, -WIDEST).Returned? && 0 <= window <= WIDEST
    requires forall i :: 0 <= i < |recs| ==> recs[i].horizonMonths > window
    ensures GlobalSummary(EvaluatedOf(recs, m, asOf), asOf, window, s, insufficient) == Summary(None, None, 0)
  {
    var es, start := EvaluatedOf(recs, m, asOf), WindowStart(asOf, window);
    EvaluatedOfMembers(recs, m, asOf);
    WindowMembers(es, start, s);
    if WindowSegment(es, start, s) != [] {
      var e := WindowSegment(es, start, s)[0];
      assert e in WindowSegment(es, start, s);
      var i :| 0 <= i < |recs| && EvaluateOne(recs[i], m, asOf) == Evaluated(e);
      MaturedInTime(recs[i], m, asOf);
      EvaluatedMeans(recs[i], m, asOf);
      WindowStartFine(asOf, window);
      ShortWindowNeverMatures(recs[i].recDate, asOf, window, recs[i].horizonMonths);
    }
  }

  lemma MaturedInTime(rec: Rec, m: Market, asOf: Day)
    requires EvaluateOne(rec, m, asOf).Evaluated?
    ensures Shift(rec.recDate, rec.horizonMonths).AtMost(asOf)
  {
  }

  // --- the numbers -----------------------------------------------------------------------------

  lemma {:induction false} CorrectAtMostAll(es: seq<EvaluatedRec>)
    ensures CorrectCount(es) <= |es|
  {
    if es != [] { CorrectAtMostAll(es[1..]); }
  }

  lemma RatioInRange(c: nat, n: nat)
    requires c <= n && n > 0
    ensures 0.0 <= Q4(c as real / n as real) <= 1.0
    ensures c == n ==> Q4(c as real / n as real) == 1.0
    ensures c == 0 ==> Q4(c as real / n as real) == 0.0
  {
    QuotientBounds(c as real, n as real, 0.0, 1.0);
    Q4IsMonotone(0.0, c as real / n as real);
    Q4IsMonotone(c as real / n as real, 1.0);
    if c == n { QuotientUnique(1.0, n as real, c as real); }
  }

  /** The gate nulls both numbers and never the sample size; an accuracy is a fraction of 1. */
  lemma SummaryShape(es: seq<EvaluatedRec>, insufficient: bool)
    ensures
      var s := SummarizeSegment(es, insufficient);
      && s.sampleSize == |es|
      && (s.rollingAccuracy.None? <==> insufficient || es == [])
      && (s.estimatedReturn.None? <==> insufficient || es == [])
      && (s.rollingAccuracy.Some? ==> 0.0 <= s.rollingAccuracy.value <= 1.0)
      && (s.rollingAccuracy.Some? ==>
            && Abs(s.rollingAccuracy.value - (CorrectCount(es) as real) / (|es| as real)) <= 0.00005
            && Abs(s.estimatedReturn.value - DeltaSum(es) / (|es| as real)) <= 0.00005)
  {
    if es != [] {
      CorrectAtMostAll(es);
      RatioInRange(CorrectCount(es), |es|);
      Q4Error((CorrectCount(es) as real) / (|es| as real));
      Q4Error(DeltaSum(es) / (|es| as real));
      hide Q4, CorrectCount, DeltaSum;
    }
  }

  lemma {:induction false} ExcessBounds(es: seq<EvaluatedRec>)
    requires WellJudged(es)
    ensures CorrectCount(es) <= |es|
    ensures CorrectCount(es) == |es| ==> DeltaSum(es) >= 2.0 * (|es| as real)
    ensures CorrectCount(es) == 0 ==> DeltaSum(es) <= 2.0 * (|es| as real)
  {
    if es != [] { ExcessBounds(es[1..]); }
  }

  /** A segment whose calls were all correct reports at least 2.0000, one whose calls were
      all wrong at most 2.0000: the two published numbers cannot contradict each other. */
  lemma AccuracyAndReturnAgree(es: seq<EvaluatedRec>)
    requires WellJudged(es) && es != []
    ensures CorrectCount(es) == |es| ==>
        MeanDelta(es) >= 2.0 && SummarizeSegment(es, false).rollingAccuracy == Some(1.0)
    ensures CorrectCount(es) == 0 ==> MeanDelta(es) <= 2.0 && SummarizeSegment(es, false).rollingAccuracy == Some(0.0)
  {
    ExcessBounds(es);
    RatioInRange(CorrectCount(es), |es|);
    RoundedMean(DeltaSum(es), |es| as real);
    hide Q4;
  }

  /** No published row contradicts itself, whatever the window, segment and prices. */
  lemma PublishedRowAgrees(recs: seq<Rec>, m: Market, asOf: Day, window: int, s: Segment)
    ensures
      var row := GlobalSummary(EvaluatedOf(recs, m, asOf), asOf, window, s, false);
      var es := WindowSegment(EvaluatedOf(recs, m, asOf), WindowStart(asOf, window), s);
      row.sampleSize > 0 ==>
        && (CorrectCount(es) == |es| ==> row.rollingAccuracy == Some(1.0) && row.estimatedReturn.value >= 2.0)
        && (CorrectCount(es) == 0 ==> row.rollingAccuracy == Some(0.0) && row.estimatedReturn.value <= 2.0)
  {
    var all, start := EvaluatedOf(recs, m, asOf), WindowStart(asOf, window);
    var es := WindowSegment(all, start, s);
    EngineIsWellJudged(recs, m, asOf);
    WindowMembers(all, start, s);
    forall i | 0 <= i < |es| ensures es[i].correct <==> es[i].signedDeltaPp > THRESHOLD_PP {
      assert es[i] in all;
    }
    if es != [] { AccuracyAndReturnAgree(es); }
    hide EvaluatedOf, WindowSegment, MeanDelta, CorrectCount;
  }

  lemma RoundedMean(d: real, n: real)
    requires n > 0.0
    ensures d >= 2.0 * n ==> Q4(d / n) >= 2.0
    ensures d <= 2.0 * n ==> Q4(d / n) <= 2.0
  {
    assert d / n * n == d;
    Cancel(2.0, d / n, n);
    Cancel(d / n, 2.0, n);
    hide Q4;
    if d >= 2.0 * n { Q4IsMonotone(2.0, d / n); }
    if d <= 2.0 * n { Q4IsMonotone(d / n, 2.0); }
    Q4OfTwo();
  }

  lemma Q4OfTwo()
    ensures Q4(2.0) == 2.0
  {
  }

  lemma {:induction false} SplitSums(es: seq<EvaluatedRec>, start: Day)
    requires forall i :: 0 <= i < |es| ==> start.AtMost(es[i].recDate)
    ensures |WindowSegment(es, start, Full)| + |WindowSegment(es, start, Partial)| == |es|
    ensures DeltaSum(WindowSegment(es, start, Full)) + DeltaSum(WindowSegment(es, start, Partial)) == DeltaSum(es)
  {
    if es != [] {
      SplitSums(es[1..], start);
      var other := if es[0].segment == Full then Partial else Full;
      assert WindowSegment(es, start, es[0].segment) == [es[0]] + WindowSegment(es[1..], start, es[0].segment);
      assert WindowSegment(es, start, other) == WindowSegment(es[1..], start, other);
    }
  }

  function MeanOrZero(es: seq<EvaluatedRec>): real { if es == [] then 0.0 else MeanDelta(es) }

  /** Published mean times sample size. */
  function Weighted(es: seq<EvaluatedRec>): real { (|es| as real) * MeanOrZero(es) }

  lemma WeightedIs(es: seq<EvaluatedRec>)
    ensures es == [] ==> Weighted(es) == 0.0 && DeltaSum(es) == 0.0
    ensures es != [] ==> Weighted(es) == (|es| as real) * Q4(DeltaSum(es) / (|es| as real))
  {
    hide Q4;
  }

  lemma ScaledRounding(es: seq<EvaluatedRec>)
    ensures Abs(Weighted(es) - DeltaSum(es)) <= 0.00005 * (|es| as real)
  {
    hide DeltaSum, Q4, Weighted;
    WeightedIs(es);
    if es != [] { RoundedTimes(|es| as real, DeltaSum(es)); }
  }

  lemma RoundedTimes(n: real, d: real)
    requires n > 0.0
    ensures Abs(n * Q4(d / n) - d) <= 0.00005 * n
  {
    var q := d / n;
    assert q * n == d;
    Q4Error(q);
    hide Q4;
    ErrorTimes(n, Q4(q), q);
  }

  lemma ErrorTimes(n: real, r: real, q: real)
    requires n > 0.0 && Abs(r - q) <= 0.00005
    ensures Abs(n * r - q * n) <= 0.00005 * n
  {
    var d := r - q;
    var p := n * d;
    assert p == n * r - q * n by { Distribute(n, q, d); assert q + d == r; }
    assert p <= 0.00005 * n by { Cancel(d, 0.00005, n); }
    assert p >= -0.00005 * n by { Cancel(-0.00005, d, n); }
  }

  lemma BlendedOf(es: seq<EvaluatedRec>, start: Day)
    requires forall i :: 0 <= i < |es| ==> start.AtMost(es[i].recDate)
    ensures
      var full, partial := WindowSegment(es, start, Full), WindowSegment(es, start, Partial);
      && |full| + |partial| == |es|
      && Abs(Weighted(es) - (Weighted(full) + Weighted(partial))) <= (|es| as real) * 0.0001
  {
    SplitSums(es, start);
    hide WindowSegment, Weighted, DeltaSum;
    var full, partial := WindowSegment(es, start, Full), WindowSegment(es, start, Partial);
    ScaledRounding(es);
    ScaledRounding(full);
    ScaledRounding(partial);
    AddErrors(Weighted(es), Weighted(full), Weighted(partial), DeltaSum(es), DeltaSum(full), DeltaSum(partial),
              |full|, |partial|);
  }

  /** The endpoint's blended return times n differs from the segment-weighted sum of the
      table's returns by at most n * 0.0001. */
  lemma BlendedReturn(history: seq<Rec>, m: Market, asOf: Day, window: int, ticker: int)
    requires AddMonths(asOf, -window).Returned?
    ensures
      var es := TickerEvaluated(history, m, asOf, window, ticker);
      var full, partial := WindowSegment(es, WindowStart(asOf, window), Full),
          WindowSegment(es, WindowStart(asOf, window), Partial);
      && |full| + |partial| == |es|
      && Abs(Weighted(es) - (Weighted(full) + Weighted(partial))) <= (|es| as real) * 0.0001
  {
    TickerRecsInWindow(history, m, asOf, window, ticker);
    hide TickerEvaluated, WindowSegment, Weighted;
    BlendedOf(TickerEvaluated(history, m, asOf, window, ticker), WindowStart(asOf, window));
  }

  lemma AddErrors(a: real, b: real, c: real, a': real, b': real, c': real, i: nat, j: nat)
    requires a' == b' + c' && Abs(a - a') <= 0.00005 * ((i + j) as real)
    requires Abs(b - b') <= 0.00005 * (i as real) && Abs(c - c') <= 0.00005 * (j as real)
    ensures Abs(a - (b + c)) <= ((i + j) as real) * 0.0001
  {
  }

  lemma {:induction false} SelectedDates(history: seq<Rec>, from: Day, to: Day, t: int)
    ensures forall r :: r in SelectRecsForTicker(history, from, to, t) ==> from.AtMost(r.recDate)
  {
    if history != [] { SelectedDates(history[1..], from, to, t); }
  }

  lemma TickerRecsInWindow(history: seq<Rec>, m: Market, asOf: Day, window: int, ticker: int)
    ensures
      var es := TickerEvaluated(history, m, asOf, window, ticker);
      forall i :: 0 <= i < |es| ==> WindowStart(asOf, window).AtMost(es[i].recDate)
  {
    hide EvaluateOne;
    var es, start := TickerEvaluated(history, m, asOf, window, ticker), WindowStart(asOf, window);
    var recs := SelectRecsForTicker(history, start, asOf, ticker);
    SelectedDates(history, start, asOf, ticker);
    EvaluatedOfMembers(recs, m, asOf);
    forall i | 0 <= i < |es| ensures start.AtMost(es[i].recDate) {
      assert es[i] in es;
      var k :| 0 <= k < |recs| && EvaluateOne(recs[k], m, asOf) == Evaluated(es[i]);
      EvaluatedMeans(recs[k], m, asOf);
      assert recs[k] in recs;
    }
  }
}
