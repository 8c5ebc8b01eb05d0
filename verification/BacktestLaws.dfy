/** What the backtest promises: the nightly and the per-ticker route agree, no bar after
    the exit date matters, windows behave, and the counters add up. */
module BacktestLaws {
  import opened Prelude
  import opened Calendar
  import opened PriceBars
  import opened Backtest
  import opened Recommendation

  // --- one evaluated recommendation -------------------------------------------------------

  /** An evaluated recommendation keeps its date and segment, and it is correct exactly when
      its signed excess is above the threshold. */
  lemma EvaluatedMeans(rec: Rec, m: Market, asOf: Day)
    requires EvaluateOne(rec, m, asOf).Evaluated?
    ensures
      var e := EvaluateOne(rec, m, asOf).e;
      && e.recDate == rec.recDate
      && (e.segment == Full <==> rec.completeness == Some(1.0))
      && e.segment == SegmentFor(rec.completeness)
      && (e.correct <==> e.signedDeltaPp > 2.0)
  {
    hide QuoteIn, ReturnPct;
    var exitDate := AddMonths(rec.recDate, rec.horizonMonths).value;
    var c := ClosesOf(rec, m, exitDate);
    hide Closes.DeltaPp, ClosesOf;
  }

  lemma {:induction false} EvaluatedOfMembers(recs: seq<Rec>, m: Market, asOf: Day)
    ensures forall e :: e in EvaluatedOf(recs, m, asOf) ==>
      exists i :: 0 <= i < |recs| && EvaluateOne(recs[i], m, asOf) == Evaluated(e)
  {
    hide EvaluateOne;
    if recs != [] {
      EvaluatedOfMembers(recs[1..], m, asOf);
      forall e | e in EvaluatedOf(recs, m, asOf)
        ensures exists i :: 0 <= i < |recs| && EvaluateOne(recs[i], m, asOf) == Evaluated(e)
      {
        if e in Contribution(m, asOf)(recs[0]) {
          assert EvaluateOne(recs[0], m, asOf) == Evaluated(e);
        } else {
          assert e in EvaluatedOf(recs[1..], m, asOf);
          var i :| 0 <= i < |recs[1..]| && EvaluateOne(recs[1..][i], m, asOf) == Evaluated(e);
          assert recs[i + 1] == recs[1..][i];
        }
      }
    }
  }

  // --- the judgement of one recommendation -----------------------------------------------------

  function ScaledClose(a: real, v: Option<real>): Option<real> {
    if v.None? then None else Some(Lin(a, 0.0, v.value))
  }

  /** The same four closes with the stock quoted in units of 1/a and the benchmark of 1/b. */
  function Requoted(a: real, b: real, c: Closes): Closes {
    Closes(ScaledClose(a, c.entry), ScaledClose(a, c.exit), ScaledClose(b, c.benchEntry), ScaledClose(b, c.benchExit))
  }

  lemma ReturnScaled(a: real, entry: real, exit: real)
    requires a > 0.0 && entry > 0.0
    ensures Lin(a, 0.0, entry) > 0.0
    ensures ReturnPct(Lin(a, 0.0, entry), Lin(a, 0.0, exit)) == ReturnPct(entry, exit)
  {
    Cancel(0.0, entry, a);
    LinOrder(a, 0.0, entry, 0.0);
    var q := (exit - entry) / entry;
    assert q * entry == exit - entry;
    assert q * (a * entry) == a * (q * entry);
    assert a * exit - a * entry == a * (exit - entry);
    QuotientUnique(q, a * entry, a * exit - a * entry);
  }

  /** No judgement depends on the currency or unit the stock or its benchmark is quoted in. */
  lemma JudgeUnitFree(rec: Rec, c: Closes, a: real, b: real)
    requires a > 0.0 && b > 0.0
    ensures Judge(rec, Requoted(a, b, c)) == Judge(rec, c)
  {
    if c.entry.Some? { LinOrder(a, 0.0, c.entry.value, 0.0); }
    if c.benchEntry.Some? { LinOrder(b, 0.0, c.benchEntry.value, 0.0); }
    if c.Usable() {
      ReturnScaled(a, c.entry.value, c.exit.value);
      ReturnScaled(b, c.benchEntry.value, c.benchExit.value);
    }
    hide Lin, ReturnPct;
  }

  /** A buy and a sell of the same stock on the same day have opposite excesses and are
      never both correct. */
  lemma OppositeCalls(rec: Rec, buy: Call, sell: Call, c: Closes)
    requires buy in {BUY, STRONG_BUY} && sell in {SELL, STRONG_SELL} && c.Usable()
    ensures
      var b, s := Judge(rec.(call := Some(buy)), c), Judge(rec.(call := Some(sell)), c);
      && b.Evaluated? && s.Evaluated?
      && s.e.signedDeltaPp == -b.e.signedDeltaPp
      && !(b.e.correct && s.e.correct)
  {
    hide ReturnPct;
  }

  lemma ReturnIncreases(entry: real, exit: real, exit': real)
    requires entry > 0.0 && exit <= exit'
    ensures ReturnPct(entry, exit) <= ReturnPct(entry, exit')
  {
    var q, q' := (exit - entry) / entry, (exit' - entry) / entry;
    assert q * entry == exit - entry && q' * entry == exit' - entry;
    Cancel(q, q', entry);
  }

  /** A higher exit close of the stock, or a lower one of the benchmark, never turns a correct
      buy into a wrong one. */
  lemma HigherExitHelpsBuys(rec: Rec, c: Closes, c': Closes)
    requires IsBuy(rec.call) && c.Usable() && c'.Usable()
    requires c'.entry == c.entry && c'.benchEntry == c.benchEntry
    requires c.exit.value <= c'.exit.value && c'.benchExit.value <= c.benchExit.value
    ensures
      var r, r' := Judge(rec, c), Judge(rec, c');
      && r.Evaluated? && r'.Evaluated?
      && r.e.signedDeltaPp <= r'.e.signedDeltaPp
      && (r.e.correct ==> r'.e.correct)
  {
    ReturnIncreases(c.entry.value, c.exit.value, c'.exit.value);
    ReturnIncreases(c.benchEntry.value, c'.benchExit.value, c.benchExit.value);
    hide ReturnPct;
  }

  predicate WellJudged(es: seq<EvaluatedRec>) {
    forall i :: 0 <= i < |es| ==> (es[i].correct <==> es[i].signedDeltaPp > THRESHOLD_PP)
  }

  /** Every list of evaluated recommendations the engine builds is well judged. */
  lemma EngineIsWellJudged(recs: seq<Rec>, m: Market, asOf: Day)
    ensures WellJudged(EvaluatedOf(recs, m, asOf))
  {
    hide EvaluateOne;
    var es := EvaluatedOf(recs, m, asOf);
    EvaluatedOfMembers(recs, m, asOf);
    forall i | 0 <= i < |es| ensures es[i].correct <==> es[i].signedDeltaPp > THRESHOLD_PP {
      assert es[i] in es;
      var k :| 0 <= k < |recs| && EvaluateOne(recs[k], m, asOf) == Evaluated(es[i]);
      EvaluatedMeans(recs[k], m, asOf);
    }
  }

  // --- accounting ---------------------------------------------------------------------------

  /** No recommendation is lost: each one seen is excluded, immature, unpriced or evaluated. */
  lemma {:induction false} Accounting(recs: seq<Rec>, m: Market, asOf: Day)
    requires !SomeRaises(recs, m, asOf)
    ensures
      var t := TallyOf(recs, m, asOf);
      t.seen == |recs| == t.excluded + t.immature + t.unpriced + t.evaluated
      && t.evaluated == |EvaluatedOf(recs, m, asOf)|
  {
    hide EvaluateOne, CannotJudge;
    if recs != [] {
      var n := |recs| - 1;
      forall i | 0 <= i < n ensures !CannotJudge(recs[..n][i], m, asOf) {
        assert recs[..n][i] == recs[i];
      }
      Accounting(recs[..n], m, asOf);
      FlatMapSnoc(Contribution(m, asOf), recs, n);
      assert recs[..n + 1] == recs;
      RaisesExactly(recs[n], m, asOf);
    }
  }

  /** The recommendations that ended as o. */
  ghost function EndedAs(recs: seq<Rec>, m: Market, asOf: Day, o: RecOutcome): set<nat> {
    set i: nat | i < |recs| && EvaluateOne(recs[i], m, asOf) == o
  }

  lemma EndedSnoc(recs: seq<Rec>, m: Market, asOf: Day, o: RecOutcome)
    requires recs != []
    ensures
      var n := |recs| - 1;
      |EndedAs(recs, m, asOf, o)|
      == |EndedAs(recs[..n], m, asOf, o)| + if EvaluateOne(recs[n], m, asOf) == o then 1 else 0
  {
    hide EvaluateOne;
    var n := |recs| - 1;
    assert EndedAs(recs, m, asOf, o)
        == EndedAs(recs[..n], m, asOf, o) + if EvaluateOne(recs[n], m, asOf) == o then {n} else {};
    assert n !in EndedAs(recs[..n], m, asOf, o);
  }

  lemma NobodyEnded(m: Market, asOf: Day, o: RecOutcome)
    ensures EndedAs([], m, asOf, o) == {}
  {
  }

  /** Each counter counts the recommendations that ended its way. */
  lemma {:induction false} CountersMean(recs: seq<Rec>, m: Market, asOf: Day)
    ensures
      var t := TallyOf(recs, m, asOf);
      && t.excluded == |EndedAs(recs, m, asOf, Excluded)|
      && t.immature == |EndedAs(recs, m, asOf, Immature)|
      && t.unpriced == |EndedAs(recs, m, asOf, Unpriced)|
  {
    if recs == [] {
      NobodyEnded(m, asOf, Excluded);
      NobodyEnded(m, asOf, Immature);
      NobodyEnded(m, asOf, Unpriced);
    } else {
      hide EvaluateOne, EndedAs;
      CountersMean(recs[..|recs| - 1], m, asOf);
      EndedSnoc(recs, m, asOf, Excluded);
      EndedSnoc(recs, m, asOf, Immature);
      EndedSnoc(recs, m, asOf, Unpriced);
    }
  }

  // --- sums over evaluated recommendations ----------------------------------------------------

  /** Any additive figure of a list: its size, its correct count, its summed excess. */
  function SumOf(g: EvaluatedRec -> real, es: seq<EvaluatedRec>): real {
    if es == [] then 0.0 else g(es[0]) + SumOf(g, es[1..])
  }

  lemma {:induction false} SumOfAppend(g: EvaluatedRec -> real, xs: seq<EvaluatedRec>, ys: seq<EvaluatedRec>)
    ensures SumOf(g, xs + ys) == SumOf(g, xs) + SumOf(g, ys)
  {
    if xs == [] {
      assert xs + ys == ys;
    } else {
      assert (xs + ys)[1..] == xs[1..] + ys;
      SumOfAppend(g, xs[1..], ys);
    }
  }

  lemma {:induction false} SumOfPermuted(g: EvaluatedRec -> real, xs: seq<EvaluatedRec>, ys: seq<EvaluatedRec>)
    requires multiset(xs) == multiset(ys)
    ensures SumOf(g, xs) == SumOf(g, ys)
    decreases |xs|
  {
    SameLength(xs, ys);
    if xs != [] {
      var k := HeadElsewhere(xs, ys);
      SumOfPermuted(g, xs[1..], Without(ys, k));
      SumOfAppend(g, ys[..k], ys[k + 1..]);
      SumOfAppend(g, ys[..k], ys[k..]);
      assert ys[..k] + ys[k..] == ys && ys[k..][1..] == ys[k + 1..];
    }
  }

  function One(): EvaluatedRec -> real { (e: EvaluatedRec) => 1.0 }

  function IsCorrect(): EvaluatedRec -> real { (e: EvaluatedRec) => if e.correct then 1.0 else 0.0 }

  function Excess(): EvaluatedRec -> real { (e: EvaluatedRec) => e.signedDeltaPp }

  lemma {:induction false} FiguresAreSums(es: seq<EvaluatedRec>)
    ensures SumOf(One(), es) == |es| as real
    ensures SumOf(IsCorrect(), es) == CorrectCount(es) as real
    ensures SumOf(Excess(), es) == DeltaSum(es)
  {
    if es != [] { FiguresAreSums(es[1..]); }
  }

  // --- the two routes agree -----------------------------------------------------------------------

  /** What one recommendation adds to the figure g of a window and segment. */
  function Share(g: EvaluatedRec -> real, rec: Rec, m: Market, asOf: Day, start: Day, s: Segment): real {
    match EvaluateOne(rec, m, asOf)
    case Evaluated(e) => if start.AtMost(rec.recDate) && rec.recDate.AtMost(asOf) && e.segment == s then g(e) else 0.0
    case _ => 0.0
  }

  function Shares(g: EvaluatedRec -> real, history: seq<Rec>, m: Market, asOf: Day, start: Day, s: Segment): real {
    if history == [] then 0.0
    else Share(g, history[0], m, asOf, start, s) + Shares(g, history[1..], m, asOf, start, s)
  }

  function TickerShares(g: EvaluatedRec -> real, history: seq<Rec>, m: Market, asOf: Day, start: Day, s: Segment,
                        t: int): real {
    if history == [] then 0.0
    else (if history[0].tickerId == t then Share(g, history[0], m, asOf, start, s) else 0.0)
         + TickerShares(g, history[1..], m, asOf, start, s, t)
  }

  /** Select, evaluate, window: the figure of what one recommendation leaves behind. */
  lemma ShareOfOne(g: EvaluatedRec -> real, rec: Rec, m: Market, asOf: Day, start: Day, s: Segment)
    requires rec.recDate.AtMost(asOf)
    ensures SumOf(g, WindowSegment(EvaluatedOf([rec], m, asOf), start, s)) == Share(g, rec, m, asOf, start, s)
  {
    hide EvaluateOne, SegmentFor;
    FlatMapOne(Contribution(m, asOf), rec);
    if EvaluateOne(rec, m, asOf).Evaluated? {
      EvaluatedMeans(rec, m, asOf);
      var e := EvaluateOne(rec, m, asOf).e;
      FlatMapOne(InSegment(start, s), e);
      assert SumOf(g, [e]) == g(e);
    }
  }

  lemma WindowAppend(g: EvaluatedRec -> real, xs: seq<Rec>, ys: seq<Rec>, m: Market, asOf: Day, start: Day, s: Segment)
    ensures SumOf(g, WindowSegment(EvaluatedOf(xs + ys, m, asOf), start, s))
         == SumOf(g, WindowSegment(EvaluatedOf(xs, m, asOf), start, s))
           + SumOf(g, WindowSegment(EvaluatedOf(ys, m, asOf), start, s))
  {
    var a, b := EvaluatedOf(xs, m, asOf), EvaluatedOf(ys, m, asOf);
    FlatMapAppend(Contribution(m, asOf), xs, ys);
    FlatMapAppend(InSegment(start, s), a, b);
    SumOfAppend(g, WindowSegment(a, start, s), WindowSegment(b, start, s));
  }

  /** The nightly figure is the sum of all shares: the 12-month cut of the query drops
      nothing a smaller window needs. */
  lemma {:induction false} NightlyFigure(g: EvaluatedRec -> real, history: seq<Rec>, m: Market, from: Day, start: Day,
                                         asOf: Day, s: Segment)
    requires from.AtMost(start)
    ensures SumOf(g, WindowSegment(EvaluatedOf(SelectRecs(history, from, asOf), m, asOf), start, s))
         == Shares(g, history, m, asOf, start, s)
  {
    hide EvaluateOne;
    if history != [] {
      NightlyFigure(g, history[1..], m, from, start, asOf, s);
      var r := history[0];
      WindowAppend(g, InDates(from, asOf)(r), SelectRecs(history[1..], from, asOf), m, asOf, start, s);
      if r.recDate.AtMost(asOf) {
        ShareOfOne(g, r, m, asOf, start, s);
        if start.AtMost(r.recDate) { OrderIsTransitive(from, start, r.recDate); }
      }
      assert SumOf(g, WindowSegment(EvaluatedOf([], m, asOf), start, s)) == 0.0;
    }
  }

  lemma {:induction false} TickerFigure(g: EvaluatedRec -> real, history: seq<Rec>, m: Market, start: Day, asOf: Day,
                                        s: Segment, t: int)
    ensures SumOf(g, WindowSegment(EvaluatedOf(SelectRecsForTicker(history, start, asOf, t), m, asOf), start, s))
         == TickerShares(g, history, m, asOf, start, s, t)
  {
    hide EvaluateOne;
    if history != [] {
      TickerFigure(g, history[1..], m, start, asOf, s, t);
      var r := history[0];
      WindowAppend(g, OfTicker(start, asOf, t)(r), SelectRecsForTicker(history[1..], start, asOf, t), m, asOf, start,
                   s);
      if r.recDate.AtMost(asOf) { ShareOfOne(g, r, m, asOf, start, s); }
      assert SumOf(g, WindowSegment(EvaluatedOf([], m, asOf), start, s)) == 0.0;
    }
  }

  function SumTickers(ids: seq<int>, f: int -> real): real {
    if ids == [] then 0.0 else f(ids[0]) + SumTickers(ids[1..], f)
  }

  function SharesBy(g: EvaluatedRec -> real, history: seq<Rec>, m: Market, asOf: Day, start: Day,
                    s: Segment): int -> real {
    (t: int) => TickerShares(g, history, m, asOf, start, s, t)
  }

  /** Adding one recommendation moves the total over tickers by its share exactly once. */
  lemma {:induction false} OneTickerTakesIt(g: EvaluatedRec -> real, history: seq<Rec>, m: Market, asOf: Day,
                                            start: Day, s: Segment, ids: seq<int>)
    requires history != [] && Distinct(ids)
    ensures SumTickers(ids, SharesBy(g, history, m, asOf, start, s))
         == SumTickers(ids, SharesBy(g, history[1..], m, asOf, start, s))
            + if history[0].tickerId in ids then Share(g, history[0], m, asOf, start, s) else 0.0
  {
    hide Share;
    if ids != [] {
      OneTickerTakesIt(g, history, m, asOf, start, s, ids[1..]);
      assert ids == [ids[0]] + ids[1..];
      assert ids[0] !in ids[1..];
    }
  }

  lemma {:induction false} NothingToShare(g: EvaluatedRec -> real, m: Market, asOf: Day, start: Day, s: Segment,
                                          ids: seq<int>)
    ensures SumTickers(ids, SharesBy(g, [], m, asOf, start, s)) == 0.0
  {
    if ids != [] { NothingToShare(g, m, asOf, start, s, ids[1..]); }
  }

  lemma {:induction false} SharesPartition(g: EvaluatedRec -> real, history: seq<Rec>, m: Market, asOf: Day,
                                           start: Day, s: Segment, ids: seq<int>)
    requires Distinct(ids) && forall i :: 0 <= i < |history| ==> history[i].tickerId in ids
    ensures SumTickers(ids, SharesBy(g, history, m, asOf, start, s)) == Shares(g, history, m, asOf, start, s)
  {
    hide Share;
    if history == [] {
      NothingToShare(g, m, asOf, start, s, ids);
    } else {
      SharesPartition(g, history[1..], m, asOf, start, s, ids);
      OneTickerTakesIt(g, history, m, asOf, start, s, ids);
    }
  }

  function TickerFigures(g: EvaluatedRec -> real, history: seq<Rec>, m: Market, asOf: Day, window: int,
                         s: Segment): int -> real {
    (t: int) => SumOf(g, WindowSegment(TickerEvaluated(history, m, asOf, window, t), WindowStart(asOf, window), s))
  }

  lemma {:induction false} SameSums(ids: seq<int>, f: int -> real, h: int -> real)
    requires forall t: int :: f(t) == h(t)
    ensures SumTickers(ids, f) == SumTickers(ids, h)
  {
    if ids != [] { SameSums(ids[1..], f, h); }
  }

  lemma WindowsNest(asOf: Day, window: int)
    requires AddMonths(asOf, -WIDEST).Returned? && 0 <= window <= WIDEST
    ensures WindowStart(asOf, WIDEST).AtMost(WindowStart(asOf, window))
  {
    ShiftMonotone(asOf, asOf, -WIDEST, -window);
    hide Shift;
  }

  /** Evaluate-then-window equals window-then-evaluate. For every window of at most twelve
      months, every segment and every additive figure g, the nightly global figure is the sum
      over the tickers of the figure of the per-ticker route. */
  lemma RoutesAgree(g: EvaluatedRec -> real, history: seq<Rec>, m: Market, asOf: Day, window: int, s: Segment,
                    ids: seq<int>)
    requires AddMonths(asOf, -WIDEST).Returned? && 0 <= window <= WIDEST
    requires Distinct(ids) && forall i :: 0 <= i < |history| ==> history[i].tickerId in ids
    ensures SumOf(g, WindowSegment(EvaluatedOf(SelectRecs(history, WindowStart(asOf, WIDEST), asOf), m, asOf),
                                   WindowStart(asOf, window), s))
         == SumTickers(ids, TickerFigures(g, history, m, asOf, window, s))
  {
    var start := WindowStart(asOf, window);
    WindowsNest(asOf, window);
    NightlyFigure(g, history, m, WindowStart(asOf, WIDEST), start, asOf, s);
    SharesPartition(g, history, m, asOf, start, s, ids);
    forall t: int ensures TickerFigures(g, history, m, asOf, window, s)(t)
      == SharesBy(g, history, m, asOf, start, s)(t) {
      TickerFigure(g, history, m, start, asOf, s, t);
    }
    SameSums(ids, TickerFigures(g, history, m, asOf, window, s), SharesBy(g, history, m, asOf, start, s));
  }

  /** In particular the sample and the number of correct calls behind each nightly row. */
  lemma NightlyRowIsTickerSum(history: seq<Rec>, m: Market, asOf: Day, window: int, s: Segment, ids: seq<int>)
    requires AddMonths(asOf, -WIDEST).Returned? && window in WINDOWS
    requires Distinct(ids) && forall i :: 0 <= i < |history| ==> history[i].tickerId in ids
    ensures
      var es := WindowSegment(EvaluatedOf(SelectRecs(history, WindowStart(asOf, WIDEST), asOf), m, asOf),
                              WindowStart(asOf, window), s);
      && |es| as real == SumTickers(ids, TickerFigures(One(), history, m, asOf, window, s))
      && CorrectCount(es) as real == SumTickers(ids, TickerFigures(IsCorrect(), history, m, asOf, window, s))
      && DeltaSum(es) == SumTickers(ids, TickerFigures(Excess(), history, m, asOf, window, s))
      && forall gated: bool ::
           GlobalSummary(EvaluatedOf(SelectRecs(history, WindowStart(asOf, WIDEST), asOf), m, asOf), asOf, window, s,
                         gated)
           == SummarizeSegment(es, gated)
  {
    var es := WindowSegment(EvaluatedOf(SelectRecs(history, WindowStart(asOf, WIDEST), asOf), m, asOf),
                            WindowStart(asOf, window), s);
    FiguresAreSums(es);
    RoutesAgree(One(), history, m, asOf, window, s, ids);
    RoutesAgree(IsCorrect(), history, m, asOf, window, s, ids);
    RoutesAgree(Excess(), history, m, asOf, window, s, ids);
  }

  /** The order in which the database returns the rows does not matter to any figure. */
  lemma FetchOrderFree(g: EvaluatedRec -> real, recs: seq<Rec>, recs': seq<Rec>, m: Market, asOf: Day, start: Day,
                       s: Segment)
    requires multiset(recs) == multiset(recs')
    ensures SumOf(g, WindowSegment(EvaluatedOf(recs, m, asOf), start, s))
      == SumOf(g, WindowSegment(EvaluatedOf(recs', m, asOf), start, s))
  {
    FlatMapPermuted(Contribution(m, asOf), recs, recs');
    FlatMapPermuted(InSegment(start, s), EvaluatedOf(recs, m, asOf), EvaluatedOf(recs', m, asOf));
    SumOfPermuted(g, WindowSegment(EvaluatedOf(recs, m, asOf), start, s),
                  WindowSegment(EvaluatedOf(recs', m, asOf), start, s));
  }
}
