/** Price bars: the table rows, the per-ticker sorted series, and the lookup of the latest
    close on or before a date. */
module PriceBars {
  import opened Prelude
  import opened Calendar

  datatype BarRow = BarRow(tickerId: int, date: Day, close: Option<real>)

  /** WHERE bar_date <= asOf. */
  function BarsUpTo(rows: seq<BarRow>, asOf: Day): seq<BarRow> {
    if rows == [] then []
    else BarsUpTo(rows[..|rows| - 1], asOf) + if Last(rows).date.AtMost(asOf) then [Last(rows)] else []
  }

  datatype Bar = Bar(date: Day, close: real)

  /** Tuple order: date first, then close. */
  predicate BarLe(a: Bar, b: Bar) {
    a.date.AtMost(b.date) && (a.date == b.date ==> a.close <= b.close)
  }

  predicate IsSorted(bars: seq<Bar>) {
    forall i, j :: 0 <= i < j < |bars| ==> BarLe(bars[i], bars[j])
  }

  function Insert(b: Bar, bars: seq<Bar>): seq<Bar> {
    if bars == [] || BarLe(b, bars[0]) then [b] + bars else [bars[0]] + Insert(b, bars[1..])
  }

  /** `pairs.sort()`. */
  function Sorted(bars: seq<Bar>): seq<Bar> {
    if bars == [] then [] else Insert(bars[0], Sorted(bars[1..]))
  }

  lemma BarOrder(a: Bar, b: Bar, c: Bar)
    ensures BarLe(a, b) || BarLe(b, a)
    ensures BarLe(a, b) && BarLe(b, c) ==> BarLe(a, c)
    ensures BarLe(a, b) && BarLe(b, a) ==> a == b
  {
    OrderIsTotal(a.date, b.date);
    OrderIsTotal(b.date, c.date);
  }

  lemma {:induction false} InsertSorted(b: Bar, bars: seq<Bar>)
    requires IsSorted(bars)
    ensures IsSorted(Insert(b, bars))
    ensures forall x :: x in Insert(b, bars) <==> x == b || x in bars
  {
    hide BarLe;
    if bars == [] {
    } else if BarLe(b, bars[0]) {
      forall j | 0 <= j < |bars| ensures BarLe(b, bars[j]) { BarOrder(b, bars[0], bars[j]); }
    } else {
      BarOrder(b, bars[0], b);
      InsertSorted(b, bars[1..]);
      var rest := Insert(b, bars[1..]);
      forall j | 0 <= j < |rest| ensures BarLe(bars[0], rest[j]) { assert rest[j] in rest; }
    }
  }

  lemma {:induction false} SortedLaws(bars: seq<Bar>)
    ensures IsSorted(Sorted(bars))
    ensures forall x :: x in Sorted(bars) <==> x in bars
    ensures Sorted(bars) == [] <==> bars == []
  {
    if bars != [] {
      SortedLaws(bars[1..]);
      InsertSorted(bars[0], Sorted(bars[1..]));
      assert bars[0] in Sorted(bars);
    }
  }

  /** Two parallel lists, as the lookup wants them. */
  datatype Lists = Lists(dates: seq<Day>, closes: seq<real>)

  type Series = s: Lists | |s.dates| == |s.closes| witness Lists([], [])

  function Unzip(bars: seq<Bar>): Series {
    Lists(seq(|bars|, i requires 0 <= i < |bars| => bars[i].date),
           seq(|bars|, i requires 0 <= i < |bars| => bars[i].close))
  }

  /** The priced rows of one ticker. */
  function PairsOf(rows: seq<BarRow>, t: int): seq<Bar> {
    if rows == [] then []
    else PairsOf(rows[..|rows| - 1], t) + PairOf(Last(rows), t)
  }

  function PairOf(r: BarRow, t: int): seq<Bar> {
    if r.tickerId == t && r.close.Some? then [Bar(r.date, r.close.value)] else []
  }

  function Priced(rows: seq<BarRow>): set<int> {
    set r | r in rows && r.close.Some? :: r.tickerId
  }

  lemma {:induction false} PairsMembers(rows: seq<BarRow>, t: int)
    ensures forall b :: b in PairsOf(rows, t) <==> BarRow(t, b.date, Some(b.close)) in rows
    ensures PairsOf(rows, t) != [] <==> t in Priced(rows)
  {
    if rows != [] {
      var n := |rows| - 1;
      PairsMembers(rows[..n], t);
      assert rows == rows[..n] + [rows[n]];
      if t in Priced(rows[..n]) {
        var r :| r in rows[..n] && r.close.Some? && r.tickerId == t;
        assert r in rows;
      }
      if rows[n].tickerId == t && rows[n].close.Some? { assert rows[n] in rows; }
    }
  }

  type Bars = map<int, Series>

  /** The bars of every ticker with a priced row, sorted. */
  function Loaded(rows: seq<BarRow>): Bars {
    map t | t in Priced(rows) :: SeriesFor(rows, t)
  }

  function SeriesFor(rows: seq<BarRow>, t: int): Series { Unzip(Sorted(PairsOf(rows, t))) }

  lemma GroupStep(rows: seq<BarRow>, i: nat)
    requires i < |rows|
    ensures Priced(rows[..i + 1]) == Priced(rows[..i]) + if rows[i].close.Some? then {rows[i].tickerId} else {}
    ensures forall t :: PairsOf(rows[..i + 1], t) == PairsOf(rows[..i], t) + PairOf(rows[i], t)
    ensures forall t :: rows[i].tickerId != t || rows[i].close.None? ==>
        PairsOf(rows[..i + 1], t) == PairsOf(rows[..i], t)
    ensures rows[i].tickerId !in Priced(rows[..i]) ==> PairsOf(rows[..i], rows[i].tickerId) == []
  {
    assert rows[..i + 1] == rows[..i] + [rows[i]] && rows[..i + 1][..i] == rows[..i];
    PairsMembers(rows[..i], rows[i].tickerId);
  }

  lemma NothingPriced()
    ensures Priced([]) == {}
  {
  }

  /** The grouping loop of `_load_bars`: rows without a close are skipped. */
  method Group(rows: seq<BarRow>) returns (grouped: map<int, seq<Bar>>)
    ensures grouped == map t | t in Priced(rows) :: PairsOf(rows, t)
  {
    hide PairsOf, Priced;
    grouped := map[];
    NothingPriced();
    assert rows[..0] == [];
    for i := 0 to |rows|
      invariant grouped == map t | t in Priced(rows[..i]) :: PairsOf(rows[..i], t)
    {
      GroupStep(rows, i);
      var r := rows[i];
      if r.close.Some? {
        var sofar := if r.tickerId in grouped then grouped[r.tickerId] else [];
        grouped := grouped[r.tickerId := sofar + [Bar(r.date, r.close.value)]];
      }
    }
    assert rows[..|rows|] == rows;
  }

  /** `_load_bars`: group, then sort each group. */
  method LoadBars(rows: seq<BarRow>) returns (out: Bars)
    ensures out == Loaded(rows)
  {
    hide PairsOf, Sorted, Unzip, Priced;
    var grouped := Group(rows);
    out := map[];
    var todo := grouped.Keys;
    while todo != {}
      invariant todo <= grouped.Keys
      invariant out == map t | t in grouped.Keys - todo :: SeriesFor(rows, t)
      decreases |todo|
    {
      var t :| t in todo;
      out := out[t := Unzip(Sorted(grouped[t]))];
      todo := todo - {t};
    }
  }

  // --- lookup ------------------------------------------------------------------------------

  /** The insertion point after every date on or before d, in a sorted list. */
  function BisectRight(dates: seq<Day>, d: Day): (i: nat)
    ensures i <= |dates|
  {
    if dates == [] then 0
    else if Last(dates).AtMost(d) then |dates|
    else BisectRight(dates[..|dates| - 1], d)
  }

  function CloseOnOrBefore(bars: Option<Series>, d: Day): Option<real> {
    if bars.None? then None
    else
      var i := BisectRight(bars.value.dates, d);
      if i > 0 then Some(bars.value.closes[i - 1]) else None
  }

  lemma {:induction false} BisectSplits(dates: seq<Day>, d: Day)
    requires forall i, j :: 0 <= i < j < |dates| ==> dates[i].AtMost(dates[j])
    ensures forall k :: 0 <= k < |dates| ==> (dates[k].AtMost(d) <==> k < BisectRight(dates, d))
  {
    if dates != [] {
      var n := |dates| - 1;
      if dates[n].AtMost(d) {
        forall k | 0 <= k < n ensures dates[k].AtMost(d) { OrderIsTransitive(dates[k], dates[n], d); }
      } else {
        BisectSplits(dates[..n], d);
        assert forall k :: 0 <= k < n ==> dates[..n][k] == dates[k];
      }
    }
  }

  /** The latest bar of ticker t dated on or before d; between bars of one date, the greatest
      close. There is none exactly when no priced row of t is that old. */
  ghost predicate IsLatestClose(rows: seq<BarRow>, t: int, d: Day, r: Option<real>) {
    match r
    case None => forall b: Bar :: BarRow(t, b.date, Some(b.close)) in rows ==> !b.date.AtMost(d)
    case Some(close) =>
      exists best: Bar :: IsBest(rows, t, d, best) && best.close == close
  }

  ghost predicate IsBest(rows: seq<BarRow>, t: int, d: Day, best: Bar) {
    && BarRow(t, best.date, Some(best.close)) in rows && best.date.AtMost(d)
    && forall b: Bar :: BarRow(t, b.date, Some(b.close)) in rows && b.date.AtMost(d) ==> BarLe(b, best)
  }

  function SeriesOf(bars: Bars, t: int): Option<Series> {
    if t in bars then Some(bars[t]) else None
  }

  /** `_close_on_or_before` as the engine calls it. */
  function QuoteIn(bars: Bars, t: int, d: Day): Option<real> { CloseOnOrBefore(SeriesOf(bars, t), d) }

  function Quote(rows: seq<BarRow>, t: int, d: Day): Option<real> { QuoteIn(Loaded(rows), t, d) }

  /** In a sorted series the entry before the insertion point is the best one. */
  lemma LookupBest(bars: seq<Bar>, d: Day)
    requires IsSorted(bars)
    ensures BisectRight(Unzip(bars).dates, d) == 0 ==> forall b :: b in bars ==> !b.date.AtMost(d)
    ensures BisectRight(Unzip(bars).dates, d) > 0 ==>
      var best := bars[BisectRight(Unzip(bars).dates, d) - 1];
      best.date.AtMost(d) && forall b :: b in bars && b.date.AtMost(d) ==> BarLe(b, best)
  {
    var dates := Unzip(bars).dates;
    BisectSplits(dates, d);
    var i := BisectRight(dates, d);
    forall b | b in bars && b.date.AtMost(d) ensures i > 0 && BarLe(b, bars[i - 1]) {
      var k :| 0 <= k < |bars| && bars[k] == b;
      assert dates[k] == b.date;
      BarOrder(b, b, b);
    }
    if i > 0 { assert dates[i - 1] == bars[i - 1].date; }
  }

  lemma QuoteUnfolds(rows: seq<BarRow>, t: int, d: Day)
    ensures
      var bars := Sorted(PairsOf(rows, t));
      var i := BisectRight(Unzip(bars).dates, d);
      Quote(rows, t, d) == if i > 0 then Some(bars[i - 1].close) else None
  {
    PairsMembers(rows, t);
    hide Priced, PairsOf, BisectRight;
    if t in Priced(rows) {
      assert SeriesOf(Loaded(rows), t) == Some(Unzip(Sorted(PairsOf(rows, t))));
      hide Sorted;
    } else {
      assert Sorted(PairsOf(rows, t)) == [];
      assert BisectRight([], d) == 0;
    }
  }

  /** The lookup finds the latest close on or before the date, whatever order the rows come
      in and however many there are. */
  lemma QuoteIsLatest(rows: seq<BarRow>, t: int, d: Day)
    ensures IsLatestClose(rows, t, d, Quote(rows, t, d))
  {
    var bars := Sorted(PairsOf(rows, t));
    QuoteUnfolds(rows, t, d);
    PairsMembers(rows, t);
    SortedLaws(PairsOf(rows, t));
    LookupBest(bars, d);
    hide PairsOf, Sorted, IsSorted, BarLe, BisectRight, Priced, Quote;
    var i := BisectRight(Unzip(bars).dates, d);
    forall b: Bar ensures BarRow(t, b.date, Some(b.close)) in rows <==> b in bars {
    }
    if i > 0 {
      assert bars[i - 1] in bars;
      assert IsBest(rows, t, d, bars[i - 1]);
    }
  }

  /** The same in terms of the rows: a close that is found stands in a priced row of the ticker on
      or before the date, and no such row is later, nor of the same day with a greater close. */
  lemma LatestRow(rows: seq<BarRow>, t: int, d: Day) returns (found: BarRow)
    requires Quote(rows, t, d).Some?
    ensures found in rows && found.tickerId == t && found.close == Quote(rows, t, d) && found.date.AtMost(d)
    ensures forall r: BarRow :: r in rows && r.tickerId == t && r.close.Some? && r.date.AtMost(d) ==>
      r.date.AtMost(found.date) && (r.date == found.date ==> r.close.value <= found.close.value)
  {
    QuoteIsLatest(rows, t, d);
    var best: Bar :| IsBest(rows, t, d, best) && Some(best.close) == Quote(rows, t, d);
    hide Quote;
    found := BarRow(t, best.date, Some(best.close));
    forall r: BarRow | r in rows && r.tickerId == t && r.close.Some? && r.date.AtMost(d)
      ensures BarLe(Bar(r.date, r.close.value), best)
    {
      assert r == BarRow(t, r.date, Some(r.close.value));
    }
  }

  lemma LatestIsUnique(rows: seq<BarRow>, rows': seq<BarRow>, t: int, d: Day, r: Option<real>, r': Option<real>)
    requires IsLatestClose(rows, t, d, r) && IsLatestClose(rows', t, d, r')
    requires AgreeUpTo(rows, rows', d)
    ensures r == r'
  {
    if r.Some? && r'.Some? {
      var b: Bar :| IsBest(rows, t, d, b) && b.close == r.value;
      var b': Bar :| IsBest(rows', t, d, b') && b'.close == r'.value;
      BarOrder(b, b', b);
    }
  }

  /** The two tables hold the same rows dated on or before d. */
  ghost predicate AgreeUpTo(rows: seq<BarRow>, rows': seq<BarRow>, d: Day) {
    forall r: BarRow :: r.date.AtMost(d) ==> (r in rows <==> r in rows')
  }

  /** No look-ahead: bars dated after d cannot change the answer for d. */
  lemma QuoteNoLookAhead(rows: seq<BarRow>, rows': seq<BarRow>, t: int, d: Day)
    requires AgreeUpTo(rows, rows', d)
    ensures Quote(rows, t, d) == Quote(rows', t, d)
  {
    QuoteIsLatest(rows, t, d);
    QuoteIsLatest(rows', t, d);
    LatestIsUnique(rows, rows', t, d, Quote(rows, t, d), Quote(rows', t, d));
  }

  lemma {:induction false} BarsUpToMembers(rows: seq<BarRow>, asOf: Day)
    ensures forall r: BarRow :: r in BarsUpTo(rows, asOf) <==> r in rows && r.date.AtMost(asOf)
  {
    if rows != [] {
      BarsUpToMembers(rows[..|rows| - 1], asOf);
      assert rows == rows[..|rows| - 1] + [Last(rows)];
    }
  }

  /** The SQL cut at asOf loses nothing a lookup up to asOf needs. */
  lemma CutIsHarmless(rows: seq<BarRow>, asOf: Day, t: int, d: Day)
    requires d.AtMost(asOf)
    ensures Quote(BarsUpTo(rows, asOf), t, d) == Quote(rows, t, d)
  {
    BarsUpToMembers(rows, asOf);
    forall r: BarRow | r.date.AtMost(d) ensures r.date.AtMost(asOf) { OrderIsTransitive(r.date, d, asOf); }
    QuoteNoLookAhead(BarsUpTo(rows, asOf), rows, t, d);
  }
}
