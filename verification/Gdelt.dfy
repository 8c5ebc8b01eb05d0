/** GDELT ingestion: what each ticker's fetch did, the counters, and the run message. */
module Gdelt {
  import opened Prelude
  import opened Symbols

  /** One ticker's turn. `articles[i]` says whether the i-th fetched article survives
      sanitising; a failing insert comes after the rejects have been counted. */
  datatype Attempt =
    | QueryFailed                                                // allowlist, HTTP or parse error
    | SourceDown(text: string)                                   // the client raised AdapterUnavailable
    | Fetched(articles: seq<bool>, insertSucceeds: bool)

  function Kept(articles: seq<bool>): nat {
    if articles == [] then 0 else Kept(articles[..|articles| - 1]) + if Last(articles) then 1 else 0
  }

  /** The ticker's own fetch succeeded; an empty but fetched ticker counts as success. */
  predicate Succeeded(a: Attempt) {
    a.Fetched? && (Kept(a.articles) == 0 || a.insertSucceeds)
  }

  function FailedOf(tickers: seq<string>, attempts: seq<Attempt>): seq<string>
    requires |tickers| == |attempts|
  {
    if tickers == [] then []
    else
      FailedOf(tickers[..|tickers| - 1], attempts[..|tickers| - 1])
      + if Succeeded(Last(attempts)) then [] else [Last(tickers)]
  }

  datatype Counts = Counts(ok: nat, empty: nat, headlines: nat, rejected: nat)

  /** What one turn adds: rejects count as soon as the fetch succeeded, the rest only if the
      whole turn did. */
  function Add(c: Counts, a: Attempt): Counts {
    if !a.Fetched? then c
    else
      var kept := Kept(a.articles);
      var seen := c.(rejected := c.rejected + Rejected(a.articles));
      if kept == 0 then seen.(empty := c.empty + 1)
      else if a.insertSucceeds then seen.(ok := c.ok + 1, headlines := c.headlines + kept)
      else seen
  }

  function Rejected(articles: seq<bool>): nat {
    if articles == [] then 0 else Rejected(articles[..|articles| - 1]) + if Last(articles) then 0 else 1
  }

  function CountsOf(attempts: seq<Attempt>): Counts {
    if attempts == [] then Counts(0, 0, 0, 0) else Add(CountsOf(attempts[..|attempts| - 1]), Last(attempts))
  }

  /** The text of the first source-wide failure. */
  function FirstDown(attempts: seq<Attempt>): string {
    if attempts == [] then "" else if attempts[0].SourceDown? then attempts[0].text else FirstDown(attempts[1..])
  }

  function SafeOnly(symbols: seq<string>): seq<string> {
    if symbols == [] then []
    else (if TokenSafe(symbols[0]) then [symbols[0]] else []) + SafeOnly(symbols[1..])
  }

  function Counters(c: Counts, failed: nat): string {
    "tickers ok=" + Decimal(c.ok) + " empty=" + Decimal(c.empty) + " failed=" + Decimal(failed)
    + "; headlines ingested=" + Decimal(c.headlines) + " rejected=" + Decimal(c.rejected)
  }

  /** The token ends the message, and only when some failed symbol can be represented. */
  function SummaryText(c: Counts, failed: seq<string>): string {
    var safe := SafeOnly(failed);
    Counters(c, |failed|) + if safe == [] then "" else "; " + TOKEN + Join(safe)
  }

  class NewsIngestStats {
    var tickersOk: nat
    var tickersEmpty: nat
    var headlinesIngested: nat
    var itemsRejected: nat
    var failedSymbols: seq<string>

    constructor ()
      ensures tickersOk == tickersEmpty == headlinesIngested == itemsRejected == 0 && failedSymbols == []
    {
      tickersOk, tickersEmpty, headlinesIngested, itemsRejected, failedSymbols := 0, 0, 0, 0, [];
    }

    function Tally(): Counts
      reads this
    {
      Counts(tickersOk, tickersEmpty, headlinesIngested, itemsRejected)
    }

    function Summary(): string
      reads this
    {
      SummaryText(Tally(), failedSymbols)
    }

    /** `_ingest_one`: raises exactly when the ticker's own fetch did not succeed. */
    method IngestOne(a: Attempt) returns (r: Result<()>)
      modifies this
      ensures failedSymbols == old(failedSymbols)
      ensures r.Returned? <==> Succeeded(a)
      ensures a.SourceDown? <==> r == Threw(AdapterUnavailable)
      ensures Tally() == Add(old(Tally()), a)
    {
      if a.SourceDown? { return Threw(AdapterUnavailable); }
      if a.QueryFailed? { return Threw(OtherError); }
      var rows := 0;
      for i := 0 to |a.articles|
        invariant rows == Kept(a.articles[..i])
        invariant itemsRejected == old(itemsRejected) + Rejected(a.articles[..i])
        invariant tickersOk == old(tickersOk) && tickersEmpty == old(tickersEmpty)
        invariant headlinesIngested == old(headlinesIngested) && failedSymbols == old(failedSymbols)
      {
        assert a.articles[..i + 1][..i] == a.articles[..i];
        if a.articles[i] { rows := rows + 1; } else { itemsRejected := itemsRejected + 1; }
      }
      assert a.articles[..|a.articles|] == a.articles;
      if rows == 0 {
        tickersEmpty := tickersEmpty + 1;
        return Returned(());
      }
      if !a.insertSucceeds { return Threw(OtherError); }
      headlinesIngested := headlinesIngested + rows;
      tickersOk := tickersOk + 1;
      return Returned(());
    }
  }

  datatype Ingest = Ingested(stats: NewsIngestStats) | SourceUnavailable(text: string)

  predicate NoSourceDown(attempts: seq<Attempt>) {
    forall i :: 0 <= i < |attempts| ==> !attempts[i].SourceDown?
  }

  predicate SomeSuccess(attempts: seq<Attempt>) {
    exists i :: 0 <= i < |attempts| && Succeeded(attempts[i])
  }

  function UnavailableText(tickers: seq<string>, attempts: seq<Attempt>): string
    requires |tickers| == |attempts|
  {
    if tickers == [] then "no covered tickers to ingest"
    else if !NoSourceDown(attempts) then FirstDown(attempts)
    else "all tickers failed: " + TOKEN + Join(FailedOf(tickers, attempts))
  }

  lemma {:induction false} FirstDownIs(attempts: seq<Attempt>, i: nat)
    requires i < |attempts| && attempts[i].SourceDown? && NoSourceDown(attempts[..i])
    ensures FirstDown(attempts) == attempts[i].text
  {
    if i > 0 {
      assert attempts[..i][0] == attempts[0];
      assert attempts[1..][..i - 1] == attempts[..i][1..];
      FirstDownIs(attempts[1..], i - 1);
    }
  }

  /** No ticker is lost: each one is ok, empty or failed. */
  lemma {:induction false} EveryTickerCounted(tickers: seq<string>, attempts: seq<Attempt>)
    requires |tickers| == |attempts|
    ensures CountsOf(attempts).ok + CountsOf(attempts).empty + |FailedOf(tickers, attempts)| == |tickers|
    ensures CountsOf(attempts).ok + CountsOf(attempts).empty > 0 <==> SomeSuccess(attempts)
  {
    if tickers != [] {
      var n := |tickers| - 1;
      EveryTickerCounted(tickers[..n], attempts[..n]);
      assert SomeSuccess(attempts) <==> SomeSuccess(attempts[..n]) || Succeeded(attempts[n]) by {
        if i :| 0 <= i < n && Succeeded(attempts[..n][i]) { assert Succeeded(attempts[i]); }
        if i :| 0 <= i <= n && Succeeded(attempts[i]) { assert i < n ==> Succeeded(attempts[..n][i]); }
      }
    }
  }

  /** `ingest_gdelt`: per-ticker isolation; unavailable when the source goes down, or when
      nothing at all succeeded. */
  method IngestGdelt(tickers: seq<string>, attempts: seq<Attempt>) returns (r: Ingest)
    requires |tickers| == |attempts|
    ensures r.Ingested? <==> NoSourceDown(attempts) && SomeSuccess(attempts)
    ensures r.SourceUnavailable? ==> r.text == UnavailableText(tickers, attempts)
    ensures r.Ingested? ==>
      && fresh(r.stats)
      && r.stats.failedSymbols == FailedOf(tickers, attempts)
      && r.stats.Tally() == CountsOf(attempts)
  {
    hide Add, Succeeded;
    if tickers == [] { return SourceUnavailable("no covered tickers to ingest"); }
    var stats := new NewsIngestStats();
    for i := 0 to |tickers|
      invariant fresh(stats)
      invariant NoSourceDown(attempts[..i])
      invariant stats.failedSymbols == FailedOf(tickers[..i], attempts[..i])
      invariant stats.Tally() == CountsOf(attempts[..i])
    {
      assert tickers[..i + 1][..i] == tickers[..i] && attempts[..i + 1][..i] == attempts[..i];
      var one := stats.IngestOne(attempts[i]);
      if one == Threw(AdapterUnavailable) {
        FirstDownIs(attempts, i);
        return SourceUnavailable(attempts[i].text);
      } else if one.Threw? {
        stats.failedSymbols := stats.failedSymbols + [tickers[i]];
      }
    }
    assert tickers[..|tickers|] == tickers && attempts[..|tickers|] == attempts;
    EveryTickerCounted(tickers, attempts);
    if stats.tickersOk + stats.tickersEmpty == 0 {
      return SourceUnavailable("all tickers failed: " + TOKEN + Join(stats.failedSymbols));
    }
    return Ingested(stats);
  }

  lemma {:induction false} KeptMeans(articles: seq<bool>)
    ensures Kept(articles) + Rejected(articles) == |articles|
    ensures Kept(articles) == |set i: nat | i < |articles| && articles[i]|
    ensures Kept(articles) > 0 <==> exists i :: 0 <= i < |articles| && articles[i]
  {
    if articles != [] {
      var n := |articles| - 1;
      KeptMeans(articles[..n]);
      assert (set i: nat | i < |articles| && articles[i])
          == (set i: nat | i < n && articles[..n][i]) + (if articles[n] then {n} else {});
      if i :| 0 <= i < n && articles[i] { assert articles[..n][i]; }
    }
  }

  /** A ticker's own fetch succeeds when it is fetched and either no article survives or the ones
      that do are stored; a quiet ticker is a success. */
  lemma SucceededMeans(a: Attempt)
    ensures Succeeded(a) <==> a.Fetched? && ((forall i :: 0 <= i < |a.articles| ==> !a.articles[i]) || a.insertSucceeds)
  {
    if a.Fetched? { KeptMeans(a.articles); }
  }

  /** The tickers, by how their turn ended. */
  ghost function Stored(attempts: seq<Attempt>): set<nat> {
    set i: nat | i < |attempts| && attempts[i].Fetched? && attempts[i].insertSucceeds && true in attempts[i].articles
  }

  ghost function QuietOnes(attempts: seq<Attempt>): set<nat> {
    set i: nat | i < |attempts| && attempts[i].Fetched? && true !in attempts[i].articles
  }

  lemma EndedSnoc(attempts: seq<Attempt>)
    requires attempts != []
    ensures
      var n := |attempts| - 1;
      var a := attempts[n];
      && Stored(attempts) == Stored(attempts[..n])
        + (if a.Fetched? && a.insertSucceeds && true in a.articles then {n} else {})
      && QuietOnes(attempts) == QuietOnes(attempts[..n]) + (if a.Fetched? && true !in a.articles then {n} else {})
      && n !in Stored(attempts[..n]) && n !in QuietOnes(attempts[..n])
  {
  }

  /** The surviving articles of the tickers whose headlines were stored, and the rejected ones of all
      fetched tickers, by ticker and position. */
  ghost function Articles(attempts: seq<Attempt>, survives: bool): set<(nat, nat)> {
    set i: nat, j: nat | i < |attempts| && attempts[i].Fetched? && j < |attempts[i].articles|
      && attempts[i].articles[j] == survives && (survives ==> attempts[i].insertSucceeds) :: (i, j)
  }

  ghost function Row(k: nat, articles: seq<bool>, survives: bool): set<(nat, nat)> {
    set j: nat | j < |articles| && articles[j] == survives :: (k, j)
  }

  lemma {:induction false} RowSize(k: nat, articles: seq<bool>)
    ensures |Row(k, articles, true)| == Kept(articles) && |Row(k, articles, false)| == Rejected(articles)
  {
    if articles != [] {
      var n := |articles| - 1;
      RowSize(k, articles[..n]);
      forall b: bool
        ensures Row(k, articles, b) == Row(k, articles[..n], b) + (if articles[n] == b then {(k, n)} else {})
      {
      }
    }
  }

  lemma ArticlesSnoc(attempts: seq<Attempt>, survives: bool)
    requires attempts != []
    ensures
      var n := |attempts| - 1;
      var a := attempts[n];
      var more := if a.Fetched? && (survives ==> a.insertSucceeds) then Row(n, a.articles, survives) else {};
      Articles(attempts, survives) == Articles(attempts[..n], survives) + more
      && Articles(attempts[..n], survives) !! more
  {
  }

  lemma ArticlesGrow(attempts: seq<Attempt>, survives: bool)
    requires attempts != []
    ensures
      var n := |attempts| - 1;
      var a := attempts[n];
      var more := if !a.Fetched? || (survives && !a.insertSucceeds) then 0
                  else if survives then Kept(a.articles) else Rejected(a.articles);
      |Articles(attempts, survives)| == |Articles(attempts[..n], survives)| + more
  {
    hide Kept, Rejected, Articles, Row;
    var n := |attempts| - 1;
    ArticlesSnoc(attempts, survives);
    if attempts[n].Fetched? { RowSize(n, attempts[n].articles); }
  }

  lemma NoArticles(survives: bool)
    ensures Articles([], survives) == {}
  {
  }

  /** headlines counts the articles stored, rejected those that sanitising dropped. */
  lemma {:induction false} ArticlesCounted(attempts: seq<Attempt>)
    ensures CountsOf(attempts).headlines == |Articles(attempts, true)|
    ensures CountsOf(attempts).rejected == |Articles(attempts, false)|
  {
    hide Articles, Kept, Rejected;
    if attempts == [] {
      NoArticles(true);
      NoArticles(false);
    } else {
      ArticlesCounted(attempts[..|attempts| - 1]);
      ArticlesGrow(attempts, true);
      ArticlesGrow(attempts, false);
    }
  }

  /** ok counts the tickers with stored headlines, empty the fetched ones without a surviving
      article; headlines are only those stored, and nothing is stored without an ok ticker. */
  lemma {:induction false} CountersMean(attempts: seq<Attempt>)
    ensures CountsOf(attempts).ok == |Stored(attempts)|
    ensures CountsOf(attempts).empty == |QuietOnes(attempts)|
    ensures CountsOf(attempts).headlines >= CountsOf(attempts).ok
    ensures CountsOf(attempts).ok == 0 ==> CountsOf(attempts).headlines == 0
  {
    if attempts != [] {
      var n := |attempts| - 1;
      CountersMean(attempts[..n]);
      EndedSnoc(attempts);
      if attempts[n].Fetched? {
        KeptMeans(attempts[n].articles);
        assert true in attempts[n].articles <==> exists i :: 0 <= i < |attempts[n].articles| && attempts[n].articles[i];
      }
      hide Stored, QuietOnes;
    }
  }

  lemma ExampleHead()
    ensures "tickers ok=" + "1" + " empty=" + "2" + " failed=" + "3" == "tickers ok=1 empty=2 failed=3"
  {
    assert "tickers ok=" + "1" + " empty=" + "2" == "tickers ok=1 empty=2";
  }

  lemma ExampleTail(head: string)
    ensures head + "; headlines ingested=" + "3" + " rejected=" + "4" == head + "; headlines ingested=3 rejected=4"
  {
    assert "; headlines ingested=" + "3" + " rejected=" + "4" == "; headlines ingested=3 rejected=4";
  }

  lemma ExampleCounters()
    ensures Counters(Counts(1, 2, 3, 4), 3) == "tickers ok=1 empty=2 failed=3" + "; headlines ingested=3 rejected=4"
  {
    assert Decimal(1) == "1" && Decimal(2) == "2" && Decimal(3) == "3" && Decimal(4) == "4";
    hide Decimal;
    ExampleHead();
    ExampleTail("tickers ok=1 empty=2 failed=3");
  }

  lemma ExampleSafe()
    ensures SafeOnly(["AAPL", "BAD SYMBOL", "MSFT"]) == ["AAPL", "MSFT"]
    ensures Join(["AAPL", "MSFT"]) == "AAPL,MSFT"
  {
    var all := ["AAPL", "BAD SYMBOL", "MSFT"];
    assert all[1..] == ["BAD SYMBOL", "MSFT"] && all[1..][1..] == ["MSFT"];
    assert "BAD SYMBOL"[3] == ' ';
    assert TokenSafe("AAPL") && TokenSafe("MSFT") && !TokenSafe("BAD SYMBOL");
    assert ["AAPL", "MSFT"][1..] == ["MSFT"];
    assert "AAPL" + "," + "MSFT" == "AAPL,MSFT";
  }

  /** A run message as it is stored. */
  lemma SummaryExample()
    ensures SummaryText(Counts(1, 2, 3, 4), ["AAPL", "BAD SYMBOL", "MSFT"])
         == "tickers ok=1 empty=2 failed=3" + "; headlines ingested=3 rejected=4" + "; failed_tickers=AAPL,MSFT"
  {
    ExampleCounters();
    ExampleSafe();
    hide Counters, SafeOnly, Join, TokenSafe;
    assert "; " + TOKEN + "AAPL,MSFT" == "; failed_tickers=AAPL,MSFT";
  }

  lemma {:induction false} FailedOfMembers(tickers: seq<string>, attempts: seq<Attempt>)
    requires |tickers| == |attempts|
    ensures forall s :: s in FailedOf(tickers, attempts) <==>
              exists i :: 0 <= i < |tickers| && tickers[i] == s && !Succeeded(attempts[i])
  {
    if tickers != [] {
      var n := |tickers| - 1;
      FailedOfMembers(tickers[..n], attempts[..n]);
      forall s | s in FailedOf(tickers, attempts)
        ensures exists i :: 0 <= i < |tickers| && tickers[i] == s && !Succeeded(attempts[i])
      {
        if s in FailedOf(tickers[..n], attempts[..n]) {
          var i :| 0 <= i < n && tickers[..n][i] == s && !Succeeded(attempts[..n][i]);
          assert tickers[i] == s && !Succeeded(attempts[i]);
        } else {
          assert tickers[n] == s && !Succeeded(attempts[n]);
        }
      }
      forall i | 0 <= i < |tickers| && !Succeeded(attempts[i]) ensures tickers[i] in FailedOf(tickers, attempts) {
        if i < n {
          assert tickers[..n][i] == tickers[i] && attempts[..n][i] == attempts[i];
        }
      }
    }
  }

  lemma {:induction false} SafeOnlyMembers(symbols: seq<string>)
    ensures forall s :: s in SafeOnly(symbols) <==> s in symbols && TokenSafe(s)
    ensures forall i :: 0 <= i < |SafeOnly(symbols)| ==> TokenSafe(SafeOnly(symbols)[i])
  {
    if symbols != [] {
      SafeOnlyMembers(symbols[1..]);
      assert symbols == [symbols[0]] + symbols[1..];
    }
  }
}
