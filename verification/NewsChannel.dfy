/** From the fetch loop to the lens: the printed failure token means what it says. */
module NewsChannel {
  import opened Prelude
  import opened Symbols
  import opened PipelineRuns
  import Gdelt
  import News

  /** Status and message `_run_gdelt` reports for an ingest that ended this way. */
  function Reported(fixture: bool, failed: bool, summary: string): string {
    (if fixture then "[fixture] " else "[live] ") + (if failed then "partial: " else "") + summary
  }

  /** The scheduled row a nightly gdelt stage leaves. */
  function GdeltRow(fixture: bool, tickers: seq<string>, attempts: seq<Gdelt.Attempt>): RunRow
    requires |tickers| == |attempts|
  {
    var failed := Gdelt.FailedOf(tickers, attempts);
    if Gdelt.NoSourceDown(attempts) && Gdelt.SomeSuccess(attempts)
    then RunRow(RunOk, Some(Reported(fixture, failed != [], Gdelt.SummaryText(Gdelt.CountsOf(attempts), failed))))
    else RunRow(RunUnavailable, Some(Reported(fixture, false, Gdelt.UnavailableText(tickers, attempts))))
  }

  method RunGdelt(fixture: bool, tickers: seq<string>, attempts: seq<Gdelt.Attempt>)
    returns (status: RunStatus, message: string)
    requires |tickers| == |attempts|
    ensures RunRow(status, Some(message)) == GdeltRow(fixture, tickers, attempts)
  {
    var r := Gdelt.IngestGdelt(tickers, attempts);
    match r
    case SourceUnavailable(text) =>
      status, message := RunUnavailable, Reported(fixture, false, text);
    case Ingested(stats) =>
      status, message := RunOk, Reported(fixture, stats.failedSymbols != [], stats.Summary());
  }

  /** What the stage's row says: ok exactly when the source never went down and some ticker
      succeeded, unavailable otherwise; the mode it ran in; and, on ok, "partial" exactly when
      some ticker failed. */
  lemma RowSays(fixture: bool, tickers: seq<string>, attempts: seq<Gdelt.Attempt>)
    requires |tickers| == |attempts|
    ensures
      var row := GdeltRow(fixture, tickers, attempts);
      var mode := if fixture then "[fixture] " else "[live] ";
      && row.message.Some?
      && (row.status == RunOk
          <==> (forall a :: a in attempts ==> !a.SourceDown?) && (exists a :: a in attempts && Gdelt.Succeeded(a)))
      && (row.status != RunOk ==> row.status == RunUnavailable)
      && News.StartsWith(row.message.value, mode)
      && (row.status == RunOk ==>
            (News.StartsWith(row.message.value[|mode|..], "partial: ")
             <==> exists a :: a in attempts && !Gdelt.Succeeded(a)))
  {
    var failed := Gdelt.FailedOf(tickers, attempts);
    SomeFailed(tickers, attempts);
    SummaryStart(Gdelt.CountsOf(attempts), failed);
    ReportedSays(fixture, failed != [], Gdelt.SummaryText(Gdelt.CountsOf(attempts), failed));
    ReportedSays(fixture, false, Gdelt.UnavailableText(tickers, attempts));
    hide Gdelt.Succeeded, Gdelt.FailedOf, Gdelt.SummaryText, Gdelt.CountsOf, Gdelt.UnavailableText, Reported,
         News.StartsWith;
  }

  lemma ReportedSays(fixture: bool, failed: bool, summary: string)
    ensures
      var mode := if fixture then "[fixture] " else "[live] ";
      && News.StartsWith(Reported(fixture, failed, summary), mode)
      && (summary != "" && summary[0] == 't' ==>
            (News.StartsWith(Reported(fixture, failed, summary)[|mode|..], "partial: ") <==> failed))
  {
    var mode := if fixture then "[fixture] " else "[live] ";
    var flag := if failed then "partial: " else "";
    assert Reported(fixture, failed, summary) == mode + (flag + summary);
    if !failed && News.StartsWith(summary, "partial: ") { assert summary[0] == "partial: "[0]; }
  }

  lemma SummaryStart(c: Gdelt.Counts, failed: seq<string>)
    ensures Gdelt.SummaryText(c, failed) != "" && Gdelt.SummaryText(c, failed)[0] == 't'
  {
  }

  lemma SomeFailed(tickers: seq<string>, attempts: seq<Gdelt.Attempt>)
    requires |tickers| == |attempts|
    ensures Gdelt.FailedOf(tickers, attempts) != [] <==> exists a :: a in attempts && !Gdelt.Succeeded(a)
  {
    Gdelt.FailedOfMembers(tickers, attempts);
    var failed := Gdelt.FailedOf(tickers, attempts);
    hide Gdelt.Succeeded, Gdelt.FailedOf;
    if failed != [] { assert failed[0] in failed; }
    if a :| a in attempts && !Gdelt.Succeeded(a) {
      var i :| 0 <= i < |attempts| && attempts[i] == a;
      assert tickers[i] in failed;
    }
  }

  lemma CountersPlain(c: Gdelt.Counts, failed: nat)
    ensures Lacks(Gdelt.Counters(c, failed), '_')
  {
    var s1 := "tickers ok=" + Decimal(c.ok);
    var s2 := s1 + " empty=" + Decimal(c.empty);
    var s3 := s2 + " failed=" + Decimal(failed);
    var s4 := s3 + "; headlines ingested=" + Decimal(c.headlines);
    assert Lacks(s1, '_') && Lacks(s2, '_') && Lacks(s3, '_') && Lacks(s4, '_');
  }

  lemma ReportedPlain(fixture: bool, failed: bool, summary: string)
    requires Lacks(summary, '_')
    ensures Lacks(Reported(fixture, failed, summary), '_')
  {
  }

  lemma PartsAreSafe(safe: seq<string>)
    requires forall i :: 0 <= i < |safe| ==> TokenSafe(safe[i])
    ensures forall i :: 0 <= i < |safe| ==> Lacks(safe[i], ',') && safe[i] != ""
  {
  }

  /** A message whose token lists these symbols parses to them. */
  lemma TokenParses(before: string, safe: seq<string>)
    requires Lacks(before, '_') && safe != [] && forall i :: 0 <= i < |safe| ==> TokenSafe(safe[i])
    ensures News.ParseFailedTickers(Some(before + TOKEN + Join(safe))) == set s | s in safe
  {
    hide News.SearchToken, Split, Join;
    JoinNoSpace(safe);
    News.SearchFinds(before, Join(safe));
    PartsAreSafe(safe);
    SplitJoin(safe);
  }

  lemma Regroup(head: string, a: string, b: string, c: string, d: string)
    ensures head + (a + (b + c + d)) == head + (a + b) + c + d
    ensures a + "" == a
  {
  }

  lemma MessageShape(fixture: bool, flag: bool, c: Gdelt.Counts, failed: seq<string>)
    ensures
      var counters := Gdelt.Counters(c, |failed|);
      var safe := Gdelt.SafeOnly(failed);
      Reported(fixture, flag, Gdelt.SummaryText(c, failed))
      == if safe == [] then Reported(fixture, flag, counters)
         else Reported(fixture, flag, counters + "; ") + TOKEN + Join(safe)
  {
    hide Gdelt.Counters, Gdelt.SafeOnly, Join;
    var counters := Gdelt.Counters(c, |failed|);
    var head := (if fixture then "[fixture] " else "[live] ") + (if flag then "partial: " else "");
    Regroup(head, counters, "; ", TOKEN, Join(Gdelt.SafeOnly(failed)));
  }

  /** Printing the failed symbols and parsing the stored message gives back exactly the
      failed symbols that are safe to print. */
  lemma PrintThenParse(fixture: bool, flag: bool, c: Gdelt.Counts, failed: seq<string>)
    ensures News.ParseFailedTickers(Some(Reported(fixture, flag, Gdelt.SummaryText(c, failed))))
         == set s | s in failed && TokenSafe(s)
  {
    hide Reported, Gdelt.Counters, Gdelt.SummaryText, Gdelt.SafeOnly, Join, Split, News.SearchToken;
    var safe := Gdelt.SafeOnly(failed);
    var counters := Gdelt.Counters(c, |failed|);
    MessageShape(fixture, flag, c, failed);
    Gdelt.SafeOnlyMembers(failed);
    CountersPlain(c, |failed|);
    if safe == [] {
      ReportedPlain(fixture, flag, counters);
      News.SearchMisses(Reported(fixture, flag, counters));
    } else {
      ReportedPlain(fixture, flag, counters + "; ");
      TokenParses(Reported(fixture, flag, counters + "; "), safe);
    }
  }

  /** When every ticker failed the message of the unavailable run names them all. */
  lemma AllFailedParses(fixture: bool, tickers: seq<string>, attempts: seq<Gdelt.Attempt>)
    requires |tickers| == |attempts| && tickers != []
    requires forall i :: 0 <= i < |tickers| ==> TokenSafe(tickers[i]) && !attempts[i].SourceDown?
    requires !Gdelt.SomeSuccess(attempts)
    ensures GdeltRow(fixture, tickers, attempts).status == RunUnavailable
    ensures News.ParseFailedTickers(GdeltRow(fixture, tickers, attempts).message) == set t | t in tickers
  {
    var failed := Gdelt.FailedOf(tickers, attempts);
    Gdelt.FailedOfMembers(tickers, attempts);
    AllFailedText(fixture, failed);
    hide Gdelt.FailedOf, Gdelt.Succeeded, Join, TokenSafe, News.ParseFailedTickers, Reported, Lacks;
    assert tickers[0] in failed;
    assert forall i :: 0 <= i < |failed| ==> failed[i] in failed;
    TokenParses(AllFailedHead(fixture), failed);
  }

  function AllFailedHead(fixture: bool): string {
    (if fixture then "[fixture] " else "[live] ") + "all tickers failed: "
  }

  lemma AllFailedText(fixture: bool, failed: seq<string>)
    ensures Reported(fixture, false, "all tickers failed: " + TOKEN + Join(failed))
         == AllFailedHead(fixture) + TOKEN + Join(failed)
    ensures Lacks(AllFailedHead(fixture), '_')
  {
    hide Join;
  }

  /** Fail closed, and only then. Full symbols are distinct, as the ticker table's UNIQUE
      constraint guarantees: after the nightly ingest the news lens of a covered ticker
      is available exactly when the source never went down, the ticker's own fetch succeeded
      and its symbol can be represented in the token. */
  lemma FailClosedRoundTrip(fixture: bool, tickers: seq<string>, attempts: seq<Gdelt.Attempt>, k: nat,
                            sentiments: seq<real>)
    requires |tickers| == |attempts| && Distinct(tickers) && k < |tickers|
    ensures News.NewsLens(tickers[k], None, Some(GdeltRow(fixture, tickers, attempts)), sentiments).Available()
       <==> Gdelt.NoSourceDown(attempts) && Gdelt.Succeeded(attempts[k]) && TokenSafe(tickers[k])
  {
    var failed, row := Gdelt.FailedOf(tickers, attempts), GdeltRow(fixture, tickers, attempts);
    Gdelt.FailedOfMembers(tickers, attempts);
    News.QuietIsNotFailed(tickers[k], None, Some(row), sentiments);
    assert tickers[k] in failed <==> !Gdelt.Succeeded(attempts[k]);
    PrintThenParse(fixture, failed != [], Gdelt.CountsOf(attempts), failed);
    hide Gdelt.Succeeded, Gdelt.FailedOf, Gdelt.CountsOf, Gdelt.SummaryText, Reported, News.ParseFailedTickers,
         TokenSafe;
  }

  /** For a single ticker the source status alone tells whether its fetch succeeded, so the
      on-demand override and the nightly token decide alike. */
  lemma OverrideAgreesWithToken(fixture: bool, ticker: string, attempt: Gdelt.Attempt, sentiments: seq<real>)
    ensures
      var row := GdeltRow(fixture, [ticker], [attempt]);
      && (row.status == RunOk <==> Gdelt.Succeeded(attempt))
      && News.NewsLens(ticker, Some(row.status == RunOk), None, sentiments)
        == News.NewsLens(ticker, None, Some(row), sentiments)
  {
    var row := GdeltRow(fixture, [ticker], [attempt]);
    assert Gdelt.Succeeded([attempt][0]) <==> Gdelt.Succeeded(attempt);
    FailClosedRoundTrip(fixture, [ticker], [attempt], 0, sentiments);
    News.QuietIsNotFailed(ticker, None, Some(row), sentiments);
    News.QuietIsNotFailed(ticker, Some(row.status == RunOk), None, sentiments);
  }

  /** A gdelt stage that raises, or reports anything but ok, silences the news lens of every ticker
      for that day: a failed fetch never reads as neutral. */
  lemma FailedStageSilences(outcome: StageOutcome, newsRow: Option<RunRow>, symbol: string, sentiments: seq<real>)
    requires newsRow == Some(StageRow(outcome))
    ensures News.NewsLens(symbol, None, newsRow, sentiments).Available() ==>
      outcome.StageReturned? && outcome.status == RunOk
  {
    News.QuietIsNotFailed(symbol, None, newsRow, sentiments);
    hide News.ParseFailedTickers, TokenSafe;
  }

  /** And no row at all for the day silences it too. */
  lemma NoRowSilences(symbol: string, sentiments: seq<real>)
    ensures !News.NewsLens(symbol, None, None, sentiments).Available()
  {
  }
}
