/** News lens: the fetch outcome decides availability before any headline is read. */
module News {
  import opened Prelude
  import opened LensSignal
  import opened Symbols
  import opened PipelineRuns

  const SENTIMENT_SCALE := 2.0

  predicate StartsWith(s: string, prefix: string) {
    |prefix| <= |s| && s[..|prefix|] == prefix
  }

  /** `failed_tickers=(\S+)` matches at the front of s. */
  predicate MatchesHere(s: string) {
    StartsWith(s, TOKEN) && |s| > |TOKEN| && !IsSpace(s[|TOKEN|])
  }

  /** The longest run without white space at the front of s. */
  function Run(s: string): string {
    if s == "" || IsSpace(s[0]) then "" else [s[0]] + Run(s[1..])
  }

  /** Group 1 of the leftmost match, if any. */
  function SearchToken(s: string): Option<string> {
    if MatchesHere(s) then Some(Run(s[|TOKEN|..]))
    else if s == "" then None
    else SearchToken(s[1..])
  }

  function ParseFailedTickers(message: Option<string>): set<string> {
    var text := if message.None? then "" else message.value;
    match SearchToken(text)
    case None => {}
    case Some(group) => set s | s in Split(group) && s != ""
  }

  function NewsScore(sentiments: seq<real>): ModuleSignal {
    if sentiments == [] then Ok(0.0) else Ok(ClampSignal(Mean(sentiments) * SENTIMENT_SCALE))
  }

  /** May the lens read the day's headlines at all? `override` is the outcome an on-demand
      run observed itself (true for 'ok'); otherwise the scheduled gdelt row of the day is
      the evidence. */
  predicate FetchTrusted(symbol: string, override: Option<bool>, row: Option<RunRow>) {
    && TokenSafe(symbol)
    && match override
       case Some(ok) => ok
       case None =>
         && row.Some?
         && row.value.status == RunOk
         && symbol !in ParseFailedTickers(row.value.message)
  }

  function NewsLens(symbol: string, override: Option<bool>, row: Option<RunRow>, sentiments: seq<real>): ModuleSignal {
    if FetchTrusted(symbol, override, row) then NewsScore(sentiments) else Unavailable
  }

  /** A quiet week is a real observation: available and neutral. A failed fetch never is. */
  lemma QuietIsNotFailed(symbol: string, override: Option<bool>, row: Option<RunRow>, sentiments: seq<real>)
    ensures NewsLens(symbol, override, row, sentiments).Available() <==> FetchTrusted(symbol, override, row)
    ensures NewsLens(symbol, override, row, []).signal
         == if FetchTrusted(symbol, override, row) then Some(0.0) else None
    ensures NewsLens(symbol, override, row, sentiments).InRange()
  {
  }

  /** VADER compounds lie in [-1, 1]: the clamp never bites, so the lens is exactly twice
      the mean sentiment. */
  lemma ScoreIsTwiceTheMean(sentiments: seq<real>)
    requires sentiments != [] && forall i :: 0 <= i < |sentiments| ==> -1.0 <= sentiments[i] <= 1.0
    ensures NewsScore(sentiments).signal == Some(2.0 * Mean(sentiments))
  {
    MeanBounds(sentiments, -1.0, 1.0);
    hide Mean;
  }

  // --- searching for the token -----------------------------------------------------------

  lemma TokenShowsUnderscore(s: string)
    ensures StartsWith(s, TOKEN) ==> |s| > 6 && s[6] == '_'
  {
    if StartsWith(s, TOKEN) {
      assert s[6] == s[..|TOKEN|][6];
    }
  }

  /** Text without an underscore cannot contain the token. */
  lemma {:induction false} SearchMisses(s: string)
    requires Lacks(s, '_')
    ensures SearchToken(s) == None
  {
    TokenShowsUnderscore(s);
    if s != "" { SearchMisses(s[1..]); }
  }

  lemma {:induction false} RunIsAll(s: string)
    requires NoSpace(s)
    ensures Run(s) == s
  {
    if s != "" { RunIsAll(s[1..]); }
  }

  /** The only match in `before + TOKEN + group` is the token that was put there. */
  lemma {:induction false} SearchFinds(before: string, group: string)
    requires Lacks(before, '_') && group != "" && NoSpace(group)
    ensures SearchToken(before + TOKEN + group) == Some(group)
  {
    var s := before + TOKEN + group;
    if before == "" {
      assert s[..|TOKEN|] == TOKEN && s[|TOKEN|..] == group;
      RunIsAll(group);
    } else {
      assert s[6] != '_' by {
        if |before| <= 6 { assert s[6] == TOKEN[6 - |before|]; } else { assert s[6] == before[6]; }
      }
      TokenShowsUnderscore(s);
      assert s[1..] == before[1..] + TOKEN + group;
      SearchFinds(before[1..], group);
    }
  }
}
