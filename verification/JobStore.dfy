/** The Redis-held job store, its operations, and the verdict a finished job carries. */
module JobStore {
  import opened Prelude
  import opened PipelineRuns
  import opened Symbols
  import opened ScoringEngine
  import opened ScoringShape
  import News
  import R = Recommendation

  type RunId = nat

  datatype Status = QUEUED | RUNNING | READY | PARTIAL | FAILED

  datatype Phase = FETCHING | SCORING

  datatype Reason = SourceUnavailable | FetchFailed | TimedOut

  predicate Terminal(s: Status) { s in {READY, PARTIAL, FAILED} }

  predicate Live(s: Status) { s in {QUEUED, RUNNING} }

  /** The job hash. */
  datatype Job = Job(ticker: string, status: Status, phase: Option<Phase>, reason: Option<Reason>,
                     finishedAt: Option<real>)

  datatype Entry = Entry(runId: RunId, ticker: string)

  datatype Store = Store(jobs: map<RunId, Job>, queue: seq<Entry>, active: map<string, RunId>,
                         lastFinished: map<string, real>)

  const EMPTY := Store(map[], [], map[], map[])

  // --- single writes, in the order the code issues them ------------------------------------

  function NewJob(ticker: string): Job { Job(ticker, QUEUED, None, None, None) }

  function PutJob(s: Store, id: RunId, ticker: string): Store { s.(jobs := s.jobs[id := NewJob(ticker)]) }

  function PutPointer(s: Store, ticker: string, id: RunId): Store { s.(active := s.active[ticker := id]) }

  function Push(s: Store, id: RunId, ticker: string): Store { s.(queue := s.queue + [Entry(id, ticker)]) }

  function MarkRunning(s: Store, id: RunId, phase: Phase): Store
    requires id in s.jobs
  {
    s.(jobs := s.jobs[id := s.jobs[id].(status := RUNNING, phase := Some(phase))])
  }

  function FinishHash(s: Store, id: RunId, status: Status, reason: Option<Reason>, now: real): Store
    requires id in s.jobs
  {
    var j := s.jobs[id].(status := status, finishedAt := Some(now));
    s.(jobs := s.jobs[id := if reason.Some? then j.(reason := reason) else j])
  }

  function DropPointer(s: Store, ticker: string): Store { s.(active := s.active - {ticker}) }

  function PutMarker(s: Store, ticker: string, now: real): Store { s.(lastFinished := s.lastFinished[ticker := now]) }

  // --- reads ---------------------------------------------------------------------------------

  function StatusOf(s: Store, id: RunId): Option<Status> {
    if id in s.jobs then Some(s.jobs[id].status) else None
  }

  function ActiveRunId(s: Store, ticker: string): Option<RunId> {
    if ticker !in s.active then None
    else if StatusOf(s, s.active[ticker]) in {Some(QUEUED), Some(RUNNING)} then Some(s.active[ticker])
    else None
  }

  function SecondsSinceLastFinish(s: Store, ticker: string, now: real): Option<real> {
    if ticker in s.lastFinished then Some(now - s.lastFinished[ticker]) else None
  }

  /** The guard of POST /analyze. */
  predicate CoolingDown(s: Store, ticker: string, now: real, cooldown: real) {
    var since := SecondsSinceLastFinish(s, ticker, now);
    since.Some? && since.value < cooldown
  }

  function NextRefreshAt(s: Store, ticker: string, now: real, cooldown: real): Option<real> {
    var since := SecondsSinceLastFinish(s, ticker, now);
    if since.None? || since.value >= cooldown then None else Some(now + (cooldown - since.value))
  }

  /** The advertised time is there exactly while the guard refuses, does not move while the
      clock runs, and is the first instant at which the guard lets the ticker through. */
  lemma RefreshMatchesGuard(s: Store, ticker: string, now: real, later: real, cooldown: real)
    ensures NextRefreshAt(s, ticker, now, cooldown).Some? <==> CoolingDown(s, ticker, now, cooldown)
    ensures NextRefreshAt(s, ticker, now, cooldown).Some? && NextRefreshAt(s, ticker, later, cooldown).Some? ==>
      NextRefreshAt(s, ticker, now, cooldown) == NextRefreshAt(s, ticker, later, cooldown)
    ensures NextRefreshAt(s, ticker, now, cooldown).Some? ==>
      (CoolingDown(s, ticker, later, cooldown) <==> later < NextRefreshAt(s, ticker, now, cooldown).value)
  {
  }

  // --- verdict ----------------------------------------------------------------------------------

  function StatusFor(outcomes: Outcomes, source: Source): RunStatus {
    if source in outcomes then outcomes[source].0 else RunUnavailable
  }

  predicate SomeTimeout(outcomes: Outcomes) {
    exists s :: s in outcomes && News.StartsWith(outcomes[s].1, "timeout")
  }

  predicate SomeStatus(outcomes: Outcomes, status: RunStatus) {
    exists s :: s in outcomes && outcomes[s].0 == status
  }

  function ReasonFromOutcomes(outcomes: Outcomes): Reason {
    if SomeTimeout(outcomes) then TimedOut
    else if SomeStatus(outcomes, RunUnavailable) then SourceUnavailable
    else if SomeStatus(outcomes, RunError) then FetchFailed
    else SourceUnavailable
  }

  /** The category an escaped exception is reduced to. */
  function ReasonFromRaised(e: Raised): Reason {
    match e
    case AdapterUnavailable => SourceUnavailable
    case Timeout => TimedOut
    case _ => FetchFailed
  }

  datatype Verdict = Verdict(status: Status, reason: Option<Reason>)

  /** The in-memory fetch outcome handed to the news lens. */
  function Override(outcomes: Outcomes): bool { StatusFor(outcomes, GdeltNews) == RunOk }

  function Evidence(outcomes: Outcomes): NewsEvidence { NewsEvidence(Some(Override(outcomes)), None) }

  function Conclude(outcomes: Outcomes, facts: TickerFacts, weights: R.Weights): Verdict {
    match ScoreFacts(facts, Evidence(outcomes), weights)
    case Threw(e) => Verdict(FAILED, Some(ReasonFromRaised(e)))
    case Returned(None) => Verdict(FAILED, Some(ReasonFromOutcomes(outcomes)))
    case Returned(Some(r)) =>
      if r.call == R.SUPPRESSED then Verdict(FAILED, Some(ReasonFromOutcomes(outcomes)))
      else if r.missing != [] then Verdict(PARTIAL, None)
      else Verdict(READY, None)
  }

  predicate LegalVerdict(v: Verdict) { Terminal(v.status) && (v.reason.Some? <==> v.status == FAILED) }

  predicate AllAvailable(facts: TickerFacts, ev: NewsEvidence) {
    forall m: R.Module :: Lens(facts, ev, m).Available()
  }

  lemma ScoredMeans(facts: TickerFacts, ev: NewsEvidence, weights: R.Weights)
    ensures
      var scored := ScoreFacts(facts, ev, weights);
      && (scored == Returned(None) ==> !AllAvailable(facts, ev))
      && (scored.Returned? && scored.value.Some? ==>
           && (scored.value.value.call == R.SUPPRESSED <==> |scored.value.value.missing| >= 2)
           && (scored.value.value.missing == [] <==> AllAvailable(facts, ev))
           && scored.value.value.missing == R.Missing(R.MODULES, Lenses(facts, ev)))
  {
    hide Lens, Lenses, R.Missing, R.ComputeRecommendation, Subfields, InputsOf;
    RowTellsTruth(Lenses(facts, ev), weights, Some(InputsOf(facts)), Subfields(facts, ev));
    MissingMembers(R.MODULES, Lenses(facts, ev));
    LensesAreLenses(facts, ev);
    var missing := R.Missing(R.MODULES, Lenses(facts, ev));
    if NothingScoreable(facts, ev) { assert !Lens(facts, ev, R.News).Available(); }
    if missing != [] { assert missing[0] in missing; }
  }

  /** Ready means the scoring produced a row with no lens missing, partial exactly one missing,
      and a reason is given exactly on failure. In particular a job whose gdelt fetch was not ok
      never ends ready. */
  lemma VerdictMeaning(outcomes: Outcomes, facts: TickerFacts, weights: R.Weights)
    ensures
      var v := Conclude(outcomes, facts, weights);
      var scored := ScoreFacts(facts, Evidence(outcomes), weights);
      var row := scored.Returned? && scored.value.Some?;
      var down := |R.Missing(R.MODULES, Lenses(facts, Evidence(outcomes)))|;
      && LegalVerdict(v)
      && (v.status == READY <==> scored.Returned? && AllAvailable(facts, Evidence(outcomes)))
      && (v.status == READY <==> row && down == 0)
      && (v.status == PARTIAL <==> row && down == 1)
      && (v.status == READY ==>
            GdeltNews in outcomes && outcomes[GdeltNews].0 == RunOk && TokenSafe(facts.symbol))
      && (v.status == FAILED ==>
            v.reason == Some(if scored.Threw? then ReasonFromRaised(scored.error) else ReasonFromOutcomes(outcomes)))
  {
    var ev := Evidence(outcomes);
    ScoredMeans(facts, ev, weights);
    AllNeedsNews(facts, ev);
    hide ScoreFacts, AllAvailable, Lenses, R.Missing, ReasonFromOutcomes, ReasonFromRaised;
  }

  lemma AllNeedsNews(facts: TickerFacts, ev: NewsEvidence)
    ensures AllAvailable(facts, ev) ==> News.FetchTrusted(facts.symbol, ev.override, ev.row)
  {
    NewsLensOf(facts, ev);
    News.QuietIsNotFailed(facts.symbol, ev.override, ev.row, facts.sentiments);
    hide Lens;
  }

  lemma NewsLensOf(facts: TickerFacts, ev: NewsEvidence)
    ensures Lens(facts, ev, R.News) == News.NewsLens(facts.symbol, ev.override, ev.row, facts.sentiments)
  {
  }

  /** The message a source writes decides the category: "timeout" is reported exactly when
      some source raised TimeoutError, whatever text the sources or exceptions contain. */
  lemma TimeoutIsFaithful(results: seq<RunnerResult>, outcomes: Outcomes)
    requires |results| == |KNOWN_SOURCES| && outcomes.Keys == set s | s in KNOWN_SOURCES
    requires forall i :: 0 <= i < |KNOWN_SOURCES| ==> outcomes[KNOWN_SOURCES[i]] == RunnerOutcome(results[i])
    ensures ReasonFromOutcomes(outcomes) == TimedOut <==> exists i :: 0 <= i < |results| && results[i].TimesOut?
  {
    forall i | 0 <= i < |results|
      ensures News.StartsWith(outcomes[KNOWN_SOURCES[i]].1, "timeout") <==> results[i].TimesOut?
    {
      MessagePrefix(results[i]);
    }
    if SomeTimeout(outcomes) {
      var s :| s in outcomes && News.StartsWith(outcomes[s].1, "timeout");
      var i :| 0 <= i < |KNOWN_SOURCES| && KNOWN_SOURCES[i] == s;
      assert results[i].TimesOut?;
    }
    if i :| 0 <= i < |results| && results[i].TimesOut? {
      assert KNOWN_SOURCES[i] in outcomes;
    }
  }

  /** The outcomes a job's fetch leaves: one per source, from what its runner did. */
  predicate FetchedAs(results: seq<RunnerResult>, outcomes: Outcomes) {
    && |results| == |KNOWN_SOURCES|
    && outcomes.Keys == (set s | s in KNOWN_SOURCES)
    && forall i :: 0 <= i < |KNOWN_SOURCES| ==>
         KNOWN_SOURCES[i] in outcomes && outcomes[KNOWN_SOURCES[i]] == RunnerOutcome(results[i])
  }

  /** A runner that times out or crashes leaves an error, one that reports leaves its status. */
  predicate Left(r: RunnerResult, status: RunStatus) {
    match r
    case Reports(own, _, _) => status == own
    case TimesOut(_) => status == RunError
    case Crashes(_) => status == RunError
  }

  lemma SomeStatusFrom(results: seq<RunnerResult>, outcomes: Outcomes, status: RunStatus)
    requires FetchedAs(results, outcomes)
    ensures SomeStatus(outcomes, status) <==> exists i :: 0 <= i < |results| && Left(results[i], status)
  {
    if SomeStatus(outcomes, status) {
      var s :| s in outcomes && outcomes[s].0 == status;
      var i :| 0 <= i < |KNOWN_SOURCES| && KNOWN_SOURCES[i] == s;
      assert Left(results[i], status);
    }
    if i :| 0 <= i < |results| && Left(results[i], status) {
      assert KNOWN_SOURCES[i] in outcomes;
    }
  }

  /** It crashed, or reported an error itself. */
  predicate Broke(r: RunnerResult) { r.Crashes? || (r.Reports? && r.status == RunError) }

  /** The category of a job that produced nothing usable, from what its runners did: timeout if
      one timed out, else source_unavailable if one reported itself unavailable or none failed,
      else fetch_failed. */
  lemma OutcomeCategory(results: seq<RunnerResult>, outcomes: Outcomes)
    requires FetchedAs(results, outcomes)
    ensures
      var timedOut := exists i :: 0 <= i < |results| && results[i].TimesOut?;
      var down := exists i :: 0 <= i < |results| && results[i].Reports? && results[i].status == RunUnavailable;
      var failed := exists i :: 0 <= i < |results| && Broke(results[i]);
      && (ReasonFromOutcomes(outcomes) == TimedOut <==> timedOut)
      && (ReasonFromOutcomes(outcomes) == FetchFailed <==> !timedOut && !down && failed)
      && (ReasonFromOutcomes(outcomes) == SourceUnavailable <==> !timedOut && (down || !failed))
  {
    TimeoutIsFaithful(results, outcomes);
    SomeStatusFrom(results, outcomes, RunUnavailable);
    SomeStatusFrom(results, outcomes, RunError);
    hide SomeStatus, SomeTimeout;
    assert forall i :: 0 <= i < |results| ==>
      (Left(results[i], RunUnavailable) <==> results[i].Reports? && results[i].status == RunUnavailable);
    assert forall i :: 0 <= i < |results| ==>
      (Left(results[i], RunError) <==> results[i].TimesOut? || Broke(results[i]));
  }

  /** The category of an exception that escapes the job's try block, wherever it was raised. */
  lemma RaisedCategory(e: Raised, outcomes: Outcomes, weights: R.Weights)
    ensures
      var fetching := CourseVerdict(RaisesFetching(e), weights);
      var scoring := CourseVerdict(RaisesScoring(outcomes, e), weights);
      && fetching == scoring && fetching.status == FAILED && fetching.reason.Some?
      && (fetching.reason.value == SourceUnavailable <==> e.AdapterUnavailable?)
      && (fetching.reason.value == TimedOut <==> e.Timeout?)
      && (fetching.reason.value == FetchFailed <==> !e.AdapterUnavailable? && !e.Timeout?)
  {
  }

  /** A job whose own gdelt runner, the fourth, did anything but report ok never ends ready. */
  lemma OwnFetchDecides(results: seq<RunnerResult>, outcomes: Outcomes, facts: TickerFacts, weights: R.Weights)
    requires FetchedAs(results, outcomes)
    ensures Override(outcomes) <==> results[3].Reports? && results[3].status == RunOk
    ensures Conclude(outcomes, facts, weights).status == READY ==> results[3].Reports? && results[3].status == RunOk
  {
    assert KNOWN_SOURCES[3] == GdeltNews;
    VerdictMeaning(outcomes, facts, weights);
    hide Conclude, ScoreFacts, Lenses, AllAvailable;
  }

  lemma MessagePrefix(r: RunnerResult)
    ensures News.StartsWith(RunnerOutcome(r).1, "timeout") <==> r.TimesOut?
  {
    var text := RunnerOutcome(r).1;
    match r {
      case Reports(_, fixture, body) => assert text[0] == '[';
      case TimesOut(t) => assert text == "timeout" + (": " + t);
      case Crashes(_) => assert text[0] == 'u';
    }
    assert News.StartsWith(text, "timeout") ==> text[..7][0] == 't';
  }

  // --- the request and the job, run without interruption --------------------------------------

  function UpperChar(c: char): char { if 'a' <= c <= 'z' then c - ('a' - 'A') else c }

  /** `str.upper` on the ASCII text the format check lets through. */
  function Upper(s: string): string {
    seq(|s|, i requires 0 <= i < |s| => UpperChar(s[i]))
  }

  /** Upper-casing keeps every character but the small letters, of which none is left, and an
      accepted symbol stays accepted. */
  lemma UpperStaysSafe(s: string)
    ensures TokenSafe(s) ==> TokenSafe(Upper(s))
    ensures |Upper(s)| == |s|
    ensures forall i :: 0 <= i < |s| ==>
      && !('a' <= Upper(s)[i] <= 'z')
      && (if 'a' <= s[i] <= 'z' then Upper(s)[i] as int == s[i] as int - 32 else Upper(s)[i] == s[i])
  {
  }

  datatype Reply =
    | BadRequest
    | ServedReady(nextRefreshAt: Option<real>)
    | Accepted(runId: RunId)
    | PoolFull

  /** What the database says about the ticker when the request reads it. */
  datatype Coverage = Coverage(covered: bool, hasSnapshot: bool, poolSize: nat)

  datatype Settings = Settings(cooldown: real, poolCap: nat)

  datatype Decision = Refuse(reply: Reply) | Mint

  /** The guard order of POST /analyze: short-circuit, coalesce, cooldown, cap, enqueue. */
  function Decide(s: Store, ticker: string, force: bool, cov: Coverage, cfg: Settings, now: real): Decision {
    if cov.covered && cov.hasSnapshot && !force then Refuse(ServedReady(NextRefreshAt(s, ticker, now, cfg.cooldown)))
    else if ActiveRunId(s, ticker).Some? then Refuse(Accepted(ActiveRunId(s, ticker).value))
    else if CoolingDown(s, ticker, now, cfg.cooldown)
    then Refuse(ServedReady(NextRefreshAt(s, ticker, now, cfg.cooldown)))
    else if !cov.covered && cov.poolSize >= cfg.poolCap then Refuse(PoolFull)
    else Mint
  }

  function Enqueued(s: Store, id: RunId, ticker: string): Store {
    Push(PutPointer(PutJob(s, id, ticker), ticker, id), id, ticker)
  }

  function Finished(s: Store, id: RunId, ticker: string, v: Verdict, now: real): Store
    requires id in s.jobs
  {
    PutMarker(DropPointer(FinishHash(s, id, v.status, v.reason, now), ticker), ticker, now)
  }

  /** Where a job's try block is left. */
  datatype JobCourse =
    | RaisesFetching(e: Raised)
    | RaisesScoring(outcomes: Outcomes, e: Raised)
    | Scores(outcomes: Outcomes, facts: TickerFacts)

  function CourseVerdict(c: JobCourse, weights: R.Weights): Verdict {
    match c
    case RaisesFetching(e) => Verdict(FAILED, Some(ReasonFromRaised(e)))
    case RaisesScoring(_, e) => Verdict(FAILED, Some(ReasonFromRaised(e)))
    case Scores(outcomes, facts) => Conclude(outcomes, facts, weights)
  }

  /** The hash of a job after `_finish`. */
  function Ended(j: Job, phase: Option<Phase>, v: Verdict, now: real): Job {
    Job(j.ticker, v.status, phase, if v.reason.Some? then v.reason else j.reason, Some(now))
  }

  function LastPhase(c: JobCourse): Phase { if c.RaisesFetching? then FETCHING else SCORING }

  /** What one turn of the worker does to the store. `poolFails` is a database pool that
      cannot be acquired: the popped job is then failed without ever having run. */
  function WorkedOne(s: Store, poolFails: bool, course: JobCourse, weights: R.Weights, now: real): Store
    requires s.queue != [] && s.queue[0].runId in s.jobs
  {
    var id, t := s.queue[0].runId, s.queue[0].ticker;
    var j := s.jobs[id];
    Store(s.jobs[id := if poolFails then Ended(j, j.phase, Verdict(FAILED, Some(FetchFailed)), now)
                       else Ended(j, Some(LastPhase(course)), CourseVerdict(course, weights), now)],
          s.queue[1..], s.active - {t}, s.lastFinished[t := now])
  }

  class RedisStore {
    var jobs: map<RunId, Job>
    var queue: seq<Entry>
    var active: map<string, RunId>
    var lastFinished: map<string, real>

    constructor ()
      ensures State() == EMPTY
    {
      jobs, queue, active, lastFinished := map[], [], map[], map[];
    }

    function State(): Store
      reads this
    {
      Store(jobs, queue, active, lastFinished)
    }

    /** `enqueue_job`: job hash, pointer, queue. The run id is freshly minted. */
    method EnqueueJob(id: RunId, ticker: string)
      requires id !in jobs
      modifies this
      ensures State() == Enqueued(old(State()), id, ticker)
    {
      jobs := jobs[id := NewJob(ticker)];
      active := active[ticker := id];
      queue := queue + [Entry(id, ticker)];
    }

    method Mark(id: RunId, phase: Phase)
      requires id in jobs
      modifies this
      ensures State() == MarkRunning(old(State()), id, phase)
    {
      jobs := jobs[id := jobs[id].(status := RUNNING, phase := Some(phase))];
    }

    /** `_finish`: job hash, pointer, cooldown marker. */
    method Finish(id: RunId, ticker: string, v: Verdict, now: real)
      requires id in jobs
      modifies this
      ensures State() == Finished(old(State()), id, ticker, v, now)
    {
      var j := jobs[id].(status := v.status, finishedAt := Some(now));
      if v.reason.Some? { j := j.(reason := v.reason); }
      jobs := jobs[id := j];
      active := active - {ticker};
      lastFinished := lastFinished[ticker := now];
    }

    /** POST /analyze without interruption. The ticker comes validated and upper-cased; a
        malformed one changes nothing. */
    method Analyze(raw: string, force: bool, cov: Coverage, cfg: Settings, now: real, freshId: RunId)
      returns (reply: Reply)
      requires freshId !in jobs
      modifies this
      ensures !TokenSafe(raw) ==> reply == BadRequest && State() == old(State())
      ensures TokenSafe(raw) ==>
        match Decide(old(State()), Upper(raw), force, cov, cfg, now)
        case Refuse(r) => reply == r && State() == old(State())
        case Mint => reply == Accepted(freshId) && State() == Enqueued(old(State()), freshId, Upper(raw))
      // a covered ticker with a snapshot is served as it is, unless forced
      ensures TokenSafe(raw) && cov.covered && cov.hasSnapshot && !force ==> reply.ServedReady?
      // otherwise it is served as ready exactly while it cools down with no live job
      ensures TokenSafe(raw) && !(cov.covered && cov.hasSnapshot && !force) ==>
        var t, last := Upper(raw), old(lastFinished);
        var live := t in old(active) && old(active)[t] in old(jobs) && Live(old(jobs)[old(active)[t]].status);
        var cooling := t in last && now - last[t] < cfg.cooldown;
        var full := !cov.covered && cov.poolSize >= cfg.poolCap;
        && (live <==> (reply.Accepted? && reply.runId != freshId))
        && (live ==> reply == Accepted(old(active)[t]))
        && (reply.ServedReady? <==> !live && cooling)
        && (reply.PoolFull? <==> !live && !cooling && full)
        && (reply == Accepted(freshId) <==> !live && !cooling && !full)
      // a run id handed out is that of a live job; without a new one nothing changes
      ensures reply.Accepted? ==> reply.runId in jobs && Live(jobs[reply.runId].status)
      ensures reply != Accepted(freshId) ==> State() == old(State())
      // the time that goes with "ready" is there exactly while the cooldown runs, and is its end
      ensures reply.ServedReady? ==>
        var t, last := Upper(raw), old(lastFinished);
        && (reply.nextRefreshAt.Some? <==> t in last && now - last[t] < cfg.cooldown)
        && (reply.nextRefreshAt.Some? ==> reply.nextRefreshAt.value == last[t] + cfg.cooldown)
    {
      if !TokenSafe(raw) { return BadRequest; }
      var ticker := Upper(raw);
      if cov.covered && cov.hasSnapshot && !force {
        return ServedReady(NextRefreshAt(State(), ticker, now, cfg.cooldown));
      }
      var existing := ActiveRunId(State(), ticker);
      if existing.Some? { return Accepted(existing.value); }
      var since := SecondsSinceLastFinish(State(), ticker, now);
      if since.Some? && since.value < cfg.cooldown {
        return ServedReady(NextRefreshAt(State(), ticker, now, cfg.cooldown));
      }
      if !cov.covered && cov.poolSize >= cfg.poolCap { return PoolFull; }
      EnqueueJob(freshId, ticker);
      return Accepted(freshId);
    }

    /** `run_job` without interruption: whatever happens, the job ends in its verdict, the
        pointer is gone and the cooldown starts. */
    method RunJob(id: RunId, ticker: string, course: JobCourse, weights: R.Weights, now: real)
      requires id in jobs
      modifies this
      ensures queue == old(queue)
      ensures
        var end := Ended(old(jobs)[id], Some(LastPhase(course)), CourseVerdict(course, weights), now);
        jobs == old(jobs)[id := end]
      ensures active == old(active) - {ticker}
      ensures lastFinished == old(lastFinished)[ticker := now]
    {
      hide Conclude;
      Mark(id, FETCHING);
      match course {
        case RaisesFetching(e) =>
          Finish(id, ticker, Verdict(FAILED, Some(ReasonFromRaised(e))), now);
        case RaisesScoring(_, e) =>
          Mark(id, SCORING);
          Finish(id, ticker, Verdict(FAILED, Some(ReasonFromRaised(e))), now);
        case Scores(outcomes, facts) =>
          Mark(id, SCORING);
          Finish(id, ticker, Conclude(outcomes, facts, weights), now);
      }
    }

    /** One turn of the worker loop. */
    method WorkOne(poolFails: bool, course: JobCourse, weights: R.Weights, now: real) returns (did: Option<RunId>)
      requires queue != [] ==> queue[0].runId in jobs
      modifies this
      ensures old(queue) == [] ==> did == None && State() == old(State())
      ensures old(queue) != [] ==>
        did == Some(old(queue)[0].runId) && State() == WorkedOne(old(State()), poolFails, course, weights, now)
    {
      hide Conclude;
      if queue == [] { return None; }
      var e := queue[0];
      queue := queue[1..];
      if poolFails {
        Finish(e.runId, e.ticker, Verdict(FAILED, Some(FetchFailed)), now);
      } else {
        RunJob(e.runId, e.ticker, course, weights, now);
      }
      return Some(e.runId);
    }
  }
}
