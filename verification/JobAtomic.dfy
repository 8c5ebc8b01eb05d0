/** Requests and `_finish` taken as single steps, as the documentation describes them: that
    machine is refined by exclusive runs of the interleaved one, so its promises are theorems. */
module JobAtomic {
  import opened Prelude
  import opened PipelineRuns
  import opened JobStore
  import opened JobProtocol
  import opened JobExclusive

  datatype Act =
    | Ask(ticker: string, force: bool, cov: Coverage, id: RunId)
    | Wait(dt: real)
    | Turn(e: Event)        // a step of the worker before the verdict is written
    | FinishJob

  predicate BeforeVerdict(e: Event) {
    e.Pop? || e.PoolFails? || e.StartFetching? || e.Raise? || e.StartScoring? || e.Judge?
  }

  function Minted(s: State, id: RunId, t: string): State {
    s.(store := Enqueued(s.store, id, t), pushed := s.pushed + [id])
  }

  /** One step; `handlers` plays no part here. */
  function Step(cfg: Settings, s: State, a: Act): Option<State> {
    match a
    case Ask(t, force, cov, id) =>
      if id in s.store.jobs then None
      else if Decide(s.store, t, force, cov, cfg, s.now).Mint?
      then Some(Minted(s, id, t))
      else Some(s)
    case Wait(dt) => if dt >= 0.0 then Some(s.(now := s.now + dt)) else None
    case Turn(e) => if BeforeVerdict(e) then Work(s, e) else None
    case FinishJob =>
      if s.worker.Finishing? && s.worker.id in s.store.jobs
      then Some(s.(store := Finished(s.store, s.worker.id, s.worker.ticker, s.worker.verdict, s.now), worker := Idle))
      else None
  }

  function Steps(cfg: Settings, s: State, acts: seq<Act>): Option<State> {
    if acts == [] then Some(s)
    else
      match Steps(cfg, s, acts[..|acts| - 1])
      case None => None
      case Some(mid) => Step(cfg, mid, Last(acts))
  }

  // --- the events behind one step -------------------------------------------------------------

  predicate Full(cov: Coverage, cfg: Settings) { !cov.covered && cov.poolSize >= cfg.poolCap }

  predicate ShortCircuits(force: bool, cov: Coverage) { cov.covered && cov.hasSnapshot && !force }

  /** Arrival and the coalesce guard. */
  function Opening(s: State, t: string): seq<Event> {
    [Arrive(t), GetPointer(|s.handlers|)] + if t in s.store.active then [GetStatus(|s.handlers|)] else []
  }

  /** The three writes of `enqueue_job`. */
  function Enqueueing(h: nat, id: RunId): seq<Event> { [HashJob(h, id), SetPointer(h), PushQueue(h)] }

  function AskEvents(cfg: Settings, s: State, t: string, full: bool, id: RunId): seq<Event> {
    var h := |s.handlers|;
    if ActiveRunId(s.store, t).Some? then Opening(s, t)
    else if CoolingDown(s.store, t, s.now, cfg.cooldown) then Opening(s, t) + [GetMarker(h)]
    else if full then Opening(s, t) + [GetMarker(h)] + [RefuseFull(h)]
    else Opening(s, t) + [GetMarker(h)] + Enqueueing(h, id)
  }

  // --- running events one after the other -----------------------------------------------------

  /** All requests answered, and the worker not between a verdict and its marker. */
  ghost predicate Calm(s: State) {
    && (forall i :: 0 <= i < |s.handlers| ==> s.handlers[i].Answered?)
    && !s.worker.PointerLeft? && !s.worker.MarkerLeft?
  }

  function With(s: State, h: Handler): State { s.(handlers := s.handlers + [h]) }

  /** The event `e` takes the last request from `from` to `to`, all others being answered. */
  lemma MoveLast(cooldown: real, s: State, events: seq<Event>, mid: State, from: Handler, e: Event, next: State,
                 to: Handler)
    requires ExclusiveRun(cooldown, s, events) && Exec(cooldown, s, events) == Some(With(mid, from))
    requires Calm(next) && Apply(cooldown, With(mid, from), e) == Some(With(next, to))
    ensures ExclusiveRun(cooldown, s, events + [e])
    ensures Exec(cooldown, s, events + [e]) == Some(With(next, to))
  {
    assert Exclusive(With(next, to)) by { hide Apply; }
    Advance(Exclusive, cooldown, s, events, e, With(next, to));
  }

  lemma LastMoves(s: State, from: Handler, to: Handler)
    ensures Moved(With(s, from), |s.handlers|, to) == With(s, to)
  {
    assert (s.handlers + [from])[|s.handlers| := to] == s.handlers + [to];
  }

  lemma Opens(cooldown: real, s: State, t: string)
    requires Calm(s)
    ensures ExclusiveRun(cooldown, s, Opening(s, t))
    ensures
      var found := ActiveRunId(s.store, t);
      Exec(cooldown, s, Opening(s, t))
        == Some(With(s, if found.Some? then Answered(t, Coalesced(found.value)) else ReadMarker(t)))
  {
    var h := |s.handlers|;
    Advance(Exclusive, cooldown, s, [], Arrive(t), With(s, ReadPointer(t)));
    var read := if t in s.store.active then ReadStatus(t, s.store.active[t]) else ReadMarker(t);
    LastMoves(s, ReadPointer(t), read);
    MoveLast(cooldown, s, [] + [Arrive(t)], s, ReadPointer(t), GetPointer(h), s, read);
    assert [] + [Arrive(t)] + [GetPointer(h)] == [Arrive(t), GetPointer(h)];
    if t in s.store.active {
      var found := ActiveRunId(s.store, t);
      var to := if found.Some? then Answered(t, Coalesced(found.value)) else ReadMarker(t);
      LastMoves(s, read, to);
      MoveLast(cooldown, s, [Arrive(t), GetPointer(h)], s, read, GetStatus(h), s, to);
    } else {
      assert Opening(s, t) == [Arrive(t), GetPointer(h)];
    }
  }

  lemma Enqueues(cooldown: real, s: State, events: seq<Event>, t: string, id: RunId)
    requires Calm(s) && id !in s.store.jobs
    requires ExclusiveRun(cooldown, s, events) && Exec(cooldown, s, events) == Some(With(s, Cleared(t)))
    ensures ExclusiveRun(cooldown, s, events + Enqueueing(|s.handlers|, id))
    ensures Exec(cooldown, s, events + Enqueueing(|s.handlers|, id))
            == Some(With(Minted(s, id, t), Answered(t, Queued(id))))
  {
    var h := |s.handlers|;
    var hashed := s.(store := PutJob(s.store, id, t));
    var pointed := hashed.(store := PutPointer(hashed.store, t, id));
    LastMoves(s, Cleared(t), Hashed(t, id));
    MoveLast(cooldown, s, events, s, Cleared(t), HashJob(h, id), hashed, Hashed(t, id));
    LastMoves(hashed, Hashed(t, id), Pointed(t, id));
    MoveLast(cooldown, s, events + [HashJob(h, id)], hashed, Hashed(t, id), SetPointer(h), pointed, Pointed(t, id));
    LastMoves(pointed, Pointed(t, id), Answered(t, Queued(id)));
    MoveLast(cooldown, s, events + [HashJob(h, id)] + [SetPointer(h)], pointed, Pointed(t, id), PushQueue(h),
             Minted(s, id, t), Answered(t, Queued(id)));
    assert events + [HashJob(h, id)] + [SetPointer(h)] + [PushQueue(h)] == events + Enqueueing(h, id);
  }

  /** What the interleaved handler answers when the guards decide `d`. */
  predicate Answers(d: Decision, r: HandlerReply, id: RunId) {
    match d
    case Mint => r == Queued(id)
    case Refuse(Accepted(existing)) => r == Coalesced(existing)
    case Refuse(ServedReady(_)) => r == Cooling
    case Refuse(PoolFull) => r == NoRoom
    case Refuse(BadRequest) => false
  }

  /** `n` is `c` but for the requests, all of which are answered. */
  ghost predicate Same(n: State, c: State) {
    Calm(n) && n.(handlers := c.handlers) == c
  }

  /** After the coalesce guard found nothing. */
  lemma GuardsOn(cfg: Settings, s: State, events: seq<Event>, t: string, full: bool, id: RunId)
    requires Calm(s) && id !in s.store.jobs
    requires ExclusiveRun(cfg.cooldown, s, events) && Exec(cfg.cooldown, s, events) == Some(With(s, ReadMarker(t)))
    ensures
      var h := |s.handlers|;
      if CoolingDown(s.store, t, s.now, cfg.cooldown) then
        Reaches(cfg.cooldown, s, events + [GetMarker(h)], With(s, Answered(t, Cooling)))
      else if full then
        Reaches(cfg.cooldown, s, events + [GetMarker(h)] + [RefuseFull(h)], With(s, Answered(t, NoRoom)))
      else
        Reaches(cfg.cooldown, s, events + [GetMarker(h)] + Enqueueing(h, id),
                With(Minted(s, id, t), Answered(t, Queued(id))))
  {
    var k, h := cfg.cooldown, |s.handlers|;
    var cooling := CoolingDown(s.store, t, s.now, k);
    var to := if cooling then Answered(t, Cooling) else Cleared(t);
    LastMoves(s, ReadMarker(t), to);
    MoveLast(k, s, events, s, ReadMarker(t), GetMarker(h), s, to);
    if !cooling && full {
      LastMoves(s, Cleared(t), Answered(t, NoRoom));
      MoveLast(k, s, events + [GetMarker(h)], s, Cleared(t), RefuseFull(h), s, Answered(t, NoRoom));
    } else if !cooling {
      Enqueues(k, s, events + [GetMarker(h)], t, id);
    }
    hide Exec, ExclusiveRun, Apply, CoolingDown;
  }

  ghost predicate Reaches(cooldown: real, s: State, events: seq<Event>, n: State) {
    ExclusiveRun(cooldown, s, events) && Exec(cooldown, s, events) == Some(n)
  }

  /** A request left undisturbed does exactly what its guards decide on the state it found. */
  lemma AskIsAtomic(cfg: Settings, s: State, t: string, force: bool, cov: Coverage, id: RunId)
    returns (reply: HandlerReply)
    requires Calm(s) && id !in s.store.jobs && !ShortCircuits(force, cov)
    ensures Answers(Decide(s.store, t, force, cov, cfg, s.now), reply, id)
    ensures Reaches(cfg.cooldown, s, AskEvents(cfg, s, t, Full(cov, cfg), id),
                    With(Step(cfg, s, Ask(t, force, cov, id)).value, Answered(t, reply)))
  {
    Opens(cfg.cooldown, s, t);
    hide Exec, ExclusiveRun, Apply;
    var found := ActiveRunId(s.store, t);
    if found.Some? {
      reply := Coalesced(found.value);
    } else {
      GuardsOn(cfg, s, Opening(s, t), t, Full(cov, cfg), id);
      hide ActiveRunId, Opening, CoolingDown;
      reply := if CoolingDown(s.store, t, s.now, cfg.cooldown) then Cooling else if Full(cov, cfg) then NoRoom
        else Queued(id);
    }
  }

  /** The three writes of `_finish`, one at a time. */
  lemma FinishWrites(k: real, s: State) returns (written: State, deleted: State)
    requires Calm(s) && s.worker.Finishing? && s.worker.id in s.store.jobs
    ensures Apply(k, s, WriteVerdict) == Some(written) && written.handlers == s.handlers
    ensures Apply(k, written, DeletePointer) == Some(deleted) && deleted.handlers == s.handlers
    ensures
      var v := s.worker.verdict;
      Apply(k, deleted, WriteMarker)
      == Some(s.(store := Finished(s.store, s.worker.id, s.worker.ticker, v, s.now), worker := Idle))
  {
    written := Apply(k, s, WriteVerdict).value;
    deleted := Apply(k, written, DeletePointer).value;
  }

  lemma ThreeEvents(p: State -> bool, k: real, s: State, a: Event, s1: State, b: Event, s2: State, c: Event, s3: State)
    requires Apply(k, s, a) == Some(s1) && Apply(k, s1, b) == Some(s2) && Apply(k, s2, c) == Some(s3)
    requires p(s) && p(s1) && p(s2) && p(s3)
    ensures Throughout(p, k, s, [a, b, c]) && Exec(k, s, [a, b, c]) == Some(s3)
  {
    assert Throughout(p, k, s, []) && Exec(k, s, []) == Some(s);
    hide Apply, Exec, Throughout;
    Advance(p, k, s, [], a, s1);
    Advance(p, k, s, [] + [a], b, s2);
    Advance(p, k, s, [] + [a] + [b], c, s3);
    assert [] + [a] + [b] + [c] == [a, b, c];
  }

  /** Along the way no request is passing, and the end is that of the atomic step. */
  lemma FinishStates(cfg: Settings, s: State, written: State, deleted: State)
    requires Calm(s) && s.worker.Finishing? && s.worker.id in s.store.jobs
    requires written.handlers == s.handlers && deleted.handlers == s.handlers
    requires Apply(cfg.cooldown, deleted, WriteMarker)
          == Some(s.(store := Finished(s.store, s.worker.id, s.worker.ticker, s.worker.verdict, s.now), worker := Idle))
    ensures
      var marked := Apply(cfg.cooldown, deleted, WriteMarker).value;
      && Exclusive(s) && Exclusive(written) && Exclusive(deleted) && Exclusive(marked)
      && Same(marked, Step(cfg, s, FinishJob).value)
  {
    hide Apply, Finished;
  }

  lemma FinishIsAtomic(cfg: Settings, s: State)
    requires Calm(s) && s.worker.Finishing? && s.worker.id in s.store.jobs
    ensures
      var events := [WriteVerdict, DeletePointer, WriteMarker];
      && ExclusiveRun(cfg.cooldown, s, events)
      && Same(Exec(cfg.cooldown, s, events).value, Step(cfg, s, FinishJob).value)
  {
    hide Apply, Exclusive, Exec, Throughout, Finished, Calm;
    var k := cfg.cooldown;
    var written, deleted := FinishWrites(k, s);
    FinishStates(cfg, s, written, deleted);
    var marked := Apply(k, deleted, WriteMarker).value;
    ThreeEvents(Exclusive, k, s, WriteVerdict, written, DeletePointer, deleted, WriteMarker, marked);
  }

  // --- one turn of the worker -------------------------------------------------------------------

  function Then(s: Option<State>, e: Event): Option<State> {
    match s
    case None => None
    case Some(mid) => Work(mid, e)
  }

  /** The worker's events from the pop up to the verdict, one after the other. */
  function TurnOf(s: State, poolFails: bool, course: JobCourse, weights: R.Weights): Option<State> {
    var popped := Work(s, Pop);
    var fetching := Then(popped, StartFetching);
    if poolFails then Then(popped, PoolFails)
    else
      match course
      case RaisesFetching(e) => Then(fetching, Raise(e))
      case RaisesScoring(outcomes, e) => Then(Then(fetching, StartScoring(outcomes)), Raise(e))
      case Scores(outcomes, facts) => Then(Then(fetching, StartScoring(outcomes)), Judge(facts, weights))
  }

  /** The state in which the worker is about to write its verdict. */
  function BeforeFinish(s: State, poolFails: bool, course: JobCourse, weights: R.Weights): State
    requires s.store.queue != [] && s.store.queue[0].runId in s.store.jobs
  {
    var id, t := s.store.queue[0].runId, s.store.queue[0].ticker;
    var popped := s.store.(queue := s.store.queue[1..]);
    if poolFails then
      s.(store := popped, started := s.started + [id], worker := Finishing(id, t, Verdict(FAILED, Some(FetchFailed))))
    else
      var running := popped.jobs[id].(status := RUNNING, phase := Some(LastPhase(course)));
      s.(store := popped.(jobs := popped.jobs[id := running]),
         started := s.started + [id],
         worker := Finishing(id, t, CourseVerdict(course, weights)),
         newsOk := if !course.RaisesFetching? && Override(course.outcomes) then s.newsOk + {id} else s.newsOk)
  }

  /** The job's hash is rewritten in place. */
  lemma Rewritten(jobs: map<RunId, Job>, id: RunId, a: Job, b: Job)
    ensures jobs[id := a][id := b] == jobs[id := b]
  {
  }

  lemma ReachesScoring(s: State, outcomes: Outcomes)
    requires s.worker.Idle? && s.store.queue != [] && s.store.queue[0].runId in s.store.jobs
    ensures
      var id, t := s.store.queue[0].runId, s.store.queue[0].ticker;
      var j := s.store.jobs[id].(status := RUNNING, phase := Some(SCORING));
      Then(Then(Work(s, Pop), StartFetching), StartScoring(outcomes))
      == Some(s.(store := s.store.(queue := s.store.queue[1..], jobs := s.store.jobs[id := j]),
                 started := s.started + [id], worker := Scoring(id, t, outcomes),
                 newsOk := if Override(outcomes) then s.newsOk + {id} else s.newsOk))
  {
    var id := s.store.queue[0].runId;
    var j := s.store.jobs[id];
    Rewritten(s.store.jobs, id, j.(status := RUNNING, phase := Some(FETCHING)),
              j.(status := RUNNING, phase := Some(SCORING)));
  }

  lemma TurnReaches(s: State, poolFails: bool, course: JobCourse, weights: R.Weights)
    requires s.worker.Idle? && s.store.queue != [] && s.store.queue[0].runId in s.store.jobs
    requires course.Scores? ==> course.facts.symbol == s.store.queue[0].ticker
    ensures TurnOf(s, poolFails, course, weights) == Some(BeforeFinish(s, poolFails, course, weights))
  {
    hide Conclude;
    if !poolFails && !course.RaisesFetching? { ReachesScoring(s, course.outcomes); }
  }

  /** The worker's turn, event by event, does to the store what `RedisStore.WorkOne` does. */
  lemma TurnIsWorkOne(cfg: Settings, s: State, poolFails: bool, course: JobCourse, weights: R.Weights)
    requires s.worker.Idle? && s.store.queue != [] && s.store.queue[0].runId in s.store.jobs
    requires course.Scores? ==> course.facts.symbol == s.store.queue[0].ticker
    ensures
      var n := TurnOf(s, poolFails, course, weights);
      && n.Some? && Step(cfg, n.value, FinishJob).Some?
      && Step(cfg, n.value, FinishJob).value.store == WorkedOne(s.store, poolFails, course, weights, s.now)
      && Step(cfg, n.value, FinishJob).value.worker.Idle?
  {
    hide Conclude, TurnOf, ReasonFromRaised;
    TurnReaches(s, poolFails, course, weights);
    var id := s.store.queue[0].runId;
    var n := BeforeFinish(s, poolFails, course, weights);
    Rewritten(s.store.jobs, id, n.store.jobs[id], WorkedOne(s.store, poolFails, course, weights, s.now).jobs[id]);
  }

  // --- whole runs -----------------------------------------------------------------------------

  lemma StepIgnoresRequests(cfg: Settings, n: State, c: State, a: Act)
    requires Same(n, c) && Step(cfg, c, a).Some?
    ensures Step(cfg, n, a).Some?
    ensures Step(cfg, n, a).value.handlers == n.handlers
    ensures Step(cfg, n, a).value.(handlers := c.handlers) == Step(cfg, c, a).value
    ensures !Step(cfg, n, a).value.worker.PointerLeft? && !Step(cfg, n, a).value.worker.MarkerLeft?
  {
    hide Conclude, Decide, Enqueued, FinishHash;
  }

  /** The events behind one atomic step, from any calm state. */
  lemma StepIsExclusive(cfg: Settings, n: State, c: State, a: Act) returns (events: seq<Event>, m: State)
    requires Same(n, c) && Step(cfg, c, a).Some?
    ensures Reaches(cfg.cooldown, n, events, m) && Same(m, Step(cfg, c, a).value)
  {
    StepIgnoresRequests(cfg, n, c, a);
    m := Step(cfg, n, a).value;
    match a {
      case Ask(t, force, cov, id) =>
        if ShortCircuits(force, cov) {
          events := [];
        } else {
          var reply := AskIsAtomic(cfg, n, t, force, cov, id);
          events, m := AskEvents(cfg, n, t, Full(cov, cfg), id), With(m, Answered(t, reply));
        }
      case Wait(dt) =>
        events := [] + [Tick(dt)];
        Advance(Exclusive, cfg.cooldown, n, [], Tick(dt), m);
      case Turn(e) =>
        events := [] + [e];
        Advance(Exclusive, cfg.cooldown, n, [], e, m);
      case FinishJob =>
        events := [WriteVerdict, DeletePointer, WriteMarker];
        FinishIsAtomic(cfg, n);
        m := Exec(cfg.cooldown, n, events).value;
    }
    hide Step, Apply, AskEvents, Enqueued;
  }

  /** Refinement: every run of atomic steps is an exclusive run of the interleaved machine that
      reaches the same store, worker and clock. */
  lemma {:induction false} AtomicIsExclusive(cfg: Settings, acts: seq<Act>) returns (events: seq<Event>, n: State)
    requires Steps(cfg, INIT, acts).Some?
    ensures Reaches(cfg.cooldown, INIT, events, n) && Same(n, Steps(cfg, INIT, acts).value)
  {
    if acts == [] {
      events, n := [], INIT;
    } else {
      var before := acts[..|acts| - 1];
      var first, mid := AtomicIsExclusive(cfg, before);
      var second, last := StepIsExclusive(cfg, mid, Steps(cfg, INIT, before).value, Last(acts));
      ThroughoutCat(Exclusive, cfg.cooldown, INIT, first, second);
      events, n := first + second, last;
      hide Step, Exec, Same, ExclusiveRun;
    }
  }

  /** With requests and `_finish` atomic, after every run: a ticker has at most one live job;
      the coalesce guard finds that job exactly when there is one; and a request mints a job,
      forced or not, only if every earlier job of the ticker ended at least a cooldown ago. */
  lemma AtomicPromises(cfg: Settings, acts: seq<Act>, t: string, force: bool, cov: Coverage)
    requires Steps(cfg, INIT, acts).Some?
    ensures
      var s := Steps(cfg, INIT, acts).value;
      && OneLive(s)
      && (forall id: RunId :: ActiveRunId(s.store, t) == Some(id) <==> LiveJob(s, id, t))
      && (Decide(s.store, t, force, cov, cfg, s.now).Mint? ==> Rested(cfg.cooldown, s, t))
  {
    var events, n := AtomicIsExclusive(cfg, acts);
    var s := Steps(cfg, INIT, acts).value;
    ThroughoutMono(Exclusive, Guarded, cfg.cooldown, INIT, events);
    GuardedRunsKeepOne(cfg.cooldown, events);
    RunKeepsTimes(cfg.cooldown, events);
    hide Steps, Exec, ExclusiveRun;
    CalmPromises(cfg.cooldown, n, t);
    SamePromises(cfg.cooldown, n, s, t);
    hide Inv, OneInv, TimesOk, Rested, OneLive, Same, ActiveRunId, CoolingDown;
  }

  lemma SamePromises(cooldown: real, n: State, s: State, t: string)
    requires Same(n, s)
    ensures n.store == s.store && n.now == s.now
    ensures OneLive(n) ==> OneLive(s)
    ensures Rested(cooldown, n, t) ==> Rested(cooldown, s, t)
    ensures forall id: RunId :: LiveJob(n, id, t) <==> LiveJob(s, id, t)
  {
    assert forall id: RunId :: LiveJob(n, id, t) <==> LiveJob(s, id, t);
    if NoneLive(n, t) {
      forall id ensures !LiveJob(s, id, t) { assert !LiveJob(n, id, t); }
    }
    if OneLive(n) {
      forall a, b, u | LiveJob(s, a, u) && LiveJob(s, b, u) ensures a == b {
        assert LiveJob(n, a, u) && LiveJob(n, b, u);
      }
    }
  }

  lemma CalmPromises(cooldown: real, s: State, t: string)
    requires Calm(s) && Inv(s) && OneInv(s) && TimesOk(s)
    ensures forall id: RunId :: ActiveRunId(s.store, t) == Some(id) <==> LiveJob(s, id, t)
    ensures ActiveRunId(s.store, t).None? && !CoolingDown(s.store, t, s.now, cooldown) ==> Rested(cooldown, s, t)
  {
    forall id: RunId ensures ActiveRunId(s.store, t) == Some(id) <==> LiveJob(s, id, t) {
      hide MintsOk, QueueOk, StartedOk, ReadyOk, RepliesOk, PointerDue;
    }
    forall id | id in s.store.jobs && s.store.jobs[id].ticker == t && !LiveJob(s, id, t) ensures Marked(s, id) {
    }
  }

  /** What the client is told. */
  function ReplyOf(d: Decision, id: RunId): Reply {
    match d
    case Refuse(reply) => reply
    case Mint => Accepted(id)
  }

  /** After every atomic run, a run id a request is given names the one live job of its ticker
      in the store the request leaves behind. */
  lemma AcceptedIsLive(cfg: Settings, acts: seq<Act>, t: string, force: bool, cov: Coverage, id: RunId)
    requires Steps(cfg, INIT, acts).Some? && id !in Steps(cfg, INIT, acts).value.store.jobs
    ensures
      var s := Steps(cfg, INIT, acts).value;
      var n := Step(cfg, s, Ask(t, force, cov, id));
      var reply := ReplyOf(Decide(s.store, t, force, cov, cfg, s.now), id);
      && n.Some?
      && (reply.Accepted? ==>
            && LiveJob(n.value, reply.runId, t)
            && forall other :: LiveJob(n.value, other, t) ==> other == reply.runId)
  {
    var s := Steps(cfg, INIT, acts).value;
    var a := Ask(t, force, cov, id);
    assert (acts + [a])[..|acts + [a]| - 1] == acts;
    AtomicPromises(cfg, acts, t, force, cov);
    AtomicPromises(cfg, acts + [a], t, force, cov);
    hide Rested, Steps;
    var n := Step(cfg, s, a).value;
    var reply := ReplyOf(Decide(s.store, t, force, cov, cfg, s.now), id);
    if reply.Accepted? {
      assert LiveJob(n, reply.runId, t);
    }
  }
}
