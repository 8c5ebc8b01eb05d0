/** The on-demand protocol as an interleaving of single store operations: any number of
    request handlers, each split at its awaits, and one worker.

    `started` and `pushed` record the order in which jobs left and entered the queue, and
    `newsOk` the jobs whose own gdelt fetch was ok; they only serve to state properties. */
module JobProtocol {
  import opened Prelude
  import opened PipelineRuns
  import opened ScoringEngine
  import opened JobStore

  /** A request past the snapshot short-circuit, by what it does next. */
  datatype Handler =
    | ReadPointer(ticker: string)
    | ReadStatus(ticker: string, pointer: RunId)
    | ReadMarker(ticker: string)
    | Cleared(ticker: string)                    // all guards passed
    | Hashed(ticker: string, id: RunId)          // job hash written
    | Pointed(ticker: string, id: RunId)         // active pointer written
    | Answered(ticker: string, reply: HandlerReply)

  datatype HandlerReply = Coalesced(id: RunId) | Cooling | NoRoom | Queued(id: RunId)

  datatype Worker =
    | Idle
    | Popped(id: RunId, ticker: string)
    | Fetching(id: RunId, ticker: string)
    | Scoring(id: RunId, ticker: string, outcomes: Outcomes)
    | Finishing(id: RunId, ticker: string, verdict: Verdict)
    | PointerLeft(id: RunId, ticker: string)     // job hash is terminal, pointer still there
    | MarkerLeft(id: RunId, ticker: string)      // pointer deleted, cooldown not yet marked

  datatype State = State(store: Store, handlers: seq<Handler>, worker: Worker, now: real,
                         started: seq<RunId>, pushed: seq<RunId>, newsOk: set<RunId>)

  const INIT := State(EMPTY, [], Idle, 0.0, [], [], {})

  datatype Event =
    | Tick(dt: real)
    | Arrive(ticker: string)
    | GetPointer(h: nat)
    | GetStatus(h: nat)
    | GetMarker(h: nat)
    | RefuseFull(h: nat)
    | HashJob(h: nat, id: RunId)
    | SetPointer(h: nat)
    | PushQueue(h: nat)
    | Pop
    | PoolFails
    | StartFetching
    | Raise(e: Raised)
    | StartScoring(outcomes: Outcomes)
    | Judge(facts: TickerFacts, weights: R.Weights)
    | WriteVerdict
    | DeletePointer
    | WriteMarker

  function Moved(s: State, h: nat, to: Handler): State
    requires h < |s.handlers|
  {
    s.(handlers := s.handlers[h := to])
  }

  /** The next state, or None where the event is not possible. */
  function Apply(cooldown: real, s: State, e: Event): Option<State> {
    match e
    case Tick(dt) => if dt >= 0.0 then Some(s.(now := s.now + dt)) else None
    case Arrive(t) => Some(s.(handlers := s.handlers + [ReadPointer(t)]))
    case GetPointer(h) =>
      if h < |s.handlers| && s.handlers[h].ReadPointer? then
        var t := s.handlers[h].ticker;
        Some(Moved(s, h, if t in s.store.active then ReadStatus(t, s.store.active[t]) else ReadMarker(t)))
      else None
    case GetStatus(h) =>
      if h < |s.handlers| && s.handlers[h].ReadStatus? then
        var p := s.handlers[h].pointer;
        var live := p in s.store.jobs && Live(s.store.jobs[p].status);
        Some(Moved(s, h, if live then Answered(s.handlers[h].ticker, Coalesced(p))
                   else ReadMarker(s.handlers[h].ticker)))
      else None
    case GetMarker(h) =>
      if h < |s.handlers| && s.handlers[h].ReadMarker? then
        var t := s.handlers[h].ticker;
        Some(Moved(s, h, if CoolingDown(s.store, t, s.now, cooldown) then Answered(t, Cooling) else Cleared(t)))
      else None
    case RefuseFull(h) =>
      if h < |s.handlers| && s.handlers[h].Cleared? then Some(Moved(s, h, Answered(s.handlers[h].ticker, NoRoom)))
        else None
    case HashJob(h, id) =>
      if h < |s.handlers| && s.handlers[h].Cleared? && id !in s.store.jobs then
        var t := s.handlers[h].ticker;
        Some(Moved(s, h, Hashed(t, id)).(store := PutJob(s.store, id, t)))
      else None
    case SetPointer(h) =>
      if h < |s.handlers| && s.handlers[h].Hashed? then
        var t, id := s.handlers[h].ticker, s.handlers[h].id;
        Some(Moved(s, h, Pointed(t, id)).(store := PutPointer(s.store, t, id)))
      else None
    case PushQueue(h) =>
      if h < |s.handlers| && s.handlers[h].Pointed? then
        var t, id := s.handlers[h].ticker, s.handlers[h].id;
        Some(Moved(s, h, Answered(t, Queued(id))).(store := Push(s.store, id, t), pushed := s.pushed + [id]))
      else None
    case _ => Work(s, e)
  }

  /** The worker's events. */
  function Work(s: State, e: Event): Option<State> {
    match (e, s.worker)
    case (Pop, Idle) =>
      if s.store.queue == [] then None
      else
        var entry := s.store.queue[0];
        Some(s.(store := s.store.(queue := s.store.queue[1..]), worker := Popped(entry.runId, entry.ticker),
                started := s.started + [entry.runId]))
    case (PoolFails, Popped(id, t)) => Some(s.(worker := Finishing(id, t, Verdict(FAILED, Some(FetchFailed)))))
    case (StartFetching, Popped(id, t)) =>
      if id in s.store.jobs then Some(s.(store := MarkRunning(s.store, id, FETCHING), worker := Fetching(id, t)))
        else None
    case (Raise(err), Fetching(id, t)) =>
        Some(s.(worker := Finishing(id, t, Verdict(FAILED, Some(ReasonFromRaised(err))))))
    case (Raise(err), Scoring(id, t, _)) =>
        Some(s.(worker := Finishing(id, t, Verdict(FAILED, Some(ReasonFromRaised(err))))))
    case (StartScoring(outcomes), Fetching(id, t)) =>
      if id in s.store.jobs then
        Some(s.(store := MarkRunning(s.store, id, SCORING), worker := Scoring(id, t, outcomes),
                newsOk := if Override(outcomes) then s.newsOk + {id} else s.newsOk))
      else None
    case (Judge(facts, weights), Scoring(id, t, outcomes)) =>
      if facts.symbol == t
      then Some(s.(worker := Finishing(id, t, Conclude(outcomes, facts, weights)))) else None
    case (WriteVerdict, Finishing(id, t, v)) =>
      if id in s.store.jobs
      then Some(s.(store := FinishHash(s.store, id, v.status, v.reason, s.now), worker := PointerLeft(id, t))) else None
    case (DeletePointer, PointerLeft(id, t)) => Some(s.(store := DropPointer(s.store, t), worker := MarkerLeft(id, t)))
    case (WriteMarker, MarkerLeft(id, t)) => Some(s.(store := PutMarker(s.store, t, s.now), worker := Idle))
    case _ => None
  }

  /** The state after a whole run, if every event was possible. */
  function Exec(cooldown: real, s: State, events: seq<Event>): Option<State> {
    if events == [] then Some(s)
    else
      match Exec(cooldown, s, events[..|events| - 1])
      case None => None
      case Some(mid) => Apply(cooldown, mid, Last(events))
  }

  // --- the invariant of every interleaving ----------------------------------------------------

  /** Between the first and the last write of `enqueue_job`. */
  predicate Minting(h: Handler) {
    h.Hashed? || h.Pointed?
  }

  predicate Mints(h: Handler, id: RunId) {
    Minting(h) && h.id == id
  }

  predicate JobShape(j: Job) {
    && (j.reason.Some? <==> j.status == FAILED)
    && (j.finishedAt.Some? <==> Terminal(j.status))
    && (j.status == RUNNING ==> j.phase.Some?)
  }

  predicate IsNew(s: State, id: RunId, t: string) {
    id in s.store.jobs && s.store.jobs[id] == NewJob(t)
  }

  /** Every job hash is well formed, and belongs to a job that was queued or is being so. */
  ghost predicate JobsOk(s: State) {
    forall id :: id in s.store.jobs ==>
      && JobShape(s.store.jobs[id])
      && (id in s.pushed || exists i :: 0 <= i < |s.handlers| && Mints(s.handlers[i], id))
  }

  /** Mid-enqueue jobs are new, unqueued, and minted by one handler only. */
  ghost predicate MintsOk(s: State) {
    && (forall i :: 0 <= i < |s.handlers| ==>
          (Minting(s.handlers[i]) ==>
             IsNew(s, s.handlers[i].id, s.handlers[i].ticker) && s.handlers[i].id !in s.pushed))
    && (forall i, j :: 0 <= i < j < |s.handlers| ==>
          (Minting(s.handlers[i]) && Minting(s.handlers[j]) ==> s.handlers[i].id != s.handlers[j].id))
  }

  /** Each run id is queued once, jobs leave in the order they entered, and every queued
      entry has a matching job hash still `queued`. */
  ghost predicate QueueOk(s: State) {
    && (forall i, j :: 0 <= i < j < |s.pushed| ==> s.pushed[i] != s.pushed[j])
    && |s.pushed| == |s.started| + |s.store.queue|
    && (forall i :: 0 <= i < |s.started| ==> s.pushed[i] == s.started[i])
    && (forall k :: 0 <= k < |s.store.queue| ==>
          && s.pushed[|s.started| + k] == s.store.queue[k].runId
          && IsNew(s, s.store.queue[k].runId, s.store.queue[k].ticker))
  }

  /** The worker holds the job it started last, in the status its step says. */
  ghost predicate WorkerOk(s: State) {
    s.worker.Idle? ||
    (&& s.started != [] && s.worker.id == Last(s.started)
     && s.worker.id in s.store.jobs
     && var j := s.store.jobs[s.worker.id];
        && j.ticker == s.worker.ticker
        && match s.worker
           case Popped(_, _) => j == NewJob(j.ticker)
           case Fetching(_, _) => j.status == RUNNING && j.phase == Some(FETCHING)
           case Scoring(id, _, outcomes) =>
               j.status == RUNNING && j.phase == Some(SCORING) && (Override(outcomes) ==> id in s.newsOk)
           case Finishing(id, _, v) => Live(j.status) && LegalVerdict(v) && (v.status == READY ==> id in s.newsOk)
           case _ => Terminal(j.status))
  }

  /** Every started job but the one in hand is over. */
  ghost predicate StartedOk(s: State) {
    forall i :: 0 <= i < |s.started| && (i < |s.started| - 1 || s.worker.Idle?) ==>
      s.started[i] in s.store.jobs && Terminal(s.store.jobs[s.started[i]].status)
  }

  /** A job that ended ready had its own gdelt fetch succeed. */
  ghost predicate ReadyOk(s: State) {
    forall id :: id in s.store.jobs && s.store.jobs[id].status == READY ==> id in s.newsOk
  }

  /** The job's `_finish` has not yet deleted the pointer. */
  predicate PointerDue(s: State, id: RunId) {
    || (exists i :: 0 <= i < |s.handlers| && s.handlers[i].Pointed? && s.handlers[i].id == id)
    || (exists k :: 0 <= k < |s.store.queue| && s.store.queue[k].runId == id)
    || (!s.worker.Idle? && !s.worker.MarkerLeft? && s.worker.id == id)
  }

  /** An active pointer names a job of its ticker whose `_finish` has not deleted it yet. */
  ghost predicate PointersOk(s: State) {
    forall t :: t in s.store.active ==>
      && s.store.active[t] in s.store.jobs
      && s.store.jobs[s.store.active[t]].ticker == t
      && PointerDue(s, s.store.active[t])
  }

  /** What a handler has learnt or answered names a job of its own ticker. */
  ghost predicate RepliesOk(s: State) {
    forall i :: 0 <= i < |s.handlers| ==>
      match s.handlers[i]
      case ReadStatus(t, p) => p in s.store.jobs && s.store.jobs[p].ticker == t
      case Answered(t, Coalesced(id)) => id in s.store.jobs && s.store.jobs[id].ticker == t
      case Answered(t, Queued(id)) => id in s.store.jobs && s.store.jobs[id].ticker == t && id in s.pushed
      case _ => true
  }

  ghost predicate Inv(s: State) {
    JobsOk(s) && MintsOk(s) && QueueOk(s) && WorkerOk(s) && StartedOk(s) && ReadyOk(s) && PointersOk(s) && RepliesOk(s)
  }

  lemma InvInit()
    ensures Inv(INIT)
  {
  }
}
