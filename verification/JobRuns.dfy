/** What the invariant gives about whole runs: one running job, jobs that only move forward,
    first in first out, conservation, and a worker that drains whatever was asked for. */
module JobRuns {
  import opened Prelude
  import opened JobStore
  import opened JobProtocol
  import opened JobInvariant

  // --- safety ---------------------------------------------------------------------------------

  /** A started job is the one in hand, or it is over. */
  lemma StartedOrOver(s: State, id: RunId)
    requires Inv(s) && id in s.store.jobs && s.store.jobs[id].status != QUEUED
    ensures Terminal(s.store.jobs[id].status) || (!s.worker.Idle? && s.worker.id == id)
    ensures id in s.started
  {
    assert id in s.pushed;
    var i :| 0 <= i < |s.pushed| && s.pushed[i] == id;
    PushedSplit(s, i);
  }

  lemma PushedSplit(s: State, i: nat)
    requires Inv(s) && i < |s.pushed|
    ensures i < |s.started| ==> s.pushed[i] == s.started[i]
    ensures i >= |s.started| ==> s.pushed[i] in s.store.jobs && s.store.jobs[s.pushed[i]].status == QUEUED
  {
    if i >= |s.started| {
      assert s.store.queue[i - |s.started|].runId == s.pushed[|s.started| + (i - |s.started|)];
    }
  }

  /** Every interleaving from the empty store: at most one job runs; a queued entry names a
      job of its ticker that is still queued, and no job is queued twice; a pointer names a
      job of its ticker whose `_finish` has yet to delete it; a reason is there exactly on
      failure; and a ready job's own gdelt fetch was ok. */
  lemma SafeInEveryRun(cooldown: real, events: seq<Event>)
    requires Exec(cooldown, INIT, events).Some?
    ensures
      var s := Exec(cooldown, INIT, events).value;
      var jobs := s.store.jobs;
      && (forall a, b :: a in jobs && b in jobs && jobs[a].status == RUNNING && jobs[b].status == RUNNING ==> a == b)
      && (forall e :: e in s.store.queue ==> e.runId in jobs && jobs[e.runId] == NewJob(e.ticker))
      && (forall i, k :: 0 <= i < k < |s.store.queue| ==> s.store.queue[i].runId != s.store.queue[k].runId)
      && PointersOk(s)
      && (forall id :: id in jobs ==> (jobs[id].reason.Some? <==> jobs[id].status == FAILED))
      && (forall id :: id in jobs ==> (jobs[id].finishedAt.Some? <==> Terminal(jobs[id].status)))
      && (forall id :: id in jobs && jobs[id].status == READY ==> id in s.newsOk)
  {
    InvInit();
    RunKeepsInv(cooldown, INIT, events);
    var s := Exec(cooldown, INIT, events).value;
    var jobs := s.store.jobs;
    forall a, b | a in jobs && b in jobs && jobs[a].status == RUNNING && jobs[b].status == RUNNING ensures a == b {
      StartedOrOver(s, a);
      StartedOrOver(s, b);
    }
    forall i, k | 0 <= i < k < |s.store.queue| ensures s.store.queue[i].runId != s.store.queue[k].runId {
      assert s.pushed[|s.started| + i] != s.pushed[|s.started| + k];
    }
    hide Exec;
  }

  // --- jobs only move forward -----------------------------------------------------------------

  function Rank(s: Status): nat {
    match s
    case QUEUED => 0
    case RUNNING => 1
    case _ => 2
  }

  /** Jobs are never lost, keep their ticker, never go back, and are frozen once over; the
      queue order and the start order only grow. */
  ghost predicate Onward(s: State, n: State) {
    && (forall id :: id in s.store.jobs ==>
          && id in n.store.jobs
          && n.store.jobs[id].ticker == s.store.jobs[id].ticker
          && Rank(s.store.jobs[id].status) <= Rank(n.store.jobs[id].status)
          && (Terminal(s.store.jobs[id].status) ==> n.store.jobs[id] == s.store.jobs[id]))
    && s.pushed <= n.pushed && s.started <= n.started && s.now <= n.now
  }

  lemma StepIsOnward(cooldown: real, s: State, e: Event)
    requires Inv(s) && Apply(cooldown, s, e).Some?
    ensures Onward(s, Apply(cooldown, s, e).value)
  {
    hide Conclude, MintsOk, QueueOk, PointersOk, RepliesOk, StartedOk, ReadyOk, JobsOk;
    if HandlerEvent(e) { AskHasShape(cooldown, s, e); }
  }

  lemma {:induction false} RunIsOnward(cooldown: real, s: State, events: seq<Event>)
    requires Inv(s) && Exec(cooldown, s, events).Some?
    ensures Onward(s, Exec(cooldown, s, events).value)
  {
    if events != [] {
      var before := events[..|events| - 1];
      RunIsOnward(cooldown, s, before);
      RunKeepsInv(cooldown, s, before);
      StepIsOnward(cooldown, Exec(cooldown, s, before).value, Last(events));
    }
    hide Inv, Apply;
  }

  function Ids(queue: seq<Entry>): seq<RunId> { seq(|queue|, i requires 0 <= i < |queue| => queue[i].runId) }

  lemma QueueOrder(s: State)
    requires QueueOk(s)
    ensures s.pushed == s.started + Ids(s.store.queue)
    ensures s.started <= s.pushed
    ensures forall i, k :: 0 <= i < k < |s.pushed| ==> s.pushed[i] != s.pushed[k]
  {
  }

  /** First in, first out: the ids ever queued are the ids ever started followed by the queue,
      no id twice; later events only extend both orders. */
  lemma FirstInFirstOut(cooldown: real, before: seq<Event>, after: seq<Event>)
    requires Exec(cooldown, INIT, before).Some? && Exec(cooldown, Exec(cooldown, INIT, before).value, after).Some?
    ensures
      var s := Exec(cooldown, INIT, before).value;
      var n := Exec(cooldown, s, after).value;
      && s.pushed == s.started + Ids(s.store.queue)
      && (forall i, k :: 0 <= i < k < |s.pushed| ==> s.pushed[i] != s.pushed[k])
      && s.pushed <= n.pushed && s.started <= n.started <= n.pushed
  {
    InvInit();
    RunKeepsInv(cooldown, INIT, before);
    var s := Exec(cooldown, INIT, before).value;
    RunKeepsInv(cooldown, s, after);
    RunIsOnward(cooldown, s, after);
    QueueOrder(s);
    QueueOrder(Exec(cooldown, s, after).value);
    hide Exec, JobsOk, MintsOk, QueueOk, WorkerOk, StartedOk, ReadyOk, PointersOk, RepliesOk, Ids;
  }

  // --- conservation ---------------------------------------------------------------------------

  function MidEnqueue(handlers: seq<Handler>): nat {
    if handlers == [] then 0 else (if Minting(handlers[0]) then 1 else 0) + MidEnqueue(handlers[1..])
  }

  function Held(w: Worker): nat {
    if w.Idle? || w.PointerLeft? || w.MarkerLeft? then 0 else 1
  }

  ghost function Over(jobs: map<RunId, Job>): set<RunId> { set id | id in jobs && Terminal(jobs[id].status) }

  lemma {:induction false} MidEnqueueMoved(handlers: seq<Handler>, h: nat, to: Handler)
    requires h < |handlers|
    ensures MidEnqueue(handlers[h := to])
      == MidEnqueue(handlers) - (if Minting(handlers[h]) then 1 else 0) + (if Minting(to) then 1 else 0)
  {
    if h == 0 {
      assert handlers[h := to][1..] == handlers[1..];
    } else {
      assert handlers[h := to][1..] == handlers[1..][h - 1 := to];
      MidEnqueueMoved(handlers[1..], h - 1, to);
    }
  }

  lemma {:induction false} MidEnqueueGrown(handlers: seq<Handler>, h: Handler)
    ensures MidEnqueue(handlers + [h]) == MidEnqueue(handlers) + if Minting(h) then 1 else 0
  {
    if handlers == [] {
      assert handlers + [h] == [h];
    } else {
      assert (handlers + [h])[1..] == handlers[1..] + [h];
      MidEnqueueGrown(handlers[1..], h);
    }
  }

  ghost predicate Counted(s: State) {
    |s.store.jobs| == MidEnqueue(s.handlers) + |s.store.queue| + |s.started|
  }

  lemma AskCount(cooldown: real, s: State, e: Event)
    requires HandlerEvent(e) && !e.Tick? && !e.Arrive? && Apply(cooldown, s, e).Some?
    ensures
      var n := Apply(cooldown, s, e).value;
      && e.h < |s.handlers| && |n.handlers| == |s.handlers| && n.handlers == s.handlers[e.h := n.handlers[e.h]]
      && |n.started| == |s.started|
      && |n.store.queue| == |s.store.queue| + (if e.PushQueue? then 1 else 0)
      && |n.store.jobs| == |s.store.jobs| + (if e.HashJob? then 1 else 0)
      && (Minting(s.handlers[e.h]) <==> e.SetPointer? || e.PushQueue?)
      && (Minting(n.handlers[e.h]) <==> e.SetPointer? || e.HashJob?)
  {
  }

  /** A worker event moves at most one id from the queue to the started ones. */
  lemma WorkQueueCount(s: State, e: Event)
    requires Work(s, e).Some?
    ensures
      var n := Work(s, e).value;
      |n.store.queue| + |n.started| == |s.store.queue| + |s.started|
  {
    hide Conclude;
    QueueMoves(s, e);
    hide Work;
  }

  lemma WorkCount(s: State, e: Event)
    requires Inv(s) && Work(s, e).Some?
    ensures
      var n := Work(s, e).value;
      && n.handlers == s.handlers && |n.store.jobs| == |s.store.jobs|
      && |n.store.queue| + |n.started| == |s.store.queue| + |s.started|
  {
    hide Work;
    WorkHasShape(s, e);
    WorkQueueCount(s, e);
    SameKeysSameSize(s.store.jobs, Work(s, e).value.store.jobs);
    hide Inv;
  }

  lemma SameKeysSameSize(a: map<RunId, Job>, b: map<RunId, Job>)
    requires a.Keys == b.Keys
    ensures |a| == |b|
  {
    assert |a| == |a.Keys| && |b| == |b.Keys|;
  }

  lemma AskKeepsCount(cooldown: real, s: State, e: Event)
    requires Counted(s) && HandlerEvent(e) && !e.Tick? && !e.Arrive? && Apply(cooldown, s, e).Some?
    ensures Counted(Apply(cooldown, s, e).value)
  {
    hide MidEnqueue, Apply;
    AskCount(cooldown, s, e);
    MidEnqueueMoved(s.handlers, e.h, Apply(cooldown, s, e).value.handlers[e.h]);
  }

  lemma StepKeepsCount(cooldown: real, s: State, e: Event)
    requires Inv(s) && Counted(s) && Apply(cooldown, s, e).Some?
    ensures Counted(Apply(cooldown, s, e).value)
  {
    hide MidEnqueue, Inv, Work;
    if e.Arrive? {
      MidEnqueueGrown(s.handlers, ReadPointer(e.ticker));
    } else if HandlerEvent(e) && !e.Tick? {
      AskKeepsCount(cooldown, s, e);
    } else if !e.Tick? {
      WorkCount(s, e);
    }
  }

  lemma {:induction false} RunKeepsCount(cooldown: real, events: seq<Event>)
    requires Exec(cooldown, INIT, events).Some?
    ensures Counted(Exec(cooldown, INIT, events).value)
  {
    if events != [] {
      var before := events[..|events| - 1];
      RunKeepsCount(cooldown, before);
      InvInit();
      RunKeepsInv(cooldown, INIT, before);
      StepKeepsCount(cooldown, Exec(cooldown, INIT, before).value, Last(events));
    }
    hide Inv, Apply;
  }

  ghost function Elements(xs: seq<RunId>): set<RunId> { set x | x in xs }

  lemma {:induction false} DistinctCard(xs: seq<RunId>)
    requires forall i, k :: 0 <= i < k < |xs| ==> xs[i] != xs[k]
    ensures |Elements(xs)| == |xs|
  {
    if xs != [] {
      var n := |xs| - 1;
      DistinctCard(xs[..n]);
      assert Elements(xs) == Elements(xs[..n]) + {xs[n]};
    }
  }

  /** The started jobs that are over. */
  function Done(s: State): seq<RunId>
    requires Held(s.worker) <= |s.started|
  {
    s.started[..|s.started| - Held(s.worker)]
  }

  lemma DoneIsOver(s: State)
    requires Inv(s)
    ensures Held(s.worker) <= |s.started|
    ensures Over(s.store.jobs) == Elements(Done(s))
  {
    hide MintsOk, PointersOk, RepliesOk, ReadyOk;
    var done := Done(s);
    forall x | x in done ensures x in Over(s.store.jobs) {
      var i :| 0 <= i < |done| && done[i] == x;
      assert s.started[i] == x;
    }
    forall x | x in Over(s.store.jobs) ensures x in done {
      StartedOrOver(s, x);
      var i :| 0 <= i < |s.started| && s.started[i] == x;
      assert i < |done| ==> done[i] == x;
    }
  }

  lemma OverAreStarted(s: State)
    requires Inv(s)
    ensures Held(s.worker) <= |s.started|
    ensures |Over(s.store.jobs)| == |s.started| - Held(s.worker)
  {
    hide Over, Elements, JobsOk, MintsOk, PointersOk, RepliesOk, ReadyOk, StartedOk;
    DoneIsOver(s);
    var done := Done(s);
    forall i, k | 0 <= i < k < |done| ensures done[i] != done[k] {
      assert s.pushed[i] != s.pushed[k];
    }
    DistinctCard(done);
  }

  /** Conservation, in every reachable state: jobs minted are those mid-enqueue, queued, held
      by the worker (at most one) and over. */
  lemma Conservation(cooldown: real, events: seq<Event>)
    requires Exec(cooldown, INIT, events).Some?
    ensures
      var s := Exec(cooldown, INIT, events).value;
      && |s.store.jobs| == MidEnqueue(s.handlers) + |s.store.queue| + Held(s.worker) + |Over(s.store.jobs)|
      && Held(s.worker) <= 1
  {
    InvInit();
    RunKeepsInv(cooldown, INIT, events);
    RunKeepsCount(cooldown, events);
    OverAreStarted(Exec(cooldown, INIT, events).value);
    hide Exec, Inv, Over;
  }

  // --- progress -------------------------------------------------------------------------------

  function HandlerLeft(h: Handler): nat {
    match h
    case ReadPointer(_) => 20
    case ReadStatus(_, _) => 19
    case ReadMarker(_) => 18
    case Cleared(_) => 17
    case Hashed(_, _) => 16
    case Pointed(_, _) => 15
    case Answered(_, _) => 0
  }

  function WorkerLeft(w: Worker): nat {
    match w
    case Idle => 0
    case MarkerLeft(_, _) => 2
    case PointerLeft(_, _) => 3
    case Finishing(_, _, _) => 4
    case Scoring(_, _, _) => 5
    case Fetching(_, _) => 6
    case Popped(_, _) => 7
  }

  function HandlersLeft(handlers: seq<Handler>): nat {
    if handlers == [] then 0 else HandlerLeft(handlers[0]) + HandlersLeft(handlers[1..])
  }

  /** A bound on the events that can still happen without a new request. */
  function StepsLeft(s: State): nat {
    HandlersLeft(s.handlers) + 8 * |s.store.queue| + WorkerLeft(s.worker)
  }

  lemma {:induction false} HandlersLeftMoved(handlers: seq<Handler>, h: nat, to: Handler)
    requires h < |handlers|
    ensures HandlersLeft(handlers[h := to]) == HandlersLeft(handlers) - HandlerLeft(handlers[h]) + HandlerLeft(to)
  {
    if h == 0 {
      assert handlers[h := to][1..] == handlers[1..];
    } else {
      assert handlers[h := to][1..] == handlers[1..][h - 1 := to];
      HandlersLeftMoved(handlers[1..], h - 1, to);
    }
  }

  predicate FromOutside(e: Event) { e.Tick? || e.Arrive? }

  lemma StepUsesUp(cooldown: real, s: State, e: Event)
    requires Apply(cooldown, s, e).Some? && !FromOutside(e)
    ensures StepsLeft(Apply(cooldown, s, e).value) < StepsLeft(s)
  {
    hide Conclude;
    var n := Apply(cooldown, s, e).value;
    if HandlerEvent(e) {
      HandlersLeftMoved(s.handlers, e.h, n.handlers[e.h]);
      hide HandlersLeft;
    }
  }

  ghost predicate Quiescent(cooldown: real, s: State) {
    forall e: Event :: !FromOutside(e) ==> Apply(cooldown, s, e).None?
  }

  /** The event that a non-idle worker, a queued entry or an unanswered request can always take. */
  function NextWork(w: Worker): Event {
    match w
    case Idle => Pop
    case Popped(_, _) => StartFetching
    case Fetching(_, _) => Raise(OtherError)
    case Scoring(_, _, _) => Raise(OtherError)
    case Finishing(_, _, _) => WriteVerdict
    case PointerLeft(_, _) => DeletePointer
    case MarkerLeft(_, _) => WriteMarker
  }

  function NextAsk(s: State, h: nat): Event
    requires h < |s.handlers|
  {
    match s.handlers[h]
    case ReadPointer(_) => GetPointer(h)
    case ReadStatus(_, _) => GetStatus(h)
    case ReadMarker(_) => GetMarker(h)
    case Cleared(_) => RefuseFull(h)
    case Hashed(_, _) => SetPointer(h)
    case _ => PushQueue(h)
  }

  lemma NextAskHappens(cooldown: real, s: State, h: nat)
    requires h < |s.handlers|
    ensures !FromOutside(NextAsk(s, h)) && (s.handlers[h].Answered? || Apply(cooldown, s, NextAsk(s, h)).Some?)
  {
  }

  lemma NextWorkHappens(cooldown: real, s: State)
    requires WorkerOk(s)
    ensures
      var e := NextWork(s.worker);
      !FromOutside(e) && (Apply(cooldown, s, e).Some? || (s.worker.Idle? && s.store.queue == []))
  {
  }

  /** When nothing more can happen, every request is answered and every job is over. */
  lemma QuiescentIsDone(cooldown: real, s: State)
    requires Inv(s) && Quiescent(cooldown, s)
    ensures s.worker.Idle? && s.store.queue == []
    ensures forall h :: h in s.handlers ==> h.Answered?
    ensures forall id :: id in s.store.jobs ==> Terminal(s.store.jobs[id].status)
  {
    NextWorkHappens(cooldown, s);
    hide Apply, NextWork, WorkerOk, PointersOk, RepliesOk, ReadyOk;
    forall h | 0 <= h < |s.handlers| ensures s.handlers[h].Answered? {
      NextAskHappens(cooldown, s, h);
    }
    forall id | id in s.store.jobs ensures Terminal(s.store.jobs[id].status) {
      assert id in s.pushed;
      var i :| 0 <= i < |s.pushed| && s.pushed[i] == id;
      assert s.started[i] == id;
    }
  }

  /** The events of a run that are not the clock's. */
  function Moves(events: seq<Event>): nat {
    if events == [] then 0 else Moves(events[..|events| - 1]) + if Last(events).Tick? then 0 else 1
  }

  /** Progress: after any reachable state, a run without new requests never makes more than
      `StepsLeft` moves, however the clock runs; and once it can go no further every job of the
      state, and every one minted since, has reached its one terminal status. */
  lemma {:induction false} WorkerDrains(cooldown: real, s: State, events: seq<Event>)
    requires Inv(s) && Exec(cooldown, s, events).Some?
    requires forall e :: e in events ==> !e.Arrive?
    ensures
      var n := Exec(cooldown, s, events).value;
      && Moves(events) + StepsLeft(n) <= StepsLeft(s)
      && (Quiescent(cooldown, n) ==>
            n.store.queue == [] && forall id :: id in n.store.jobs ==> Terminal(n.store.jobs[id].status))
  {
    var n := Exec(cooldown, s, events).value;
    if events != [] {
      var before := events[..|events| - 1];
      WorkerDrains(cooldown, s, before);
      assert Last(events) in events;
      var mid := Exec(cooldown, s, before).value;
      if Last(events).Tick? {
        TickUsesNothing(cooldown, mid, Last(events));
      } else {
        StepUsesUp(cooldown, mid, Last(events));
      }
    }
    RunKeepsInv(cooldown, s, events);
    if Quiescent(cooldown, n) { QuiescentIsDone(cooldown, n); }
    hide Inv, Apply, StepsLeft, Quiescent;
  }

  lemma TickUsesNothing(cooldown: real, s: State, e: Event)
    requires e.Tick? && Apply(cooldown, s, e).Some?
    ensures StepsLeft(Apply(cooldown, s, e).value) == StepsLeft(s)
  {
  }
}
