/** Every event of every interleaving keeps the invariant, one conjunct at a time. */
module JobInvariant {
  import opened Prelude
  import opened JobStore
  import opened JobProtocol

  predicate HandlerEvent(e: Event) {
    e.Tick? || e.Arrive? || e.GetPointer? || e.GetStatus? || e.GetMarker? || e.RefuseFull? || e.HashJob?
      || e.SetPointer? || e.PushQueue?
  }

  /** The job in hand was queued, is nobody's fresh id, and is not in the queue any more. */
  lemma HeldApart(s: State)
    requires Inv(s) && !s.worker.Idle?
    ensures s.worker.id in s.store.jobs && s.worker.id in s.pushed
    ensures forall i :: 0 <= i < |s.handlers| ==> !Mints(s.handlers[i], s.worker.id)
    ensures forall k :: 0 <= k < |s.store.queue| ==> s.store.queue[k].runId != s.worker.id
    ensures forall i :: 0 <= i < |s.started| - 1 ==> s.started[i] != s.worker.id
  {
    var n := |s.started| - 1;
    assert s.pushed[n] == s.worker.id;
    forall k | 0 <= k < |s.store.queue| ensures s.store.queue[k].runId != s.worker.id {
      assert s.pushed[|s.started| + k] != s.pushed[n];
    }
    forall i | 0 <= i < n ensures s.started[i] != s.worker.id {
      assert s.pushed[i] != s.pushed[n];
    }
  }

  /** What a worker event leaves alone. */
  ghost predicate WorkShape(s: State, n: State) {
    && n.handlers == s.handlers && n.pushed == s.pushed && n.store.jobs.Keys == s.store.jobs.Keys
    && (forall id :: id in s.store.jobs ==>
          && JobShape(n.store.jobs[id])
          && n.store.jobs[id].ticker == s.store.jobs[id].ticker
          && (s.worker.Idle? || id != s.worker.id ==> n.store.jobs[id] == s.store.jobs[id]))
  }

  lemma WorkHasShape(s: State, e: Event)
    requires JobsOk(s) && WorkerOk(s) && Work(s, e).Some?
    ensures WorkShape(s, Work(s, e).value)
  {
    hide Conclude;
  }

  /** What a request event leaves alone. */
  ghost predicate AskShape(s: State, n: State) {
    && n.worker == s.worker && n.started == s.started && n.newsOk == s.newsOk
      && n.store.lastFinished == s.store.lastFinished
    && (forall id :: id in s.store.jobs ==> id in n.store.jobs && n.store.jobs[id] == s.store.jobs[id])
  }

  lemma AskHasShape(cooldown: real, s: State, e: Event)
    requires HandlerEvent(e) && Apply(cooldown, s, e).Some?
    ensures AskShape(s, Apply(cooldown, s, e).value)
  {
  }

  // --- worker events --------------------------------------------------------------------------

  lemma WorkKeepsMints(s: State, n: State)
    requires Inv(s) && WorkShape(s, n)
    ensures JobsOk(n) && MintsOk(n) && RepliesOk(n)
  {
    if !s.worker.Idle? { HeldApart(s); }
  }

  lemma WorkKeepsQueue(s: State, e: Event)
    requires Inv(s) && Work(s, e).Some?
    ensures QueueOk(Work(s, e).value)
  {
    hide Work, JobsOk, MintsOk, WorkerOk, StartedOk, ReadyOk, PointersOk, RepliesOk;
    if !s.worker.Idle? { HeldApart(s); }
    QueueMoves(s, e);
    WorkHasShape(s, e);
  }

  lemma QueueMoves(s: State, e: Event)
    requires Work(s, e).Some?
    ensures
      var n := Work(s, e).value;
      if e.Pop? then s.worker.Idle? && s.store.queue != [] && n.store.queue == s.store.queue[1..]
                     && n.started == s.started + [s.store.queue[0].runId] && n.store.jobs == s.store.jobs
      else !s.worker.Idle? && n.store.queue == s.store.queue && n.started == s.started
  {
    hide Conclude;
  }

  predicate WritesHash(e: Event) { e.StartFetching? || e.StartScoring? || e.WriteVerdict? }

  lemma HashWriteKeepsWorker(s: State, e: Event)
    requires WorkerOk(s) && Work(s, e).Some? && WritesHash(e)
    ensures WorkerOk(Work(s, e).value)
  {
    hide Conclude;
  }

  lemma OtherKeepsWorker(s: State, e: Event)
    requires QueueOk(s) && WorkerOk(s) && Work(s, e).Some? && !WritesHash(e)
    ensures WorkerOk(Work(s, e).value)
  {
    if e.Judge? { VerdictMeaning(s.worker.outcomes, e.facts, e.weights); }
    hide Conclude;
  }

  lemma WorkKeepsWorker(s: State, e: Event)
    requires Inv(s) && Work(s, e).Some?
    ensures WorkerOk(Work(s, e).value)
  {
    if WritesHash(e) { HashWriteKeepsWorker(s, e); } else { OtherKeepsWorker(s, e); }
    hide Work, WorkerOk;
  }

  lemma WorkKeepsStarted(s: State, e: Event)
    requires Inv(s) && Work(s, e).Some?
    ensures StartedOk(Work(s, e).value)
  {
    hide Work, JobsOk, MintsOk, ReadyOk, PointersOk, RepliesOk;
    if !s.worker.Idle? { HeldApart(s); }
    QueueMoves(s, e);
    WorkHasShape(s, e);
    if Work(s, e).value.worker.Idle? { IdleAfterMarker(s, e); }
  }

  lemma IdleAfterMarker(s: State, e: Event)
    requires Work(s, e).Some? && Work(s, e).value.worker.Idle?
    ensures s.worker.MarkerLeft? && Work(s, e).value.store.jobs == s.store.jobs
  {
    hide Conclude;
  }

  lemma WorkKeepsReady(s: State, e: Event)
    requires Inv(s) && Work(s, e).Some?
    ensures ReadyOk(Work(s, e).value)
  {
    hide Conclude, JobsOk, MintsOk, QueueOk, StartedOk, PointersOk, RepliesOk;
  }

  lemma WorkKeepsDue(s: State, e: Event, id: RunId)
    requires Work(s, e).Some? && PointerDue(s, id)
    requires e.DeletePointer? ==> s.worker.id != id
    ensures PointerDue(Work(s, e).value, id)
  {
    hide Conclude;
    var n := Work(s, e).value;
    if k :| 0 <= k < |s.store.queue| && s.store.queue[k].runId == id {
      if e.Pop? && k > 0 { assert n.store.queue[k - 1].runId == id; }
      if !e.Pop? { assert n.store.queue[k].runId == id; }
    }
  }

  lemma WorkKeepsPointers(s: State, e: Event)
    requires Inv(s) && Work(s, e).Some?
    ensures PointersOk(Work(s, e).value)
  {
    var n := Work(s, e).value;
    WorkHasShape(s, e);
    WorkActive(s, e);
    hide Work, PointerDue;
    forall t | t in n.store.active ensures PointerDue(n, n.store.active[t]) {
      WorkKeepsDue(s, e, s.store.active[t]);
    }
  }

  lemma WorkActive(s: State, e: Event)
    requires Work(s, e).Some?
    ensures e.DeletePointer? ==> !s.worker.Idle? && Work(s, e).value.store.active == s.store.active - {s.worker.ticker}
    ensures !e.DeletePointer? ==> Work(s, e).value.store.active == s.store.active
  {
    hide Conclude;
  }

  lemma WorkKeepsInv(s: State, e: Event)
    requires Inv(s) && Work(s, e).Some?
    ensures Inv(Work(s, e).value)
  {
    WorkHasShape(s, e);
    WorkKeepsMints(s, Work(s, e).value);
    WorkKeepsQueue(s, e);
    WorkKeepsWorker(s, e);
    WorkKeepsStarted(s, e);
    WorkKeepsReady(s, e);
    WorkKeepsPointers(s, e);
    hide Work;
  }

  // --- request events -------------------------------------------------------------------------

  lemma AskKeepsOthers(cooldown: real, s: State, e: Event)
    requires Inv(s) && HandlerEvent(e) && Apply(cooldown, s, e).Some?
    ensures
      var n := Apply(cooldown, s, e).value;
      WorkerOk(n) && StartedOk(n) && ReadyOk(n)
  {
    AskHasShape(cooldown, s, e);
  }

  /** A job in the store after an event was there before, or its hash was written just now. */
  lemma JobOrigin(cooldown: real, s: State, e: Event, id: RunId)
    requires HandlerEvent(e) && Apply(cooldown, s, e).Some? && id in Apply(cooldown, s, e).value.store.jobs
    ensures
      var n := Apply(cooldown, s, e).value;
      || (id in s.store.jobs && n.store.jobs[id] == s.store.jobs[id])
      || (e.HashJob? && e.h < |n.handlers| && Mints(n.handlers[e.h], id) && n.store.jobs[id].status == QUEUED
          && JobShape(n.store.jobs[id]))
  {
  }

  /** A handler that is mid-enqueue stays so, or has just queued its job. */
  lemma MintStays(cooldown: real, s: State, e: Event, i: nat, id: RunId)
    requires HandlerEvent(e) && Apply(cooldown, s, e).Some? && i < |s.handlers| && Mints(s.handlers[i], id)
    ensures
      var n := Apply(cooldown, s, e).value;
      (i < |n.handlers| && Mints(n.handlers[i], id)) || id in n.pushed
  {
  }

  lemma AskKeepsJobs(cooldown: real, s: State, e: Event)
    requires Inv(s) && HandlerEvent(e) && Apply(cooldown, s, e).Some?
    ensures JobsOk(Apply(cooldown, s, e).value)
  {
    PushedGrows(cooldown, s, e);
    hide Apply, MintsOk, QueueOk, WorkerOk, StartedOk, ReadyOk, PointersOk, RepliesOk;
    var n := Apply(cooldown, s, e).value;
    forall id | id in n.store.jobs
      ensures JobShape(n.store.jobs[id])
        && (id in n.pushed || exists i :: 0 <= i < |n.handlers| && Mints(n.handlers[i], id))
    {
      JobOrigin(cooldown, s, e, id);
      if id in s.store.jobs && id !in s.pushed {
        var i :| 0 <= i < |s.handlers| && Mints(s.handlers[i], id);
        MintStays(cooldown, s, e, i, id);
      }
    }
  }

  /** A handler that is mid-enqueue after an event was so before it, or wrote its hash just now. */
  lemma MintOrigin(cooldown: real, s: State, e: Event, i: nat)
    requires HandlerEvent(e) && Apply(cooldown, s, e).Some?
    requires i < |Apply(cooldown, s, e).value.handlers| && Minting(Apply(cooldown, s, e).value.handlers[i])
    ensures
      var h := Apply(cooldown, s, e).value.handlers[i];
      && !(e.PushQueue? && e.h == i)
      && i < |s.handlers|
      && (if e.HashJob? && e.h == i then h.id == e.id && h.id !in s.store.jobs
          && IsNew(Apply(cooldown, s, e).value, h.id, h.ticker)
          else Mints(s.handlers[i], h.id) && s.handlers[i].ticker == h.ticker)
  {
  }

  lemma PushedGrows(cooldown: real, s: State, e: Event)
    requires HandlerEvent(e) && Apply(cooldown, s, e).Some?
    ensures
      var n := Apply(cooldown, s, e).value;
      if e.PushQueue? then
        && e.h < |s.handlers| && s.handlers[e.h].Pointed?
        && n.pushed == s.pushed + [s.handlers[e.h].id]
        && n.store.queue == s.store.queue + [Entry(s.handlers[e.h].id, s.handlers[e.h].ticker)]
      else n.pushed == s.pushed && n.store.queue == s.store.queue
  {
  }

  lemma PushedAreJobs(s: State)
    requires Inv(s)
    ensures forall i :: 0 <= i < |s.pushed| ==> s.pushed[i] in s.store.jobs
  {
    forall i | 0 <= i < |s.pushed| ensures s.pushed[i] in s.store.jobs {
      if i < |s.started| {
        assert s.pushed[i] == s.started[i];
        assert i == |s.started| - 1 ==> s.worker.Idle? || s.started[i] == s.worker.id;
      } else {
        assert s.pushed[|s.started| + (i - |s.started|)] == s.store.queue[i - |s.started|].runId;
      }
    }
  }

  lemma AskKeepsMints(cooldown: real, s: State, e: Event)
    requires Inv(s) && HandlerEvent(e) && Apply(cooldown, s, e).Some?
    ensures MintsOk(Apply(cooldown, s, e).value)
  {
    var n := Apply(cooldown, s, e).value;
    AskHasShape(cooldown, s, e);
    PushedGrows(cooldown, s, e);
    PushedAreJobs(s);
    forall i | 0 <= i < |n.handlers| && Minting(n.handlers[i])
      ensures IsNew(n, n.handlers[i].id, n.handlers[i].ticker) && n.handlers[i].id !in n.pushed
    {
      MintOrigin(cooldown, s, e, i);
      hide Apply;
    }
    forall i, j | 0 <= i < j < |n.handlers| && Minting(n.handlers[i]) && Minting(n.handlers[j])
      ensures n.handlers[i].id != n.handlers[j].id
    {
      MintOrigin(cooldown, s, e, i);
      MintOrigin(cooldown, s, e, j);
      hide Apply;
    }
  }

  lemma AskKeepsQueue(cooldown: real, s: State, e: Event)
    requires Inv(s) && HandlerEvent(e) && Apply(cooldown, s, e).Some?
    ensures QueueOk(Apply(cooldown, s, e).value)
  {
    hide Apply, JobsOk, WorkerOk, StartedOk, ReadyOk, PointersOk, RepliesOk;
    AskHasShape(cooldown, s, e);
    PushedGrows(cooldown, s, e);
    assert e.PushQueue? ==> Minting(s.handlers[e.h]);
  }

  lemma AskKeepsReplies(cooldown: real, s: State, e: Event)
    requires Inv(s) && HandlerEvent(e) && Apply(cooldown, s, e).Some?
    ensures RepliesOk(Apply(cooldown, s, e).value)
  {
  }

  lemma AskKeepsDue(cooldown: real, s: State, e: Event, id: RunId)
    requires HandlerEvent(e) && Apply(cooldown, s, e).Some? && PointerDue(s, id)
    ensures PointerDue(Apply(cooldown, s, e).value, id)
  {
    var n := Apply(cooldown, s, e).value;
    AskHasShape(cooldown, s, e);
    if i :| 0 <= i < |s.handlers| && s.handlers[i].Pointed? && s.handlers[i].id == id {
      if e.PushQueue? && e.h == i {
        assert n.store.queue[|s.store.queue|].runId == id;
      } else {
        assert n.handlers[i].Pointed?;
      }
    } else if k :| 0 <= k < |s.store.queue| && s.store.queue[k].runId == id {
      assert n.store.queue[k].runId == id;
    }
  }

  lemma PointerOrigin(cooldown: real, s: State, e: Event, t: string)
    requires HandlerEvent(e) && Apply(cooldown, s, e).Some? && t in Apply(cooldown, s, e).value.store.active
    ensures
      var n := Apply(cooldown, s, e).value;
      if e.SetPointer? && e.h < |s.handlers| && t == s.handlers[e.h].ticker
      then s.handlers[e.h].Hashed? && n.store.active[t] == s.handlers[e.h].id && PointerDue(n, s.handlers[e.h].id)
      else t in s.store.active && n.store.active[t] == s.store.active[t]
  {
    if e.SetPointer? {
      assert Apply(cooldown, s, e).value.handlers[e.h].Pointed?;
    }
  }

  lemma AskKeepsPointers(cooldown: real, s: State, e: Event)
    requires Inv(s) && HandlerEvent(e) && Apply(cooldown, s, e).Some?
    ensures PointersOk(Apply(cooldown, s, e).value)
  {
    var n := Apply(cooldown, s, e).value;
    AskHasShape(cooldown, s, e);
    forall t | t in n.store.active
      ensures n.store.active[t] in n.store.jobs && n.store.jobs[n.store.active[t]].ticker == t
        && PointerDue(n, n.store.active[t])
    {
      PointerOrigin(cooldown, s, e, t);
      hide Apply, PointerDue;
      if t in s.store.active { AskKeepsDue(cooldown, s, e, s.store.active[t]); }
      if e.SetPointer? && e.h < |s.handlers| && t == s.handlers[e.h].ticker {
        assert Minting(s.handlers[e.h]);
      }
    }
  }

  // --- whole runs -----------------------------------------------------------------------------

  lemma StepKeepsInv(cooldown: real, s: State, e: Event)
    requires Inv(s) && Apply(cooldown, s, e).Some?
    ensures Inv(Apply(cooldown, s, e).value)
  {
    if HandlerEvent(e) {
      AskKeepsOthers(cooldown, s, e);
      AskKeepsJobs(cooldown, s, e);
      AskKeepsMints(cooldown, s, e);
      AskKeepsQueue(cooldown, s, e);
      AskKeepsReplies(cooldown, s, e);
      AskKeepsPointers(cooldown, s, e);
    } else {
      assert Apply(cooldown, s, e) == Work(s, e);
      WorkKeepsInv(s, e);
    }
    hide Apply, JobsOk, MintsOk, QueueOk, WorkerOk, StartedOk, ReadyOk, PointersOk, RepliesOk;
  }

  /** In every interleaving of any number of requests with the worker, every reachable state
      satisfies the invariant. */
  lemma {:induction false} RunKeepsInv(cooldown: real, s: State, events: seq<Event>)
    requires Inv(s) && Exec(cooldown, s, events).Some?
    ensures Inv(Exec(cooldown, s, events).value)
  {
    if events != [] {
      RunKeepsInv(cooldown, s, events[..|events| - 1]);
      StepKeepsInv(cooldown, Exec(cooldown, s, events[..|events| - 1]).value, Last(events));
    }
    hide Inv, Apply;
  }
}
