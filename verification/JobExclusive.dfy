/** When a ticker has one live job, and when a cooldown holds.

    The guard and the enqueue are not one step, and neither is `_finish`, so neither promise
    holds in every interleaving. One live job needs runs in which no two requests that are past
    the coalesce guard of a ticker meet, and none meets the worker between that ticker's
    verdict and the deletion of its pointer. The cooldown needs runs in which no request is past
    the cooldown guard while such a finish has yet to write its marker. JobExact shows that
    these conditions are exact, JobRaces has a run for each part. */
module JobExclusive {
  import opened Prelude
  import opened JobStore
  import opened JobProtocol
  import opened JobInvariant

  predicate LiveJob(s: State, id: RunId, t: string) {
    id in s.store.jobs && s.store.jobs[id].ticker == t && Live(s.store.jobs[id].status)
  }

  ghost predicate OneLive(s: State) {
    forall a, b, t :: LiveJob(s, a, t) && LiveJob(s, b, t) ==> a == b
  }

  ghost predicate NoneLive(s: State, t: string) {
    forall id :: !LiveJob(s, id, t)
  }

  /** Past the coalesce guard, or bound to pass it, and its pointer not yet written. */
  predicate Passing(s: State, h: Handler) {
    || h.ReadMarker? || h.Cleared? || h.Hashed?
    || (h.ReadStatus? && !(h.pointer in s.store.jobs && Live(s.store.jobs[h.pointer].status)))
  }

  /** Two requests for one ticker are passing. */
  predicate Overlap(s: State, i: nat, j: nat) {
    && i < |s.handlers| && j < |s.handlers| && i != j
    && Passing(s, s.handlers[i]) && Passing(s, s.handlers[j])
    && s.handlers[i].ticker == s.handlers[j].ticker
  }

  /** A request is passing while a job of its ticker has its verdict and still its pointer. */
  predicate Late(s: State, i: nat) {
    && i < |s.handlers| && Passing(s, s.handlers[i])
    && s.worker.PointerLeft? && s.worker.ticker == s.handlers[i].ticker
  }

  ghost predicate AsksApart(s: State) {
    forall i: nat, j: nat :: !Overlap(s, i, j)
  }

  ghost predicate DeleteApart(s: State) {
    forall i: nat :: !Late(s, i)
  }

  ghost predicate Guarded(s: State) {
    AsksApart(s) && DeleteApart(s)
  }

  /** Between the verdict of a job and the cooldown marker of its ticker. */
  predicate MidFinish(w: Worker, t: string) {
    (w.PointerLeft? || w.MarkerLeft?) && w.ticker == t
  }

  /** No request is past the cooldown guard of a ticker whose marker is due. */
  ghost predicate CheckApart(s: State) {
    forall i :: 0 <= i < |s.handlers| ==>
      (s.handlers[i].Cleared? ==> !MidFinish(s.worker, s.handlers[i].ticker))
  }

  ghost predicate Exclusive(s: State) {
    Guarded(s) && CheckApart(s)
  }

  /** The run is possible, and every state of it satisfies `p`. */
  ghost predicate Throughout(p: State -> bool, cooldown: real, s: State, events: seq<Event>) {
    && Exec(cooldown, s, events).Some?
    && p(Exec(cooldown, s, events).value)
    && (events != [] ==> Throughout(p, cooldown, s, events[..|events| - 1]))
  }

  lemma {:induction false} ThroughoutMono(p: State -> bool, q: State -> bool, cooldown: real, s: State,
                                          events: seq<Event>)
    requires Throughout(p, cooldown, s, events)
    requires forall n: State :: p(n) ==> q(n)
    ensures Throughout(q, cooldown, s, events)
  {
    if events != [] { ThroughoutMono(p, q, cooldown, s, events[..|events| - 1]); }
  }

  /** A run followed by another. */
  lemma {:induction false} ThroughoutCat(p: State -> bool, cooldown: real, s: State, first: seq<Event>,
                                         second: seq<Event>)
    requires Throughout(p, cooldown, s, first)
    requires Throughout(p, cooldown, Exec(cooldown, s, first).value, second)
    ensures Throughout(p, cooldown, s, first + second)
    ensures Exec(cooldown, s, first + second) == Exec(cooldown, Exec(cooldown, s, first).value, second)
  {
    if second == [] {
      assert first + second == first;
    } else {
      ThroughoutCat(p, cooldown, s, first, second[..|second| - 1]);
      assert (first + second)[..|first + second| - 1] == first + second[..|second| - 1];
      assert Last(first + second) == Last(second);
      hide Apply;
    }
  }

  /** One more event. */
  lemma Advance(p: State -> bool, cooldown: real, s: State, events: seq<Event>, e: Event, next: State)
    requires Throughout(p, cooldown, s, events)
    requires Apply(cooldown, Exec(cooldown, s, events).value, e) == Some(next) && p(next)
    ensures Throughout(p, cooldown, s, events + [e])
    ensures Exec(cooldown, s, events + [e]) == Some(next)
  {
    assert (events + [e])[..|events + [e]| - 1] == events;
    hide Apply;
  }

  ghost predicate ExclusiveRun(cooldown: real, s: State, events: seq<Event>) {
    Throughout(Exclusive, cooldown, s, events)
  }

  // --- what guarded runs keep ------------------------------------------------------------------

  /** A live job is either the one whose pointer is about to be written, or the pointer's. */
  ghost predicate LiveIsKnown(s: State) {
    forall id, t :: LiveJob(s, id, t) ==>
      || (t in s.store.active && s.store.active[t] == id)
      || (exists i :: 0 <= i < |s.handlers| && s.handlers[i] == Hashed(t, id))
  }

  /** Only `p` can be live for `t`. */
  ghost predicate OnlyLive(s: State, t: string, p: RunId) {
    forall id :: LiveJob(s, id, t) ==> id == p
  }

  /** What a request has learnt is still so. */
  ghost predicate Learnt(s: State, h: Handler) {
    match h
    case ReadStatus(t, p) => OnlyLive(s, t, p)
    case ReadMarker(t) => NoneLive(s, t)
    case Cleared(t) => NoneLive(s, t)
    case _ => true
  }

  ghost predicate LearntHolds(s: State) {
    forall i :: 0 <= i < |s.handlers| ==> Learnt(s, s.handlers[i])
  }

  ghost predicate FinishIsQuiet(s: State) {
    s.worker.PointerLeft? ==> NoneLive(s, s.worker.ticker)
  }

  ghost predicate OneInv(s: State) {
    OneLive(s) && LiveIsKnown(s) && LearntHolds(s) && FinishIsQuiet(s)
  }

  /** Where a live job comes from: it was live before, or its hash was written just now. */
  lemma LiveOrigin(cooldown: real, s: State, e: Event, id: RunId, t: string)
    requires JobsOk(s) && WorkerOk(s) && Apply(cooldown, s, e).Some? && LiveJob(Apply(cooldown, s, e).value, id, t)
    ensures
      || LiveJob(s, id, t)
      || (e.HashJob? && e.h < |s.handlers| && s.handlers[e.h] == Cleared(t) && id == e.id && id !in s.store.jobs
          && Apply(cooldown, s, e).value.handlers == s.handlers[e.h := Hashed(t, id)])
  {
    hide Conclude;
  }

  lemma StepKeepsOneLive(cooldown: real, s: State, e: Event)
    requires Inv(s) && OneInv(s) && Apply(cooldown, s, e).Some?
    ensures OneLive(Apply(cooldown, s, e).value)
  {
    var n := Apply(cooldown, s, e).value;
    forall a, b, t | LiveJob(n, a, t) && LiveJob(n, b, t) ensures a == b {
      LiveOrigin(cooldown, s, e, a, t);
      LiveOrigin(cooldown, s, e, b, t);
      hide Apply;
    }
  }

  lemma StepKeepsKnown(cooldown: real, s: State, e: Event)
    requires Inv(s) && OneInv(s) && Apply(cooldown, s, e).Some?
    ensures LiveIsKnown(Apply(cooldown, s, e).value)
  {
    var n := Apply(cooldown, s, e).value;
    forall id, t | LiveJob(n, id, t)
      ensures
        || (t in n.store.active && n.store.active[t] == id)
        || (exists i :: 0 <= i < |n.handlers| && n.handlers[i] == Hashed(t, id))
    {
      LiveOrigin(cooldown, s, e, id, t);
      if LiveJob(s, id, t) {
        KnownStays(cooldown, s, e, id, t);
      } else {
        hide Apply;
        assert n.handlers[e.h] == Hashed(t, id);
      }
    }
  }

  /** How a pointer comes to change. */
  lemma ActiveMoves(cooldown: real, s: State, e: Event, t: string)
    requires Apply(cooldown, s, e).Some? && t in s.store.active
    ensures
      var n := Apply(cooldown, s, e).value;
      || (t in n.store.active && n.store.active[t] == s.store.active[t])
      || (e.SetPointer? && e.h < |s.handlers| && t in n.store.active && s.handlers[e.h] == Hashed(t, n.store.active[t]))
      || (e.DeletePointer? && s.worker.PointerLeft? && s.worker.ticker == t)
  {
    hide Conclude;
  }

  lemma HashedMoves(cooldown: real, s: State, e: Event, i: nat)
    requires Apply(cooldown, s, e).Some? && i < |s.handlers| && s.handlers[i].Hashed?
    ensures
      var n := Apply(cooldown, s, e).value;
      || (i < |n.handlers| && n.handlers[i] == s.handlers[i])
      || (s.handlers[i].ticker in n.store.active && n.store.active[s.handlers[i].ticker] == s.handlers[i].id)
  {
    hide Conclude;
  }

  lemma KnownStays(cooldown: real, s: State, e: Event, id: RunId, t: string)
    requires MintsOk(s) && OneInv(s) && Apply(cooldown, s, e).Some? && LiveJob(s, id, t)
    ensures
      var n := Apply(cooldown, s, e).value;
      || (t in n.store.active && n.store.active[t] == id)
      || (exists i :: 0 <= i < |n.handlers| && n.handlers[i] == Hashed(t, id))
  {
    hide Apply, LearntHolds;
    if i :| 0 <= i < |s.handlers| && s.handlers[i] == Hashed(t, id) {
      HashedMoves(cooldown, s, e, i);
    } else {
      ActiveMoves(cooldown, s, e, t);
      if e.SetPointer? && e.h < |s.handlers| && s.handlers[e.h].Hashed? && s.handlers[e.h].ticker == t {
        assert Minting(s.handlers[e.h]);
        assert LiveJob(s, s.handlers[e.h].id, t);
      }
    }
  }

  lemma NoNewLive(cooldown: real, s: State, e: Event, t: string)
    requires Inv(s) && Apply(cooldown, s, e).Some?
    requires e.HashJob? ==> e.h < |s.handlers| && s.handlers[e.h].ticker != t
    ensures forall id :: LiveJob(Apply(cooldown, s, e).value, id, t) ==> LiveJob(s, id, t)
  {
    var n := Apply(cooldown, s, e).value;
    forall id | LiveJob(n, id, t) ensures LiveJob(s, id, t) {
      LiveOrigin(cooldown, s, e, id, t);
    }
  }

  /** A request keeps what it knows while others move. */
  lemma OthersKeepLearnt(cooldown: real, s: State, e: Event, i: nat)
    requires Inv(s) && OneInv(s) && Apply(cooldown, s, e).Some? && AsksApart(s)
    requires i < |s.handlers| && (s.handlers[i].ReadStatus? || s.handlers[i].ReadMarker? || s.handlers[i].Cleared?)
    requires e.HashJob? ==> e.h != i
    ensures Learnt(Apply(cooldown, s, e).value, s.handlers[i])
  {
    var t := s.handlers[i].ticker;
    assert Learnt(s, s.handlers[i]);
    if e.HashJob? { MintersApart(cooldown, s, e, i); }
    NoNewLive(cooldown, s, e, t);
    hide Apply, Inv, OneInv, AsksApart;
  }

  /** While one request still holds what it read of a ticker, no other can mint for it. */
  lemma MintersApart(cooldown: real, s: State, e: Event, i: nat)
    requires Inv(s) && OneInv(s) && Apply(cooldown, s, e).Some? && AsksApart(s) && e.HashJob? && e.h != i
    requires i < |s.handlers| && (s.handlers[i].ReadStatus? || s.handlers[i].ReadMarker? || s.handlers[i].Cleared?)
    ensures e.h < |s.handlers| && s.handlers[e.h].ticker != s.handlers[i].ticker
  {
    assert s.handlers[e.h].Cleared?;
    assert Learnt(s, s.handlers[e.h]);
    assert !Overlap(s, i, e.h);
    hide Apply;
    var h := s.handlers[i];
    assert Passing(s, h) || LiveJob(s, h.pointer, h.ticker);
  }

  /** The step that takes a request to, or past, the coalesce guard. */
  lemma OwnStepLearns(cooldown: real, s: State, e: Event)
    requires Inv(s) && OneInv(s) && Apply(cooldown, s, e).Some?
    requires e.GetPointer? || e.GetStatus? || e.GetMarker?
    requires AsksApart(Apply(cooldown, s, e).value)
    ensures Learnt(Apply(cooldown, s, e).value, Apply(cooldown, s, e).value.handlers[e.h])
  {
    var n := Apply(cooldown, s, e).value;
    var h := n.handlers[e.h];
    assert Learnt(s, s.handlers[e.h]);
    assert n.store == s.store;
    assert forall i :: 0 <= i < |s.handlers| && i != e.h ==> n.handlers[i] == s.handlers[i];
    forall i | 0 <= i < |n.handlers| && i != e.h && n.handlers[i].Hashed? && Passing(n, h)
      ensures n.handlers[i].ticker != h.ticker
    {
      assert !Overlap(n, i, e.h);
    }
    forall id | LiveJob(n, id, h.ticker) && (h.ReadStatus? || h.ReadMarker? || h.Cleared?)
      ensures h.ReadStatus? && h.pointer == id
    {
      assert LiveJob(s, id, h.ticker);
      if h.ReadStatus? { assert Passing(n, h) || LiveJob(s, h.pointer, h.ticker); }
    }
  }

  lemma StepKeepsLearnt(cooldown: real, s: State, e: Event)
    requires Inv(s) && OneInv(s) && Apply(cooldown, s, e).Some?
    requires AsksApart(s) && AsksApart(Apply(cooldown, s, e).value)
    ensures LearntHolds(Apply(cooldown, s, e).value)
  {
    var n := Apply(cooldown, s, e).value;
    hide Apply, Inv, OneInv, AsksApart, NoneLive, OnlyLive;
    forall i | 0 <= i < |n.handlers| ensures Learnt(n, n.handlers[i]) {
      HandlerMoves(cooldown, s, e, i);
      if n.handlers[i].ReadStatus? || n.handlers[i].ReadMarker? || n.handlers[i].Cleared? {
        if i < |s.handlers| && n.handlers[i] == s.handlers[i] {
          OthersKeepLearnt(cooldown, s, e, i);
        } else {
          OwnStepLearns(cooldown, s, e);
        }
      }
    }
  }

  lemma HandlerMoves(cooldown: real, s: State, e: Event, i: nat)
    requires Apply(cooldown, s, e).Some? && i < |Apply(cooldown, s, e).value.handlers|
    ensures
      var n := Apply(cooldown, s, e).value;
      || (i < |s.handlers| && n.handlers[i] == s.handlers[i] && !(e.HashJob? && e.h == i))
      || !(n.handlers[i].ReadStatus? || n.handlers[i].ReadMarker? || n.handlers[i].Cleared?)
      || ((e.GetPointer? || e.GetStatus? || e.GetMarker?) && e.h == i)
  {
    hide Conclude;
  }

  lemma StepKeepsFinish(cooldown: real, s: State, e: Event)
    requires Inv(s) && OneInv(s) && Apply(cooldown, s, e).Some? && DeleteApart(s)
    ensures FinishIsQuiet(Apply(cooldown, s, e).value)
  {
    var n := Apply(cooldown, s, e).value;
    FinishMoves(cooldown, s, e);
    assert e.HashJob? ==> !Late(s, e.h);
    if n.worker.PointerLeft? {
      var t := n.worker.ticker;
      forall id ensures !LiveJob(n, id, t) {
        if LiveJob(n, id, t) {
          LiveOrigin(cooldown, s, e, id, t);
          hide Apply;
        }
      }
    }
  }

  lemma FinishMoves(cooldown: real, s: State, e: Event)
    requires Inv(s) && Apply(cooldown, s, e).Some?
    ensures
      var n := Apply(cooldown, s, e).value;
      n.worker.PointerLeft? ==>
        || (s.worker.PointerLeft? && s.worker.ticker == n.worker.ticker)
        || (!e.HashJob? && s.worker.Finishing? && LiveJob(s, s.worker.id, n.worker.ticker)
            && s.worker.id in n.store.jobs && Terminal(n.store.jobs[s.worker.id].status))
  {
    hide Conclude;
  }

  /** In a guarded run a live job is the one its ticker points to or is about to, what each
      request has read still holds, and a ticker whose pointer is due has no live job. */
  lemma {:induction false} GuardedRunsKeepOne(cooldown: real, events: seq<Event>)
    requires Throughout(Guarded, cooldown, INIT, events)
    ensures
      var s := Exec(cooldown, INIT, events).value;
      Inv(s) && OneInv(s)
  {
    InvInit();
    RunKeepsInv(cooldown, INIT, events);
    if events != [] {
      var before, e := events[..|events| - 1], Last(events);
      GuardedRunsKeepOne(cooldown, before);
      var s := Exec(cooldown, INIT, before).value;
      StepKeepsOneLive(cooldown, s, e);
      StepKeepsKnown(cooldown, s, e);
      StepKeepsLearnt(cooldown, s, e);
      StepKeepsFinish(cooldown, s, e);
    }
    hide Inv, Apply, OneLive, LiveIsKnown, LearntHolds, FinishIsQuiet, AsksApart, DeleteApart;
  }

  lemma GuardedIsOneLive(cooldown: real, events: seq<Event>)
    requires Throughout(Guarded, cooldown, INIT, events)
    ensures OneLive(Exec(cooldown, INIT, events).value)
  {
    GuardedRunsKeepOne(cooldown, events);
    hide OneLive, Exec, Throughout;
  }

  // --- time -----------------------------------------------------------------------------------

  /** A finished job's ticker carries a cooldown marker at least as late as the job's end,
      except while the worker is still on its way to writing it. */
  ghost predicate TimesOk(s: State) {
    && (forall id :: id in s.store.jobs && Terminal(s.store.jobs[id].status) ==> Marked(s, id))
    && (forall t :: t in s.store.lastFinished ==> s.store.lastFinished[t] <= s.now)
  }

  predicate Marked(s: State, id: RunId)
    requires id in s.store.jobs
  {
    var j := s.store.jobs[id];
    && j.finishedAt.Some? && j.finishedAt.value <= s.now
    && (((s.worker.PointerLeft? || s.worker.MarkerLeft?) && s.worker.id == id)
        || (j.ticker in s.store.lastFinished && j.finishedAt.value <= s.store.lastFinished[j.ticker]))
  }

  lemma AskKeepsTimes(cooldown: real, s: State, e: Event)
    requires TimesOk(s) && HandlerEvent(e) && Apply(cooldown, s, e).Some?
    ensures TimesOk(Apply(cooldown, s, e).value)
  {
    var n := Apply(cooldown, s, e).value;
    assert s.now <= n.now;
    AskHasShape(cooldown, s, e);
    forall id | id in n.store.jobs && Terminal(n.store.jobs[id].status) ensures Marked(n, id) {
      JobOrigin(cooldown, s, e, id);
      hide Apply;
      assert id in s.store.jobs && Marked(s, id);
    }
    hide Apply;
  }

  lemma WorkKeepsTimes(s: State, e: Event)
    requires WorkerOk(s) && TimesOk(s) && Work(s, e).Some?
    ensures TimesOk(Work(s, e).value)
  {
    hide Conclude, LegalVerdict;
  }

  lemma StepKeepsTimes(cooldown: real, s: State, e: Event)
    requires Inv(s) && TimesOk(s) && Apply(cooldown, s, e).Some?
    ensures TimesOk(Apply(cooldown, s, e).value)
  {
    hide TimesOk;
    if HandlerEvent(e) {
      AskKeepsTimes(cooldown, s, e);
    } else {
      assert Apply(cooldown, s, e) == Work(s, e);
      WorkKeepsTimes(s, e);
    }
  }

  lemma {:induction false} RunKeepsTimes(cooldown: real, events: seq<Event>)
    requires Exec(cooldown, INIT, events).Some?
    ensures TimesOk(Exec(cooldown, INIT, events).value)
  {
    if events != [] {
      var before := events[..|events| - 1];
      RunKeepsTimes(cooldown, before);
      InvInit();
      RunKeepsInv(cooldown, INIT, before);
      StepKeepsTimes(cooldown, Exec(cooldown, INIT, before).value, Last(events));
    }
    hide Inv, Apply, Marked;
  }

  // --- the cooldown ----------------------------------------------------------------------------

  /** Every job of the ticker that is over ended at least a cooldown ago. */
  ghost predicate EndsRested(cooldown: real, s: State, t: string) {
    forall id :: id in s.store.jobs && s.store.jobs[id].ticker == t && Terminal(s.store.jobs[id].status) ==>
      s.store.jobs[id].finishedAt.Some? && s.now - s.store.jobs[id].finishedAt.value >= cooldown
  }

  /** Every request that could mint now keeps the cooldown. */
  ghost predicate Spaced(cooldown: real, s: State) {
    forall i :: 0 <= i < |s.handlers| ==> (s.handlers[i].Cleared? ==> EndsRested(cooldown, s, s.handlers[i].ticker))
  }

  /** The job in hand, one of t, got its verdict less than a cooldown ago and its marker is due. */
  predicate YoungFinish(cooldown: real, s: State, t: string) {
    && MidFinish(s.worker, t) && s.worker.id in s.store.jobs
    && s.store.jobs[s.worker.id].finishedAt.Some?
    && s.now - s.store.jobs[s.worker.id].finishedAt.value < cooldown
  }

  /** No request is past the cooldown guard of a ticker with a young finish. */
  ghost predicate YoungApart(cooldown: real, s: State) {
    forall i :: 0 <= i < |s.handlers| ==>
      (s.handlers[i].Cleared? ==> !YoungFinish(cooldown, s, s.handlers[i].ticker))
  }

  lemma SpacedIsYoungApart(cooldown: real, s: State)
    requires WorkerOk(s) && Spaced(cooldown, s)
    ensures YoungApart(cooldown, s)
  {
    hide Conclude, LegalVerdict;
    forall i | 0 <= i < |s.handlers| && s.handlers[i].Cleared?
      ensures !YoungFinish(cooldown, s, s.handlers[i].ticker)
    {
      assert EndsRested(cooldown, s, s.handlers[i].ticker);
    }
  }

  /** A marker that lets the ticker through speaks for every job of it but a young finish. */
  lemma MarkerSpeaks(cooldown: real, s: State, t: string)
    requires WorkerOk(s) && TimesOk(s) && !CoolingDown(s.store, t, s.now, cooldown) && !YoungFinish(cooldown, s, t)
    ensures EndsRested(cooldown, s, t)
  {
    hide LegalVerdict;
    forall id | id in s.store.jobs && s.store.jobs[id].ticker == t && Terminal(s.store.jobs[id].status)
      ensures s.store.jobs[id].finishedAt.Some? && s.now - s.store.jobs[id].finishedAt.value >= cooldown
    {
      assert Marked(s, id);
    }
  }

  /** A job that is over was so before, or is the one whose verdict was written just now. */
  lemma OverOrigin(cooldown: real, s: State, e: Event, id: RunId)
    requires Inv(s) && Apply(cooldown, s, e).Some?
    requires id in Apply(cooldown, s, e).value.store.jobs && Terminal(Apply(cooldown, s, e).value.store.jobs[id].status)
    ensures
      var n := Apply(cooldown, s, e).value;
      && s.now <= n.now
      && ((id in s.store.jobs && n.store.jobs[id] == s.store.jobs[id])
          || (n.worker == PointerLeft(id, n.store.jobs[id].ticker) && n.store.jobs[id].finishedAt == Some(n.now)))
  {
    hide Conclude, MintsOk, QueueOk, PointersOk, RepliesOk, StartedOk, ReadyOk, JobsOk;
  }

  lemma ClearedOrigin(cooldown: real, s: State, e: Event, i: nat)
    requires Apply(cooldown, s, e).Some? && i < |Apply(cooldown, s, e).value.handlers|
    requires Apply(cooldown, s, e).value.handlers[i].Cleared?
    ensures
      var n := Apply(cooldown, s, e).value;
      || (i < |s.handlers| && s.handlers[i] == n.handlers[i])
      || !CoolingDown(n.store, n.handlers[i].ticker, n.now, cooldown)
  {
    hide Conclude;
  }

  lemma StepKeepsSpaced(cooldown: real, s: State, e: Event)
    requires Inv(s) && Spaced(cooldown, s) && Apply(cooldown, s, e).Some?
    requires
      var n := Apply(cooldown, s, e).value;
      WorkerOk(n) && TimesOk(n) && YoungApart(cooldown, n)
    ensures Spaced(cooldown, Apply(cooldown, s, e).value)
  {
    var n := Apply(cooldown, s, e).value;
    hide Apply, Inv, WorkerOk, TimesOk, CoolingDown;
    forall i | 0 <= i < |n.handlers| && n.handlers[i].Cleared? ensures EndsRested(cooldown, n, n.handlers[i].ticker) {
      var t := n.handlers[i].ticker;
      ClearedOrigin(cooldown, s, e, i);
      if i < |s.handlers| && s.handlers[i] == n.handlers[i] {
        assert EndsRested(cooldown, s, t);
        forall id | id in n.store.jobs && n.store.jobs[id].ticker == t && Terminal(n.store.jobs[id].status)
          ensures n.store.jobs[id].finishedAt.Some? && n.now - n.store.jobs[id].finishedAt.value >= cooldown
        {
          OverOrigin(cooldown, s, e, id);
        }
      } else {
        MarkerSpeaks(cooldown, n, t);
      }
    }
  }

  // --- both promises ----------------------------------------------------------------------------

  /** Every earlier job of the ticker is over, and ended at least a cooldown ago. */
  ghost predicate Rested(cooldown: real, s: State, t: string) {
    NoneLive(s, t) && EndsRested(cooldown, s, t)
  }

  lemma ExclusiveIsYoungApart(cooldown: real, s: State)
    requires CheckApart(s)
    ensures YoungApart(cooldown, s)
  {
  }

  lemma {:induction false} CheckedRunsAreSpaced(cooldown: real, events: seq<Event>)
    requires Throughout(CheckApart, cooldown, INIT, events)
    ensures Spaced(cooldown, Exec(cooldown, INIT, events).value)
  {
    if events != [] {
      var before, e := events[..|events| - 1], Last(events);
      CheckedRunsAreSpaced(cooldown, before);
      InvInit();
      RunKeepsInv(cooldown, INIT, before);
      RunKeepsInv(cooldown, INIT, events);
      RunKeepsTimes(cooldown, events);
      ExclusiveIsYoungApart(cooldown, Exec(cooldown, INIT, events).value);
      StepKeepsSpaced(cooldown, Exec(cooldown, INIT, before).value, e);
    }
    hide Apply, Spaced, YoungApart, CheckApart, TimesOk, JobsOk, MintsOk, QueueOk, StartedOk, ReadyOk, PointersOk,
         RepliesOk;
  }

  /** In every exclusive run a ticker never has two live jobs, and a job is minted for it only
      when every earlier one is over and ended at least a cooldown ago. */
  lemma OneLivePerTicker(cooldown: real, events: seq<Event>, h: nat, id: RunId)
    requires ExclusiveRun(cooldown, INIT, events)
    ensures
      var s := Exec(cooldown, INIT, events).value;
      && OneLive(s)
      && (Apply(cooldown, s, HashJob(h, id)).Some? ==> Rested(cooldown, s, s.handlers[h].ticker))
  {
    ThroughoutMono(Exclusive, Guarded, cooldown, INIT, events);
    ThroughoutMono(Exclusive, CheckApart, cooldown, INIT, events);
    GuardedRunsKeepOne(cooldown, events);
    CheckedRunsAreSpaced(cooldown, events);
    var s := Exec(cooldown, INIT, events).value;
    if Apply(cooldown, s, HashJob(h, id)).Some? { assert Learnt(s, s.handlers[h]); }
    hide Exec, EndsRested, NoneLive, OneLive, LiveIsKnown, FinishIsQuiet, Exclusive, Throughout;
  }
}
