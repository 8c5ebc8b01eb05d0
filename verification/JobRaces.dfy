/** Concrete runs that break the promises, one for each part of the conditions: two requests
    passing at once, a request passing before a pointer is deleted, and one past the cooldown
    guard before a marker is written. Each run keeps the other parts throughout. */
module JobRaces {
  import opened Prelude
  import opened JobStore
  import opened JobProtocol
  import opened JobExclusive

  /** One more event of a run from the start. */
  lemma Go(p: State -> bool, k: real, events: seq<Event>, s: State, e: Event) returns (more: seq<Event>, n: State)
    requires Throughout(p, k, INIT, events) && Exec(k, INIT, events) == Some(s)
    requires Apply(k, s, e).Some? && p(Apply(k, s, e).value)
    ensures more == events + [e] && n == Apply(k, s, e).value
    ensures Throughout(p, k, INIT, more) && Exec(k, INIT, more) == Some(n)
  {
    more, n := events + [e], Apply(k, s, e).value;
    Advance(p, k, INIT, events, e, n);
  }

  /** At most one request is passing, and none while a pointer is due. */
  ghost predicate Quiet(s: State) {
    && (forall i :: 0 <= i < |s.handlers| - 1 ==> s.handlers[i].Answered?)
    && (s.worker.PointerLeft? && s.handlers != [] ==> s.handlers[|s.handlers| - 1].Answered?)
  }

  lemma QuietIsGuarded(s: State)
    requires Quiet(s)
    ensures Guarded(s)
  {
  }

  lemma GoQuiet(k: real, events: seq<Event>, s: State, e: Event) returns (more: seq<Event>, n: State)
    requires Throughout(Guarded, k, INIT, events) && Exec(k, INIT, events) == Some(s)
    requires Apply(k, s, e).Some? && Quiet(Apply(k, s, e).value)
    ensures more == events + [e] && n == Apply(k, s, e).value
    ensures Throughout(Guarded, k, INIT, more) && Exec(k, INIT, more) == Some(n)
  {
    QuietIsGuarded(Apply(k, s, e).value);
    more, n := Go(Guarded, k, events, s, e);
  }

  /** All requests but the last are answered. */
  ghost predicate OneAsking(s: State) {
    forall i :: 0 <= i < |s.handlers| - 1 ==> s.handlers[i].Answered?
  }

  lemma OneAskingIsApart(s: State)
    requires OneAsking(s)
    ensures AsksApart(s)
  {
  }

  lemma GoApart(k: real, events: seq<Event>, s: State, e: Event) returns (more: seq<Event>, n: State)
    requires Throughout(AsksApart, k, INIT, events) && Exec(k, INIT, events) == Some(s)
    requires Apply(k, s, e).Some? && OneAsking(Apply(k, s, e).value)
    ensures more == events + [e] && n == Apply(k, s, e).value
    ensures Throughout(AsksApart, k, INIT, more) && Exec(k, INIT, more) == Some(n)
  {
    OneAskingIsApart(Apply(k, s, e).value);
    more, n := Go(AsksApart, k, events, s, e);
  }

  lemma BothAsk(cooldown: real, t: string) returns (events: seq<Event>, s: State)
    ensures Throughout(DeleteApart, cooldown, INIT, events) && Exec(cooldown, INIT, events) == Some(s)
    ensures s.store == EMPTY && s.worker.Idle? && s.handlers == [ReadMarker(t), ReadMarker(t)]
  {
    var p, k := DeleteApart, cooldown;
    events, s := [], INIT;
    events, s := Go(p, k, events, s, Arrive(t));
    events, s := Go(p, k, events, s, Arrive(t));
    events, s := Go(p, k, events, s, GetPointer(0));
    events, s := Go(p, k, events, s, GetPointer(1));
    hide Exec, Throughout;
  }

  /** Two overlapping requests for a new ticker each mint a job, with the worker never in the way. */
  lemma OverlapBreaksIt(cooldown: real, t: string) returns (events: seq<Event>)
    ensures Throughout(DeleteApart, cooldown, INIT, events)
    ensures !OneLive(Exec(cooldown, INIT, events).value)
  {
    var p, k, s := DeleteApart, cooldown, INIT;
    events, s := BothAsk(k, t);
    events, s := Go(p, k, events, s, GetMarker(0));
    events, s := Go(p, k, events, s, GetMarker(1));
    events, s := Go(p, k, events, s, HashJob(0, 1));
    events, s := Go(p, k, events, s, HashJob(1, 2));
    assert LiveJob(s, 1, t) && LiveJob(s, 2, t);
    hide Exec, Throughout;
  }

  /** Job 1 has failed and its pointer is still there. */
  predicate VerdictOut(s: State, t: string) {
    && |s.handlers| == 1 && s.handlers[0].Answered?
    && s.worker == PointerLeft(1, t)
    && t in s.store.active && s.store.active[t] == 1
    && 1 in s.store.jobs && s.store.jobs[1].status == FAILED && s.store.jobs[1].ticker == t
    && s.store.jobs[1].finishedAt == Some(s.now)
    && 2 !in s.store.jobs && 3 !in s.store.jobs
    && t !in s.store.lastFinished
  }

  lemma FirstCleared(cooldown: real, t: string) returns (events: seq<Event>, s: State)
    ensures Throughout(Guarded, cooldown, INIT, events) && Exec(cooldown, INIT, events) == Some(s)
    ensures s.store == EMPTY && s.worker.Idle? && s.handlers == [Cleared(t)]
  {
    var k := cooldown;
    events, s := [], INIT;
    events, s := GoQuiet(k, events, s, Arrive(t));
    events, s := GoQuiet(k, events, s, GetPointer(0));
    events, s := GoQuiet(k, events, s, GetMarker(0));
    hide Exec, Throughout, Guarded;
  }

  lemma FirstQueued(cooldown: real, t: string) returns (events: seq<Event>, s: State)
    ensures Throughout(Guarded, cooldown, INIT, events) && Exec(cooldown, INIT, events) == Some(s)
    ensures s.store == Enqueued(EMPTY, 1, t) && s.worker.Idle? && |s.handlers| == 1 && s.handlers[0].Answered?
  {
    var k := cooldown;
    events, s := FirstCleared(cooldown, t);
    events, s := GoQuiet(k, events, s, HashJob(0, 1));
    events, s := GoQuiet(k, events, s, SetPointer(0));
    events, s := GoQuiet(k, events, s, PushQueue(0));
  }

  lemma FirstFails(cooldown: real, t: string) returns (events: seq<Event>, s: State)
    ensures Throughout(Guarded, cooldown, INIT, events) && Exec(cooldown, INIT, events) == Some(s)
    ensures VerdictOut(s, t)
  {
    var k := cooldown;
    events, s := FirstQueued(cooldown, t);
    events, s := GoQuiet(k, events, s, Pop);
    events, s := GoQuiet(k, events, s, PoolFails);
    events, s := GoQuiet(k, events, s, WriteVerdict);
    hide Exec, Throughout, Guarded;
  }

  /** Job 2 is queued behind the verdict of job 1. */
  predicate SecondQueued(s: State, t: string) {
    && |s.handlers| == 2 && s.handlers[0].Answered? && s.handlers[1].Answered?
    && s.worker == PointerLeft(1, t)
    && LiveJob(s, 2, t) && 3 !in s.store.jobs
  }

  /** The second request has passed every guard behind the verdict of job 1. */
  predicate SecondCleared(s: State, t: string) {
    && |s.handlers| == 2 && s.handlers[0].Answered? && s.handlers[1] == Cleared(t)
    && s.worker == PointerLeft(1, t)
    && 2 !in s.store.jobs && 3 !in s.store.jobs
  }

  lemma SecondClears(cooldown: real, t: string, before: seq<Event>, mid: State) returns (events: seq<Event>, s: State)
    requires Throughout(AsksApart, cooldown, INIT, before) && Exec(cooldown, INIT, before) == Some(mid)
    requires VerdictOut(mid, t)
    ensures Throughout(AsksApart, cooldown, INIT, events) && Exec(cooldown, INIT, events) == Some(s)
    ensures SecondCleared(s, t)
  {
    hide Exec, Throughout, AsksApart, DeleteApart;
    var k := cooldown;
    events, s := GoApart(k, before, mid, Arrive(t));
    events, s := GoApart(k, events, s, GetPointer(1));
    events, s := GoApart(k, events, s, GetStatus(1));
    events, s := GoApart(k, events, s, GetMarker(1));
  }

  lemma SecondSlipsIn(cooldown: real, t: string, before: seq<Event>, mid: State) returns (events: seq<Event>, s: State)
    requires Throughout(AsksApart, cooldown, INIT, before) && Exec(cooldown, INIT, before) == Some(mid)
    requires VerdictOut(mid, t)
    ensures Throughout(AsksApart, cooldown, INIT, events) && Exec(cooldown, INIT, events) == Some(s)
    ensures SecondQueued(s, t)
  {
    hide Exec, Throughout, AsksApart, DeleteApart;
    var k := cooldown;
    events, s := SecondClears(k, t, before, mid);
    events, s := GoApart(k, events, s, HashJob(1, 2));
    events, s := GoApart(k, events, s, SetPointer(1));
    events, s := GoApart(k, events, s, PushQueue(1));
  }

  /** Job 2 is live without a pointer, and the cooldown of job 1 is over. */
  predicate Orphaned(s: State, t: string, cooldown: real) {
    && |s.handlers| == 2 && s.handlers[0].Answered? && s.handlers[1].Answered?
    && t !in s.store.active && !CoolingDown(s.store, t, s.now, cooldown)
    && LiveJob(s, 2, t) && 3 !in s.store.jobs
  }

  lemma FinishesLate(cooldown: real, t: string, before: seq<Event>, mid: State) returns (events: seq<Event>, s: State)
    requires Throughout(AsksApart, cooldown, INIT, before) && Exec(cooldown, INIT, before) == Some(mid)
    requires SecondQueued(mid, t) && cooldown >= 0.0
    ensures Throughout(AsksApart, cooldown, INIT, events) && Exec(cooldown, INIT, events) == Some(s)
    ensures Orphaned(s, t, cooldown)
  {
    hide Exec, Throughout, AsksApart, DeleteApart;
    var k := cooldown;
    events, s := GoApart(k, before, mid, DeletePointer);
    events, s := GoApart(k, events, s, WriteMarker);
    events, s := GoApart(k, events, s, Tick(k));
  }

  /** One request at a time is not enough: a request served after a verdict is written and
      before the pointer is deleted has its own pointer deleted, so that once the cooldown is
      over a third request mints a job beside the second. */
  lemma LateDeleteBreaksIt(cooldown: real, t: string) returns (events: seq<Event>)
    requires cooldown >= 0.0
    ensures Throughout(AsksApart, cooldown, INIT, events)
    ensures !OneLive(Exec(cooldown, INIT, events).value)
  {
    hide Exec, Throughout, AsksApart, DeleteApart;
    var k, s := cooldown, INIT;
    events, s := FirstFails(k, t);
    ThroughoutMono(Guarded, AsksApart, k, INIT, events);
    events, s := SecondSlipsIn(k, t, events, s);
    events, s := FinishesLate(k, t, events, s);
    events, s := GoApart(k, events, s, Arrive(t));
    events, s := GoApart(k, events, s, GetPointer(2));
    events, s := GoApart(k, events, s, GetMarker(2));
    events, s := GoApart(k, events, s, HashJob(2, 3));
    assert LiveJob(s, 2, t) && LiveJob(s, 3, t);
  }

  /** Job 1 is over and unmarked, and a second request is past the cooldown guard. */
  predicate CheckedTooEarly(s: State, t: string) {
    && |s.handlers| == 2 && s.handlers[1] == Cleared(t)
    && 1 in s.store.jobs && s.store.jobs[1].ticker == t && s.store.jobs[1].status == FAILED
    && s.store.jobs[1].finishedAt == Some(s.now)
    && 2 !in s.store.jobs
  }

  lemma SecondChecks(cooldown: real, t: string, before: seq<Event>, mid: State) returns (events: seq<Event>, s: State)
    requires Throughout(Guarded, cooldown, INIT, before) && Exec(cooldown, INIT, before) == Some(mid)
    requires VerdictOut(mid, t)
    ensures Throughout(Guarded, cooldown, INIT, events) && Exec(cooldown, INIT, events) == Some(s)
    ensures CheckedTooEarly(s, t)
  {
    var k := cooldown;
    events, s := GoQuiet(k, before, mid, DeletePointer);
    events, s := GoQuiet(k, events, s, Arrive(t));
    events, s := GoQuiet(k, events, s, GetPointer(1));
    events, s := GoQuiet(k, events, s, GetMarker(1));
    hide Exec, Throughout, Guarded;
  }

  /** A guarded run, with one live job at most, in which a job can be minted within the cooldown
      of the last one: the request reads the marker before the worker writes it. */
  lemma LateMarkerBreaksCooldown(cooldown: real, t: string) returns (events: seq<Event>)
    requires cooldown > 0.0
    ensures Throughout(Guarded, cooldown, INIT, events)
    ensures
      var s := Exec(cooldown, INIT, events).value;
      && OneLive(s)
      && Apply(cooldown, s, HashJob(1, 2)).Some? && !EndsRested(cooldown, s, s.handlers[1].ticker)
  {
    hide Exec, Throughout, Guarded, OneLive;
    var s: State;
    events, s := FirstFails(cooldown, t);
    events, s := SecondChecks(cooldown, t, events, s);
    GuardedIsOneLive(cooldown, events);
    assert Terminal(s.store.jobs[1].status);
  }
}
