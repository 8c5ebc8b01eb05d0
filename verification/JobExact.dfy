/** The conditions under which the two promises hold are exact.

    The cooldown: a whole run keeps it exactly when, throughout, no request is past the cooldown
    guard of a ticker with a young finish. One live job: as soon as a run leaves the guarded
    states it can end with two live jobs of one ticker without any further breach, and as long as
    it has not, no run without a breach ever does. */
module JobExact {
  import opened Prelude
  import opened JobStore
  import opened JobProtocol
  import opened JobInvariant
  import opened JobExclusive

  // --- the cooldown ----------------------------------------------------------------------------

  ghost function SpacedAt(cooldown: real): State -> bool { (s: State) => Spaced(cooldown, s) }

  ghost function YoungApartAt(cooldown: real): State -> bool { (s: State) => YoungApart(cooldown, s) }

  /** Whatever the run: in all its states every request that could mint keeps the cooldown,
      exactly when in all its states no request is past the guard of a young finish. */
  lemma {:induction false} CooldownExactly(cooldown: real, events: seq<Event>)
    requires Exec(cooldown, INIT, events).Some?
    ensures Throughout(SpacedAt(cooldown), cooldown, INIT, events)
       <==> Throughout(YoungApartAt(cooldown), cooldown, INIT, events)
  {
    var s := Exec(cooldown, INIT, events).value;
    InvInit();
    RunKeepsInv(cooldown, INIT, events);
    RunKeepsTimes(cooldown, events);
    if Spaced(cooldown, s) { SpacedIsYoungApart(cooldown, s); }
    if events != [] {
      var before := events[..|events| - 1];
      CooldownExactly(cooldown, before);
      RunKeepsInv(cooldown, INIT, before);
      var mid := Exec(cooldown, INIT, before).value;
      if Spaced(cooldown, mid) && YoungApart(cooldown, s) { StepKeepsSpaced(cooldown, mid, Last(events)); }
    }
    hide Apply, Spaced, YoungApart, TimesOk, JobsOk, MintsOk, QueueOk, WorkerOk, StartedOk, ReadyOk, PointersOk,
         RepliesOk;
  }

  // --- one live job: runs without a new breach -------------------------------------------------

  /** Every overlap and every late request of n was already there in s. */
  ghost predicate NoNewBreach(s: State, n: State) {
    && (forall i: nat, j: nat :: Overlap(n, i, j) ==> Overlap(s, i, j))
    && (forall i: nat :: Late(n, i) ==> Late(s, i) && n.worker == s.worker)
  }

  ghost function Careful(s: State): State -> bool { (n: State) => NoNewBreach(s, n) }

  /** n's passing requests were passing in s. */
  ghost predicate Within(s: State, n: State) {
    && |n.handlers| == |s.handlers|
    && (n.worker == s.worker || !n.worker.PointerLeft?)
    && (forall i :: 0 <= i < |n.handlers| ==>
          (Passing(n, n.handlers[i]) ==> Passing(s, s.handlers[i]) && n.handlers[i].ticker == s.handlers[i].ticker))
  }

  lemma WithinIsCareful(s: State, n: State)
    requires Within(s, n)
    ensures NoNewBreach(s, n)
  {
  }

  /** No job of s is lost or changed, and the clock, markers and pointers are as told. */
  ghost predicate Kept(s: State, n: State) {
    forall id :: id in s.store.jobs ==> id in n.store.jobs && n.store.jobs[id] == s.store.jobs[id]
  }

  lemma FreshId(ids: set<RunId>) returns (id: RunId)
    ensures id !in ids
  {
    id := Above(ids);
  }

  lemma {:induction false} Above(ids: set<RunId>) returns (bound: RunId)
    ensures forall x: RunId :: x in ids ==> x < bound
  {
    if ids == {} {
      bound := 0;
    } else {
      var one :| one in ids;
      var rest := Above(ids - {one});
      bound := if one < rest then rest else one + 1;
      forall x: RunId | x in ids ensures x < bound { assert x == one || x in ids - {one}; }
    }
  }

  // --- moving one passing request -----------------------------------------------------------------

  /** A state reached from s without a new breach, keeping its jobs. */
  ghost predicate Reached(cooldown: real, s: State, events: seq<Event>, n: State) {
    Throughout(Careful(s), cooldown, s, events) && Exec(cooldown, s, events) == Some(n) && Inv(n) && TimesOk(n)
      && Kept(s, n)
  }

  lemma ReachedNow(cooldown: real, s: State)
    requires Inv(s) && TimesOk(s)
    ensures Reached(cooldown, s, [], s)
  {
  }

  /** One more event, into a state without a new breach. */
  lemma Go(cooldown: real, s: State, events: seq<Event>, n: State, e: Event) returns (more: seq<Event>, m: State)
    requires Reached(cooldown, s, events, n) && Apply(cooldown, n, e).Some?
    requires NoNewBreach(s, Apply(cooldown, n, e).value) && Kept(n, Apply(cooldown, n, e).value)
    ensures m == Apply(cooldown, n, e).value && Reached(cooldown, s, more, m)
  {
    more, m := events + [e], Apply(cooldown, n, e).value;
    StepKeepsInv(cooldown, n, e);
    StepKeepsTimes(cooldown, n, e);
    Advance(Careful(s), cooldown, s, events, e, m);
    hide Apply, Inv, TimesOk, NoNewBreach, Throughout, Exec;
  }

  /** n with request i moved on, all the rest of it as before. */
  ghost predicate Progressed(n: State, m: State, i: nat) {
    && i < |n.handlers| == |m.handlers|
    && m.worker == n.worker
    && m.now == n.now && m.store.lastFinished == n.store.lastFinished
    && m.handlers[i].ticker == n.handlers[i].ticker
    && (forall k :: 0 <= k < |n.handlers| && k != i ==> m.handlers[k] == n.handlers[k])
    && Kept(n, m)
  }

  lemma ProgressStaysWithin(s: State, n: State, m: State, i: nat)
    requires Within(s, n) && Progressed(n, m, i) && RepliesOk(n)
    requires i < |s.handlers| && Passing(s, s.handlers[i]) && s.handlers[i].ticker == n.handlers[i].ticker
    ensures Within(s, m)
  {
    hide NoNewBreach;
    forall k | 0 <= k < |m.handlers| && Passing(m, m.handlers[k])
      ensures Passing(s, s.handlers[k]) && m.handlers[k].ticker == s.handlers[k].ticker
    {
      if k != i { assert Passing(n, n.handlers[k]); }
    }
  }

  lemma AskProgresses(cooldown: real, n: State, e: Event)
    requires Apply(cooldown, n, e).Some?
    requires e.GetStatus? || e.GetMarker? || e.HashJob? || e.SetPointer? || e.PushQueue?
    ensures Progressed(n, Apply(cooldown, n, e).value, e.h)
  {
  }

  /** A move of a request that was passing in s. */
  lemma GoAsk(cooldown: real, s: State, events: seq<Event>, n: State, e: Event) returns (more: seq<Event>, m: State)
    requires Reached(cooldown, s, events, n) && Within(s, n) && Apply(cooldown, n, e).Some?
    requires e.GetStatus? || e.GetMarker? || e.HashJob? || e.SetPointer? || e.PushQueue?
    requires e.h < |s.handlers| && Passing(s, s.handlers[e.h]) && s.handlers[e.h].ticker == n.handlers[e.h].ticker
    ensures m == Apply(cooldown, n, e).value && Reached(cooldown, s, more, m) && Within(s, m) && Progressed(n, m, e.h)
  {
    AskProgresses(cooldown, n, e);
    ProgressStaysWithin(s, n, Apply(cooldown, n, e).value, e.h);
    WithinIsCareful(s, Apply(cooldown, n, e).value);
    hide Apply, NoNewBreach, Within, Inv, TimesOk, Throughout;
    more, m := Go(cooldown, s, events, n, e);
  }

  lemma ProgressTwice(n: State, m: State, l: State, i: nat)
    requires Progressed(n, m, i) && Progressed(m, l, i)
    ensures Progressed(n, l, i)
  {
  }

  lemma ProgressNot(n: State, i: nat)
    requires i < |n.handlers|
    ensures Progressed(n, n, i)
  {
  }

  /** What a passing request does next, until its job hash is written. */
  function NextPass(h: Handler, i: nat, id: RunId): Event {
    match h
    case ReadStatus(_, _) => GetStatus(i)
    case ReadMarker(_) => GetMarker(i)
    case _ => HashJob(i, id)
  }

  function AfterPass(h: Handler, id: RunId): Handler {
    match h
    case ReadStatus(t, _) => ReadMarker(t)
    case ReadMarker(t) => Cleared(t)
    case _ => Hashed(h.ticker, id)
  }

  lemma PassHappens(cooldown: real, n: State, i: nat, id: RunId)
    requires i < |n.handlers| && Passing(n, n.handlers[i]) && !n.handlers[i].Hashed? && id !in n.store.jobs
    requires !CoolingDown(n.store, n.handlers[i].ticker, n.now, cooldown)
    ensures
      var m := Apply(cooldown, n, NextPass(n.handlers[i], i, id));
      && m.Some? && m.value.handlers[i] == AfterPass(n.handlers[i], id)
      && !CoolingDown(m.value.store, n.handlers[i].ticker, m.value.now, cooldown)
  {
  }

  function PassesLeft(h: Handler): nat {
    match h
    case ReadStatus(_, _) => 3
    case ReadMarker(_) => 2
    case Cleared(_) => 1
    case _ => 0
  }

  /** A passing request can always mint its job once the cooldown is over. */
  lemma {:induction false} MintsNow(cooldown: real, s: State, events: seq<Event>, n: State, i: nat)
    returns (more: seq<Event>, m: State)
    requires Reached(cooldown, s, events, n) && Within(s, n)
    requires i < |n.handlers| && Passing(n, n.handlers[i])
    requires i < |s.handlers| && Passing(s, s.handlers[i]) && s.handlers[i].ticker == n.handlers[i].ticker
    requires !CoolingDown(n.store, n.handlers[i].ticker, n.now, cooldown)
    ensures Reached(cooldown, s, more, m) && Within(s, m) && Progressed(n, m, i) && m.handlers[i].Hashed?
    decreases PassesLeft(n.handlers[i])
  {
    hide Reached, Within, Apply, Progressed, CoolingDown;
    if n.handlers[i].Hashed? {
      ProgressNot(n, i);
      return events, n;
    }
    var id := FreshId(n.store.jobs.Keys);
    PassHappens(cooldown, n, i, id);
    var e := NextPass(n.handlers[i], i, id);
    var steps, mid := GoAsk(cooldown, s, events, n, e);
    SameIndex(n, mid, i);
    more, m := MintsNow(cooldown, s, steps, mid, i);
    ProgressTwice(n, mid, m, i);
  }

  lemma SameIndex(n: State, m: State, i: nat)
    requires Progressed(n, m, i)
    ensures i < |n.handlers| == |m.handlers| && m.handlers[i].ticker == n.handlers[i].ticker
    ensures m.now == n.now && m.store.lastFinished == n.store.lastFinished && m.worker == n.worker
    ensures forall k :: 0 <= k < |n.handlers| && k != i ==> m.handlers[k] == n.handlers[k]
  {
  }

  // --- two requests passing at once ---------------------------------------------------------------

  /** Waiting a cooldown lets every ticker through. */
  lemma GoWait(cooldown: real, s: State, events: seq<Event>, n: State) returns (more: seq<Event>, m: State)
    requires Reached(cooldown, s, events, n) && Within(s, n)
    ensures Reached(cooldown, s, more, m) && Within(s, m) && m == n.(now := m.now)
    ensures forall t :: !CoolingDown(m.store, t, m.now, cooldown)
  {
    var e := Tick(if cooldown >= 0.0 then cooldown else 0.0);
    m := Apply(cooldown, n, e).value;
    assert Within(s, m);
    WithinIsCareful(s, m);
    assert forall t :: t in n.store.lastFinished ==> n.store.lastFinished[t] <= n.now;
    hide NoNewBreach, Inv, TimesOk, Throughout, Exec;
    more, m := Go(cooldown, s, events, n, e);
  }

  lemma PassingStays(n: State, m: State, k: nat)
    requires RepliesOk(n) && Kept(n, m) && k < |n.handlers| && Passing(n, n.handlers[k])
    ensures Passing(m, n.handlers[k])
  {
  }

  lemma TwoHashedAreLive(s: State, i: nat, j: nat)
    requires MintsOk(s) && i < |s.handlers| && j < |s.handlers| && i != j
    requires s.handlers[i].Hashed? && s.handlers[j].Hashed? && s.handlers[i].ticker == s.handlers[j].ticker
    ensures !OneLive(s)
  {
    var t := s.handlers[i].ticker;
    assert Minting(s.handlers[i]) && Minting(s.handlers[j]);
    assert LiveJob(s, s.handlers[i].id, t) && LiveJob(s, s.handlers[j].id, t);
  }

  lemma OverlapIsFatal(cooldown: real, s: State, i: nat, j: nat) returns (more: seq<Event>)
    requires Inv(s) && TimesOk(s) && Overlap(s, i, j)
    ensures Throughout(Careful(s), cooldown, s, more)
    ensures !OneLive(Exec(cooldown, s, more).value)
  {
    ReachedNow(cooldown, s);
    assert Within(s, s);
    hide Inv, TimesOk, Apply, CoolingDown, Within, Throughout, Exec, Passing;
    var n, m, l: State;
    more, n := GoWait(cooldown, s, [], s);
    PassingStays(s, n, i);
    more, m := MintsNow(cooldown, s, more, n, i);
    PassingStays(s, m, j);
    more, l := MintsNow(cooldown, s, more, m, j);
    assert MintsOk(l) by { InvHasMints(l); }
    TwoHashedAreLive(l, i, j);
  }

  lemma InvHasMints(s: State)
    requires Inv(s)
    ensures MintsOk(s) && RepliesOk(s)
  {
  }

  // --- a request passing before the pointer is deleted --------------------------------------------

  /** The late request has queued its job, which is live; its pointer may be gone again. */
  ghost predicate LateQueued(n: State, i: nat, t: string, id: RunId) {
    && i < |n.handlers| && n.handlers[i].Answered? && LiveJob(n, id, t)
  }

  lemma EnqueueEnds(cooldown: real, n: State, i: nat)
    requires i < |n.handlers| && n.handlers[i].Hashed? && MintsOk(n)
    ensures
      var p := Apply(cooldown, n, SetPointer(i));
      && p.Some? && p.value.handlers[i].Pointed?
      && Apply(cooldown, p.value, PushQueue(i)).Some?
      && LateQueued(Apply(cooldown, p.value, PushQueue(i)).value, i, n.handlers[i].ticker, n.handlers[i].id)
  {
    assert Minting(n.handlers[i]);
  }

  lemma LateEnqueues(cooldown: real, s: State, events: seq<Event>, n: State, i: nat)
    returns (more: seq<Event>, m: State, id: RunId)
    requires Reached(cooldown, s, events, n) && Within(s, n) && i < |n.handlers| && n.handlers[i].Hashed?
    requires i < |s.handlers| && Passing(s, s.handlers[i]) && s.handlers[i].ticker == n.handlers[i].ticker
    ensures Reached(cooldown, s, more, m) && Within(s, m) && m.worker == n.worker
    ensures LateQueued(m, i, s.handlers[i].ticker, id)
  {
    InvHasMints(n);
    EnqueueEnds(cooldown, n, i);
    hide Reached, Within, Apply, LateQueued, Passing;
    id := n.handlers[i].id;
    var p: State;
    more, p := GoAsk(cooldown, s, events, n, SetPointer(i));
    SameIndex(n, p, i);
    more, m := GoAsk(cooldown, s, more, p, PushQueue(i));
    SameIndex(p, m, i);
  }

  /** The finish writes leave jobs and requests alone. */
  lemma FinishMovesOn(cooldown: real, n: State)
    requires n.worker.PointerLeft?
    ensures
      var d := Apply(cooldown, n, DeletePointer);
      var w := Apply(cooldown, d.value, WriteMarker);
      && d.Some? && d.value.worker.MarkerLeft? && d.value.handlers == n.handlers && d.value.store.jobs == n.store.jobs
      && w.Some? && w.value.worker.Idle? && w.value.handlers == n.handlers && w.value.store.jobs == n.store.jobs
      && n.worker.ticker !in w.value.store.active
  {
  }

  lemma SameRequestsWithin(s: State, n: State, m: State)
    requires Within(s, n) && m.handlers == n.handlers && m.store.jobs == n.store.jobs && !m.worker.PointerLeft?
    ensures Within(s, m) && Kept(n, m)
  {
    forall i | 0 <= i < |m.handlers| && Passing(m, m.handlers[i]) ensures Passing(n, n.handlers[i]) {
    }
  }

  lemma FinishGoesOn(cooldown: real, s: State, events: seq<Event>, n: State) returns (more: seq<Event>, m: State)
    requires Reached(cooldown, s, events, n) && Within(s, n) && n.worker.PointerLeft?
    ensures Reached(cooldown, s, more, m) && Within(s, m)
    ensures m.handlers == n.handlers && m.store.jobs == n.store.jobs && m.worker.Idle?
    ensures n.worker.ticker !in m.store.active
  {
    FinishMovesOn(cooldown, n);
    hide Reached, Within, Apply, NoNewBreach;
    var d := Apply(cooldown, n, DeletePointer).value;
    SameRequestsWithin(s, n, d);
    WithinIsCareful(s, d);
    more, d := Go(cooldown, s, events, n, DeletePointer);
    var w := Apply(cooldown, d, WriteMarker).value;
    SameRequestsWithin(s, d, w);
    WithinIsCareful(s, w);
    more, m := Go(cooldown, s, more, d, WriteMarker);
  }

  /** One further request, the only one for its ticker that may be passing. */
  ghost predicate Third(s: State, n: State, t: string) {
    && |n.handlers| == |s.handlers| + 1 && !n.worker.PointerLeft?
    && n.handlers[|s.handlers|].ticker == t
    && (forall i :: 0 <= i < |s.handlers| ==>
          (Passing(n, n.handlers[i]) ==>
             Passing(s, s.handlers[i]) && n.handlers[i].ticker == s.handlers[i].ticker && n.handlers[i].ticker != t))
  }

  lemma ThirdIsCareful(s: State, n: State, t: string)
    requires Third(s, n, t)
    ensures NoNewBreach(s, n)
  {
  }

  lemma ThirdArrives(cooldown: real, s: State, n: State, t: string)
    requires Within(s, n) && !n.worker.PointerLeft?
    requires forall i :: 0 <= i < |n.handlers| ==> (Passing(n, n.handlers[i]) ==> n.handlers[i].ticker != t)
    ensures
      var m := Apply(cooldown, n, Arrive(t)).value;
      && Third(s, m, t) && m == n.(handlers := n.handlers + [ReadPointer(t)])
      && Kept(n, m)
  {
    var m := Apply(cooldown, n, Arrive(t)).value;
    forall i | 0 <= i < |s.handlers| && Passing(m, m.handlers[i]) ensures Passing(n, n.handlers[i]) {
    }
  }

  /** The further request reads no pointer and no marker in its way, and mints. */
  function ThirdStep(n: State, t: string, k: nat, id: RunId): Event
    requires k < |n.handlers|
  {
    match n.handlers[k]
    case ReadPointer(_) => GetPointer(k)
    case ReadMarker(_) => GetMarker(k)
    case _ => HashJob(k, id)
  }

  lemma ThirdMoves(cooldown: real, s: State, n: State, t: string, id: RunId)
    requires Third(s, n, t) && RepliesOk(n) && id !in n.store.jobs
    requires n.handlers[|s.handlers|] in {ReadPointer(t), ReadMarker(t), Cleared(t)}
    requires t !in n.store.active && !CoolingDown(n.store, t, n.now, cooldown)
    ensures
      var k := |s.handlers|;
      var m := Apply(cooldown, n, ThirdStep(n, t, k, id));
      && m.Some? && Third(s, m.value, t) && Kept(n, m.value)
      && t !in m.value.store.active && !CoolingDown(m.value.store, t, m.value.now, cooldown)
      && m.value.handlers[k] == (if n.handlers[k].ReadPointer? then ReadMarker(t)
                                 else if n.handlers[k].ReadMarker? then Cleared(t) else Hashed(t, id))
  {
    var k := |s.handlers|;
    var m := Apply(cooldown, n, ThirdStep(n, t, k, id)).value;
    forall i | 0 <= i < |s.handlers| && Passing(m, m.handlers[i]) ensures Passing(n, n.handlers[i]) {
    }
  }

  lemma GoThird(cooldown: real, s: State, events: seq<Event>, n: State, t: string, id: RunId)
    returns (more: seq<Event>, m: State)
    requires Reached(cooldown, s, events, n) && Third(s, n, t) && id !in n.store.jobs
    requires n.handlers[|s.handlers|] in {ReadPointer(t), ReadMarker(t), Cleared(t)}
    requires t !in n.store.active && !CoolingDown(n.store, t, n.now, cooldown)
    ensures Reached(cooldown, s, more, m) && Third(s, m, t) && Kept(n, m)
    ensures m == Apply(cooldown, n, ThirdStep(n, t, |s.handlers|, id)).value
    ensures t !in m.store.active && !CoolingDown(m.store, t, m.now, cooldown)
    ensures m.handlers[|s.handlers|]
            == (if n.handlers[|s.handlers|].ReadPointer? then ReadMarker(t)
                else if n.handlers[|s.handlers|].ReadMarker? then Cleared(t) else Hashed(t, id))
  {
    InvHasMints(n);
    hide Apply, NoNewBreach, Passing, CoolingDown;
    ThirdMoves(cooldown, s, n, t, id);
    ThirdIsCareful(s, Apply(cooldown, n, ThirdStep(n, t, |s.handlers|, id)).value, t);
    hide Third, Kept, Inv, TimesOk, Throughout;
    more, m := Go(cooldown, s, events, n, ThirdStep(n, t, |s.handlers|, id));
  }

  lemma OthersApart(s: State, n: State, i: nat, t: string)
    requires AsksApart(s) && Within(s, n) && i < |s.handlers| && Passing(s, s.handlers[i])
    requires s.handlers[i].ticker == t && n.handlers[i].Answered?
    ensures forall k :: 0 <= k < |n.handlers| ==> (Passing(n, n.handlers[k]) ==> n.handlers[k].ticker != t)
  {
    forall k | 0 <= k < |n.handlers| && Passing(n, n.handlers[k]) ensures n.handlers[k].ticker != t {
      assert !Overlap(s, i, k);
    }
  }

  lemma LiveKept(n: State, m: State, id: RunId, t: string)
    requires LiveJob(n, id, t) && Kept(n, m)
    ensures LiveJob(m, id, t)
  {
  }

  /** A ticker without a pointer and without a cooldown gets one more live job. */
  lemma ThirdMints(cooldown: real, s: State, events: seq<Event>, n: State, t: string, id: RunId)
    returns (more: seq<Event>)
    requires Reached(cooldown, s, events, n) && Within(s, n) && LiveJob(n, id, t)
    requires n.worker.Idle? && t !in n.store.active && !CoolingDown(n.store, t, n.now, cooldown)
    requires forall k :: 0 <= k < |n.handlers| ==> (Passing(n, n.handlers[k]) ==> n.handlers[k].ticker != t)
    ensures Throughout(Careful(s), cooldown, s, more)
    ensures !OneLive(Exec(cooldown, s, more).value)
  {
    var a := Apply(cooldown, n, Arrive(t)).value;
    ThirdArrives(cooldown, s, n, t);
    assert a.handlers[|s.handlers|] == ReadPointer(t);
    hide Apply, Passing, CoolingDown, Inv, TimesOk, Throughout, Exec;
    ThirdIsCareful(s, a, t);
    hide NoNewBreach, Third, Within;
    var m: State;
    more, m := Go(cooldown, s, events, n, Arrive(t));
    LiveKept(n, m, id, t);
    more, m := ThirdPasses(cooldown, s, more, m, t, id);
    var last := FreshId(m.store.jobs.Keys);
    var l: State;
    more, l := GoThird(cooldown, s, more, m, t, last);
    LiveKept(m, l, id, t);
    InvHasMints(l);
    assert Minting(l.handlers[|s.handlers|]);
    assert LiveJob(l, last, t) && last != id;
  }

  /** The further request reads the pointer and the marker. */
  lemma ThirdPasses(cooldown: real, s: State, events: seq<Event>, n: State, t: string, id: RunId)
    returns (more: seq<Event>, m: State)
    requires Reached(cooldown, s, events, n) && Third(s, n, t) && LiveJob(n, id, t)
    requires n.handlers[|s.handlers|] == ReadPointer(t)
    requires t !in n.store.active && !CoolingDown(n.store, t, n.now, cooldown)
    ensures Reached(cooldown, s, more, m) && Third(s, m, t) && LiveJob(m, id, t)
    ensures m.handlers[|s.handlers|] == Cleared(t)
    ensures t !in m.store.active && !CoolingDown(m.store, t, m.now, cooldown)
  {
    hide Apply, Passing, CoolingDown, Inv, TimesOk, Throughout, Exec, NoNewBreach;
    var free := FreshId(n.store.jobs.Keys);
    more, m := GoThird(cooldown, s, events, n, t, free);
    LiveKept(n, m, id, t);
    var l := m;
    free := FreshId(l.store.jobs.Keys);
    more, m := GoThird(cooldown, s, more, l, t, free);
    LiveKept(l, m, id, t);
  }

  lemma LateIsFatal(cooldown: real, s: State, i: nat) returns (more: seq<Event>)
    requires Inv(s) && TimesOk(s) && AsksApart(s) && Late(s, i)
    ensures Throughout(Careful(s), cooldown, s, more)
    ensures !OneLive(Exec(cooldown, s, more).value)
  {
    var t := s.handlers[i].ticker;
    ReachedNow(cooldown, s);
    assert Within(s, s);
    hide Inv, TimesOk, Apply, CoolingDown, Within, Throughout, Exec, Passing, AsksApart, LiveJob, OneLive;
    var n, m, q: State;
    var id: RunId;
    more, n := GoWait(cooldown, s, [], s);
    InvHasMints(s);
    PassingStays(s, n, i);
    more, m := MintsNow(cooldown, s, more, n, i);
    SameIndex(n, m, i);
    more, q, id := LateEnqueues(cooldown, s, more, m, i);
    var w, v: State;
    more, w := FinishGoesOn(cooldown, s, more, q);
    assert LiveJob(w, id, t) by { LiveKept(q, w, id, t); }
    more, v := GoWait(cooldown, s, more, w);
    LiveKept(w, v, id, t);
    OthersApart(s, v, i, t);
    more := ThirdMints(cooldown, s, more, v, t, id);
  }

  // --- the theorem ----------------------------------------------------------------------------------

  /** Outside the guarded states two live jobs of one ticker can always be had without any
      further breach. */
  lemma BreachIsFatal(cooldown: real, events: seq<Event>) returns (more: seq<Event>)
    requires Exec(cooldown, INIT, events).Some? && !Guarded(Exec(cooldown, INIT, events).value)
    ensures
      var s := Exec(cooldown, INIT, events).value;
      && Throughout(Careful(s), cooldown, s, more)
      && !OneLive(Exec(cooldown, s, more).value)
  {
    var s := Exec(cooldown, INIT, events).value;
    InvInit();
    RunKeepsInv(cooldown, INIT, events);
    RunKeepsTimes(cooldown, events);
    hide Inv, TimesOk, Exec, Throughout, OneLive;
    if i: nat, j: nat :| Overlap(s, i, j) {
      more := OverlapIsFatal(cooldown, s, i, j);
    } else {
      var i: nat :| Late(s, i);
      more := LateIsFatal(cooldown, s, i);
    }
  }

  /** No continuation without a new breach has two live jobs of one ticker. */
  ghost predicate StaysOne(cooldown: real, s: State) {
    forall more :: Throughout(Careful(s), cooldown, s, more) ==> OneLive(Exec(cooldown, s, more).value)
  }

  /** In a run that has been guarded until its last event, one live job per ticker is safe
      against everything but a new breach exactly when the last state is guarded too. */
  lemma OneLiveExactly(cooldown: real, events: seq<Event>)
    requires Exec(cooldown, INIT, events).Some?
    requires events != [] ==> Throughout(Guarded, cooldown, INIT, events[..|events| - 1])
    ensures Guarded(Exec(cooldown, INIT, events).value) <==> StaysOne(cooldown, Exec(cooldown, INIT, events).value)
  {
    var s := Exec(cooldown, INIT, events).value;
    if Guarded(s) {
      forall more | Throughout(Careful(s), cooldown, s, more) ensures OneLive(Exec(cooldown, s, more).value) {
        CarefulStaysGuarded(cooldown, events, more);
      }
    } else {
      var more := BreachIsFatal(cooldown, events);
    }
    hide Guarded, OneLive, Exec;
  }

  lemma CarefulStaysGuarded(cooldown: real, events: seq<Event>, more: seq<Event>)
    requires Throughout(Guarded, cooldown, INIT, events)
    requires
      var s := Exec(cooldown, INIT, events).value;
      Throughout(Careful(s), cooldown, s, more)
    ensures OneLive(Exec(cooldown, Exec(cooldown, INIT, events).value, more).value)
  {
    var s := Exec(cooldown, INIT, events).value;
    assert Guarded(s);
    ThroughoutMono(Careful(s), Guarded, cooldown, s, more);
    ThroughoutCat(Guarded, cooldown, INIT, events, more);
    GuardedIsOneLive(cooldown, events + more);
    hide Exec, OneLive, Throughout;
  }
}
