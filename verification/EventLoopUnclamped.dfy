/** A condition wait whose deadline lies within the window of the wheel never loses a signal. */
module EventLoopUnclamped {
  import opened LibcoWheel
  import opened EventLoop
  import opened EventLoopProof
  import opened EventLoopTiming
  import opened EventLoopTheorems
  import opened EventLoopWakes

  /** x waits with its own deadline as slot time, and is queued or has been handed to the active list. */
  ghost predicate Listening(l: Loop, x: nat, w: Waiter) {
    && w.kind.Cond? && w.hasTimeout && w.slotTime == w.expire
    && (x in Queue(l, w.kind.q) || w.link == Active)
  }

  ghost predicate Heard(l: Loop, x: nat) {
    x in l.waiters ==> Listening(l, x, l.waiters[x])
  }

  /** Then it is queued, or it will be resumed in this drain or the next. */
  lemma HeardIsReady(l: Loop, x: nat)
    requires Inv(l) && TInv(l) && x in l.waiters && Heard(l, x) && x !in Queue(l, l.waiters[x].kind.q)
    ensures Ready(l, x)
  {
    UnclampedIsNeverEarly(l, x);
    assert XOk(l, x) && WaiterOk(l, x, l.waiters[x]);
  }

  lemma BeginHeard(l: Loop, events: seq<IoEvent>, now: nat, x: nat)
    requires Inv(l) && Legal(l, OnBegin(events, now)) && x in l.waiters && Heard(l, x)
    ensures Shaped(PrepareAll(l.(draining := true), events).ring) && Heard(Begin(l, events, now), x)
  {
    BeginCond(l, events, now, x);
    assert Queue(Begin(l, events, now), l.waiters[x].kind.q) == Queue(l, l.waiters[x].kind.q);
  }

  lemma SignalHeard(l: Loop, q: nat, x: nat)
    requires Inv(l) && x in l.waiters && Heard(l, x)
    ensures Heard(Signal(l, q), x)
  {
    SignalWaiter(l, q, x);
    if Queue(l, q) != [] { SignalReaches(l, q); }
  }

  lemma BroadcastHeard(l: Loop, q: nat, x: nat)
    requires Inv(l) && x in l.waiters && Heard(l, x)
    ensures Heard(Broadcast(l, q), x)
  {
    BroadcastWaiter(l, q, x);
    BroadcastQueues(l, q);
  }

  lemma {:induction false} StaysMember(s: seq<nat>, x: nat, y: nat)
    requires y in s && x != y
    ensures y in RemoveId(s, x)
  {
    if s[0] != y && s[0] != x { StaysMember(s[1..], x, y); }
  }

  lemma PopHeard(l: Loop, x: nat)
    requires Inv(l) && TInv(l) && Legal(l, OnPop) && x in l.waiters && Heard(l, x)
    ensures Heard(Step(l, OnPop), x)
  {
    PopStep(l);
    UnclampedIsNeverEarly(l, x);
    if x != l.active[0] && x in Queue(l, l.waiters[x].kind.q) {
      StaysMember(Queue(l, l.waiters[x].kind.q), l.active[0], x);
    }
  }

  lemma StepHeard(l: Loop, e: Event, x: nat)
    requires Inv(l) && TInv(l) && Legal(l, e) && x in l.waiters && Heard(l, x)
    ensures Heard(Step(l, e), x)
  {
    match e
    case OnBegin(events, now) => BeginHeard(l, events, now, x);
    case OnPop => PopHeard(l, x);
    case OnSignal(q) => SignalHeard(l, q, x);
    case OnBroadcast(q) => BroadcastHeard(l, q, x);
    case OnPoll(y, fds, timeout, t) => OthersHeard(l, e, x);
    case OnCond(y, q, ms, t) => OthersHeard(l, e, x);
    case OnEnd => OthersHeard(l, e, x);
  }

  lemma OthersHeard(l: Loop, e: Event, x: nat)
    requires Inv(l) && Legal(l, e) && x in l.waiters && Heard(l, x) && (e.OnPoll? || e.OnCond? || e.OnEnd?)
    ensures Heard(Step(l, e), x)
  {
    assert Queue(l, l.waiters[x].kind.q) <= Queue(Step(l, e), l.waiters[x].kind.q);
  }

  lemma {:induction false} RunHeard(l: Loop, run: seq<Event>, x: nat)
    requires Inv(l) && TInv(l) && LegalRun(l, run) && FitsRun(l, run) && x in l.waiters && Heard(l, x)
    ensures Heard(Run(l, run), x)
    decreases |run|
  {
    if run != [] {
      StepInv(l, run[0]);
      StepTimed(l, run[0]);
      StepHeard(l, run[0], x);
      if x in Step(l, run[0]).waiters {
        RunHeard(Step(l, run[0]), run[1..], x);
      } else {
        StepFate(l, run[0], x);
        StaysWoken(Step(l, run[0]), run[1..], x);
      }
    }
  }

  lemma WaitHeard(l: Loop, x: nat, q: nat, ms: int, t: nat)
    requires Inv(l) && Legal(l, OnCond(x, q, ms, t)) && ms > 0
    requires l.ring.start <= t && t + ms < l.ring.start + |l.ring.slots|
    ensures var l' := Step(l, OnCond(x, q, ms, t));
      x in l'.waiters && l'.waiters[x].kind == Cond(q) && Heard(l', x)
  {
  }

  /** A wait that starts with its deadline within the window: whatever the program does from then on, as
      long as x waits it is in its queue, where a signal can find it, or it has been handed to the active
      list for good and will be resumed in this drain or the next. */
  lemma UnclampedIsHeard(l: Loop, x: nat, q: nat, ms: int, t: nat, run: seq<Event>)
    requires Inv(l) && TInv(l) && Legal(l, OnCond(x, q, ms, t)) && ms > 0
    requires l.ring.start <= t && t + ms < l.ring.start + |l.ring.slots|
    requires var l1 := Step(l, OnCond(x, q, ms, t)); Inv(l1) && LegalRun(l1, run) && FitsRun(l1, run)
    ensures var l' := Run(Step(l, OnCond(x, q, ms, t)), run);
      x in l'.waiters ==> x in Queue(l', q) || Ready(l', x)
  {
    var e := OnCond(x, q, ms, t);
    var l1 := Step(l, e);
    WaitHeard(l, x, q, ms, t);
    StepTimed(l, e);
    RunHeard(l1, run, x);
    var l' := Run(l1, run);
    if x in l'.waiters {
      ResumedOnce(l1, run, x);
      RunTimed(l1, run);
      if x !in Queue(l', q) { HeardIsReady(l', x); }
    }
  }
}
