/** Whole runs of the event loop against the plain rule "a waiter is resumed once, by a wake-up or by
    the first iteration that starts at or after its deadline". */
module EventLoopTheorems {
  import opened LibcoWheel
  import opened EventLoop
  import opened EventLoopProof
  import opened EventLoopSteps
  import opened EventLoopTiming

  ghost predicate LegalRun(l: Loop, run: seq<Event>)
    requires Inv(l)
    decreases |run|
  {
    run == [] || (Legal(l, run[0]) && (StepInv(l, run[0]); LegalRun(Step(l, run[0]), run[1..])))
  }

  ghost function Run(l: Loop, run: seq<Event>): (l': Loop)
    requires Inv(l) && LegalRun(l, run)
    ensures Inv(l')
    decreases |run|
  {
    if run == [] then l else StepInv(l, run[0]); Run(Step(l, run[0]), run[1..])
  }

  /** Every iteration of the run starts at most 2^31 - 2 ms after the one before, with a clock that does
      not go back. */
  ghost predicate FitsRun(l: Loop, run: seq<Event>)
    requires Inv(l) && LegalRun(l, run)
    decreases |run|
  {
    run == [] || (Fits(l, run[0]) && (StepInv(l, run[0]); FitsRun(Step(l, run[0]), run[1..])))
  }

  lemma {:induction false} RunTimed(l: Loop, run: seq<Event>)
    requires Inv(l) && TInv(l) && LegalRun(l, run) && FitsRun(l, run)
    ensures TInv(Run(l, run))
    decreases |run|
  {
    if run != [] {
      StepInv(l, run[0]);
      StepTimed(l, run[0]);
      RunTimed(Step(l, run[0]), run[1..]);
    }
  }

  // ----- what one step does to one waiter -----

  ghost predicate SameWait(w: Waiter, v: Waiter) {
    w.kind == v.kind && w.hasTimeout == v.hasTimeout && w.expire == v.expire && w.since == v.since
  }

  ghost predicate Stays(l: Loop, l': Loop, x: nat) {
    && x in l.waiters && x in l'.waiters && SameWait(l.waiters[x], l'.waiters[x]) && l'.wakes == l.wakes
    && (forall q :: Queue(l', q) == Queue(l, q))
  }

  lemma PrepareStays(l: Loop, ev: IoEvent, x: nat)
    requires Inv(l) && x in l.waiters
    ensures Stays(l, Prepare(l, ev), x)
    ensures !(ev.fd in l.epoll && l.epoll[ev.fd] == x) ==> Prepare(l, ev).waiters[x] == l.waiters[x]
    ensures ev.fd in l.epoll && l.epoll[ev.fd] == x ==>
      && Prepare(l, ev).waiters[x].raised == l.waiters[x].raised + 1
      && Prepare(l, ev).waiters[x].revents == l.waiters[x].revents[ev.fd := ev.bits]
    ensures Prepare(l, ev).epoll == l.epoll
  {
    if ev.fd in l.epoll && l.epoll[ev.fd] in l.waiters {
      assert XOk(l, l.epoll[ev.fd]);
      DetachShape(l, l.epoll[ev.fd], ev);
    }
  }

  predicate For(epoll: map<nat, nat>, ev: IoEvent, x: nat) {
    ev.fd in epoll && epoll[ev.fd] == x
  }

  /** How many of the events are for descriptors that x has registered, and what they say of each. */
  function Hits(epoll: map<nat, nat>, events: seq<IoEvent>, x: nat): nat {
    if events == [] then 0 else (if For(epoll, events[0], x) then 1 else 0) + Hits(epoll, events[1..], x)
  }

  function Told(epoll: map<nat, nat>, events: seq<IoEvent>, x: nat): map<nat, nat> {
    if events == [] then map[]
    else (if For(epoll, events[0], x) then map[events[0].fd := events[0].bits] else map[]) + Told(epoll, events[1..], x)
  }

  lemma {:induction false} PrepareAllStays(l: Loop, events: seq<IoEvent>, x: nat)
    requires Inv(l) && NoneTimedOut(l) && x in l.waiters
    ensures Stays(l, PrepareAll(l, events), x)
    decreases |events|
  {
    if events != [] {
      PrepareStays(l, events[0], x);
      PrepareInv(l, events[0]);
      PrepareAllStays(Prepare(l, events[0]), events[1..], x);
    }
  }

  /** w has become v by the events. */
  ghost predicate Heard(w: Waiter, v: Waiter, hits: nat, told: map<nat, nat>) {
    v.raised == w.raised + hits && v.revents == w.revents + told
  }

  lemma HeardMore(w: Waiter, u: Waiter, v: Waiter, epoll: map<nat, nat>, events: seq<IoEvent>, x: nat)
    requires events != [] && Heard(u, v, Hits(epoll, events[1..], x), Told(epoll, events[1..], x))
    requires if For(epoll, events[0], x) then
      u.raised == w.raised + 1 && u.revents == w.revents[events[0].fd := events[0].bits] else u == w
    ensures Heard(w, v, Hits(epoll, events, x), Told(epoll, events, x))
  {
    if For(epoll, events[0], x) {
      MapPlus(w.revents, events[0].fd, events[0].bits, Told(epoll, events[1..], x));
    } else {
      assert map[] + Told(epoll, events[1..], x) == Told(epoll, events[1..], x);
    }
  }

  lemma MapPlus(a: map<nat, nat>, k: nat, v: nat, b: map<nat, nat>)
    ensures a[k := v] + b == a + (map[k := v] + b)
  {
  }

  lemma {:induction false} PrepareAllTells(l: Loop, events: seq<IoEvent>, x: nat)
    requires Inv(l) && NoneTimedOut(l) && x in l.waiters
    ensures x in PrepareAll(l, events).waiters
    ensures Heard(l.waiters[x], PrepareAll(l, events).waiters[x], Hits(l.epoll, events, x), Told(l.epoll, events, x))
    decreases |events|
  {
    if events != [] {
      var l1 := Prepare(l, events[0]);
      PrepareStays(l, events[0], x);
      PrepareInv(l, events[0]);
      PrepareAllTells(l1, events[1..], x);
      HeardMore(l.waiters[x], l1.waiters[x], PrepareAll(l1, events[1..]).waiters[x], l.epoll, events, x);
    }
  }

  lemma BeginStays(l: Loop, events: seq<IoEvent>, now: nat, x: nat)
    requires Inv(l) && Legal(l, OnBegin(events, now)) && x in l.waiters
    ensures Shaped(PrepareAll(l.(draining := true), events).ring) && Stays(l, Begin(l, events, now), x)
  {
    Started(l);
    var l0 := l.(draining := true);
    PrepareAllInv(l0, events);
    PrepareAllStays(l0, events, x);
    var l1 := PrepareAll(l0, events);
    assert forall q :: Queue(l0, q) == Queue(l, q) && Queue(Expire(l1, now), q) == Queue(l1, q);
  }

  /** A poll's result is what one epoll_wait says of its descriptors: nothing is noted when an iteration
      begins. */
  lemma BeginTells(l: Loop, events: seq<IoEvent>, now: nat, x: nat)
    requires Inv(l) && Legal(l, OnBegin(events, now)) && x in l.waiters
    ensures Shaped(PrepareAll(l.(draining := true), events).ring) && x in Begin(l, events, now).waiters
    ensures Begin(l, events, now).waiters[x].raised == Hits(l.epoll, events, x)
    ensures Begin(l, events, now).waiters[x].revents == Told(l.epoll, events, x)
  {
    SilentBetween(l, x);
    Started(l);
    PrepareAllInv(l.(draining := true), events);
    PrepareAllTells(l.(draining := true), events, x);
    ExpireTells(PrepareAll(l.(draining := true), events), now, x);
  }

  lemma SilentBetween(l: Loop, x: nat)
    requires Inv(l) && !l.draining && x in l.waiters
    ensures forall v, hits, told :: Heard(l.waiters[x], v, hits, told) ==> v.raised == hits && v.revents == told
  {
    assert XOk(l, x) && WaiterOk(l, x, l.waiters[x]);
  }

  lemma ExpireTells(l: Loop, now: nat, x: nat)
    requires Shaped(l.ring) && x in l.waiters
    ensures x in Expire(l, now).waiters
    ensures Expire(l, now).waiters[x].raised == l.waiters[x].raised
    ensures Expire(l, now).waiters[x].revents == l.waiters[x].revents
  {
  }

  lemma {:induction false} BroadcastStays(l: Loop, q: nat, x: nat)
    requires Inv(l) && x in l.waiters
    ensures var l' := Broadcast(l, q);
      && x in l'.waiters && SameWait(l.waiters[x], l'.waiters[x]) && l'.wakes == l.wakes
      && l'.waiters[x].raised == l.waiters[x].raised && l'.waiters[x].revents == l.waiters[x].revents
    decreases |Queue(l, q)|
  {
    if Queue(l, q) != [] {
      assert XOk(l, Queue(l, q)[0]);
      HeadWaits(l, q);
      SignalShape(l, q);
      SignalInv(l, q);
      UnlinkKeepsQueues(Unqueued(l, q), Queue(l, q)[0]);
      assert Queue(Signal(l, q), q) == Queue(l, q)[1..];
      BroadcastStays(Signal(l, q), q, x);
    }
  }

  ghost predicate SameReport(w: Waiter, v: Waiter) {
    w.raised == v.raised && w.revents == v.revents
  }

  /** Every step but a round of the drain leaves a waiter waiting for the same thing, and only the start
      of an iteration changes what events it has seen. */
  lemma OtherStepStays(l: Loop, e: Event, x: nat)
    requires Inv(l) && Legal(l, e) && x in l.waiters && !e.OnPop?
    ensures var l' := Step(l, e);
      && x in l'.waiters && SameWait(l.waiters[x], l'.waiters[x]) && l'.wakes == l.wakes
      && (!e.OnBegin? ==> SameReport(l'.waiters[x], l.waiters[x]))
  {
    match e
    case OnBegin(events, now) => BeginStays(l, events, now, x);
    case OnSignal(q) =>
      if Queue(l, q) != [] {
        assert XOk(l, Queue(l, q)[0]);
        HeadWaits(l, q);
        SignalShape(l, q);
      }
    case OnBroadcast(q) => BroadcastStays(l, q, x);
    case _ =>
  }

  /** A round of the drain resumes the head, or puts it back because its deadline is still to come. */
  lemma PopStep(l: Loop)
    requires Inv(l) && Legal(l, OnPop)
    ensures l.active[0] in l.waiters
    ensures if IsEarly(l) then PutBackIs(l, Pop(l)) else ReturnIs(l, Pop(l))
  {
    assert XOk(l, l.active[0]);
    PopIs(l);
    if EarlyHead(l) {
      PutBackStep(l);
    } else {
      ReturnStep(l);
    }
  }

  ghost predicate IsEarly(l: Loop)
    requires l.active != [] && l.active[0] in l.waiters
  {
    l.waiters[l.active[0]].timedOut && l.now < l.waiters[l.active[0]].expire
  }

  ghost predicate PutBackIs(l: Loop, l': Loop)
    requires l.active != [] && l.active[0] in l.waiters
  {
    var x := l.active[0];
    && l'.wakes == l.wakes && l'.waiters.Keys == l.waiters.Keys && l'.conds == l.conds && l'.epoll == l.epoll
    && l'.now == l.now && l'.draining == l.draining
    && SameWait(l.waiters[x], l'.waiters[x]) && l'.waiters[x].link.InSlot?
    && l'.waiters[x].raised == l.waiters[x].raised && l'.waiters[x].revents == l.waiters[x].revents
    && !l'.waiters[x].timedOut
    && forall y :: y in l.waiters && y != x ==> l'.waiters[y] == l.waiters[y]
  }

  ghost predicate ReturnIs(l: Loop, l': Loop)
    requires l.active != [] && l.active[0] in l.waiters
  {
    var x := l.active[0];
    var w := l.waiters[x];
    && l'.wakes == l.wakes + [Wake(x, l.now, w.(link := Nowhere), w.kind.Cond? && x in Queue(l, w.kind.q))]
    && l'.waiters == l.waiters - {x} && l'.now == l.now && l'.draining == l.draining
    && l'.epoll == (if w.kind.Poll? then l.epoll - w.kind.fds else l.epoll)
    && (forall q :: Queue(l', q) == if w.kind == Cond(q) then RemoveId(Queue(l, q), x) else Queue(l, q))
  }

  lemma PutBackStep(l: Loop)
    requires EarlyHead(l)
    ensures PutBackIs(l, PutBack(l))
  {
    PutBackShape(l);
  }

  lemma ReturnStep(l: Loop)
    requires l.active != [] && l.active[0] in l.waiters
    ensures ReturnIs(l, Return(Popped(l), l.active[0]))
  {
    ReturnShape(Popped(l), l.active[0]);
    assert forall q :: Queue(Popped(l), q) == Queue(l, q);
  }

  // ----- exactly once -----

  ghost predicate StillWaits(l: Loop, l': Loop, x: nat) {
    x in l.waiters && x in l'.waiters && SameWait(l.waiters[x], l'.waiters[x]) && WakeCount(l'.wakes, x) == 0
  }

  ghost predicate Woken(l: Loop, l': Loop, x: nat) {
    && x in l.waiters && x !in l'.waiters && WakeCount(l'.wakes, x) == 1
    && exists v :: v in l'.wakes && v.id == x && SameWait(l.waiters[x], v.waiter) && WakeOk(v)
  }

  lemma StepFate(l: Loop, e: Event, x: nat)
    requires Inv(l) && Legal(l, e) && x in l.waiters
    ensures StillWaits(l, Step(l, e), x) || Woken(l, Step(l, e), x)
  {
    var l' := Step(l, e);
    assert XOk(l, x) && WokenOnce(l, x);
    if e.OnPop? {
      PopFate(l, x);
    } else {
      OtherStepStays(l, e, x);
    }
  }

  lemma PopFate(l: Loop, x: nat)
    requires Inv(l) && Legal(l, OnPop) && x in l.waiters
    ensures StillWaits(l, Step(l, OnPop), x) || Woken(l, Step(l, OnPop), x)
  {
    assert WakeCount(l.wakes, x) == 0 by { assert XOk(l, x); }
    PopStep(l);
    if !IsEarly(l) {
      var l' := Pop(l);
      var v := l'.wakes[|l.wakes|];
      WakeCountAppend(l.wakes, v, x);
      assert WakeOk(v) by {
        PopInv(l);
        assert v in l'.wakes;
      }
      assert v in l'.wakes;
    }
  }

  lemma StepKeepsWoken(l: Loop, e: Event, x: nat)
    requires Inv(l) && Legal(l, e) && x !in l.waiters && WakeCount(l.wakes, x) == 1
    ensures var l' := Step(l, e); x !in l'.waiters && WakeCount(l'.wakes, x) == 1
    ensures forall v :: v in l.wakes ==> v in Step(l, e).wakes
  {
    StepInv(l, e);
    StepWakes(l, e);
    WakeCountPrefix(l.wakes, Step(l, e).wakes, x);
    assert XOk(Step(l, e), x);
  }

  lemma {:induction false} WakeCountPrefix(a: seq<Wake>, b: seq<Wake>, x: nat)
    requires a <= b
    ensures WakeCount(a, x) <= WakeCount(b, x)
  {
    if a != [] {
      WakeCountPrefix(a[1..], b[1..], x);
    }
  }

  lemma {:induction false} BroadcastWakes(l: Loop, q: nat)
    requires Inv(l)
    ensures Broadcast(l, q).wakes == l.wakes
    decreases |Queue(l, q)|
  {
    if Queue(l, q) != [] {
      assert XOk(l, Queue(l, q)[0]);
      HeadWaits(l, q);
      BroadcastStays(l, q, Queue(l, q)[0]);
    }
  }

  lemma {:induction false} PrepareAllWakes(l: Loop, events: seq<IoEvent>)
    requires Inv(l) && NoneTimedOut(l)
    ensures PrepareAll(l, events).wakes == l.wakes
    decreases |events|
  {
    if events != [] {
      PrepareInv(l, events[0]);
      if events[0].fd in l.epoll && l.epoll[events[0].fd] in l.waiters {
        PrepareStays(l, events[0], l.epoll[events[0].fd]);
      }
      PrepareAllWakes(Prepare(l, events[0]), events[1..]);
    }
  }

  /** The log of resumes only grows. */
  lemma StepWakes(l: Loop, e: Event)
    requires Inv(l) && Legal(l, e)
    ensures l.wakes <= Step(l, e).wakes
  {
    match e
    case OnBegin(events, now) =>
      Started(l);
      PrepareAllWakes(l.(draining := true), events);
    case OnPop => PopStep(l);
    case OnSignal(q) =>
      if Queue(l, q) != [] {
        assert XOk(l, Queue(l, q)[0]);
        HeadWaits(l, q);
        SignalShape(l, q);
      }
    case OnBroadcast(q) => BroadcastWakes(l, q);
    case _ =>
  }

  lemma {:induction false} StaysWoken(l: Loop, run: seq<Event>, x: nat)
    requires Inv(l) && LegalRun(l, run) && x !in l.waiters && WakeCount(l.wakes, x) == 1
    ensures x !in Run(l, run).waiters && WakeCount(Run(l, run).wakes, x) == 1
    ensures forall v :: v in l.wakes ==> v in Run(l, run).wakes
    decreases |run|
  {
    if run != [] {
      StepKeepsWoken(l, run[0], x);
      StepInv(l, run[0]);
      StaysWoken(Step(l, run[0]), run[1..], x);
    }
  }

  /** Exactly once, in every run and for any clock: a waiter is still waiting for the same thing and has
      not been resumed, or it has been resumed once, and not before its deadline unless events or a
      signal caused it. */
  lemma {:induction false} ResumedOnce(l: Loop, run: seq<Event>, x: nat)
    requires Inv(l) && LegalRun(l, run) && x in l.waiters
    ensures StillWaits(l, Run(l, run), x) || Woken(l, Run(l, run), x)
    decreases |run|
  {
    if run == [] {
      assert XOk(l, x);
    } else {
      var l1 := Step(l, run[0]);
      StepFate(l, run[0], x);
      StepInv(l, run[0]);
      if x in l1.waiters {
        ResumedOnce(l1, run[1..], x);
      } else {
        StaysWoken(l1, run[1..], x);
      }
    }
  }
}
