/** One step of the event loop, and the part of the invariant that relates slots to deadlines when clock
    steps fit the int that TakeAllTimeout counts with. */
module EventLoopTiming {
  import opened LibcoWheel
  import opened EventLoop
  import opened EventLoopLists
  import opened EventLoopProof
  import opened EventLoopSteps

  ghost function Step(l: Loop, e: Event): Loop
    requires Inv(l) && Legal(l, e)
  {
    match e
    case OnBegin(events, now) => BeginInv(l, events, now); Begin(l, events, now)
    case OnPop => PopInv(l); Pop(l)
    case OnEnd => l.(draining := false)
    case OnPoll(x, fds, timeout, t) => StartPoll(l, x, fds, timeout, t)
    case OnCond(x, q, ms, t) => StartCond(l, x, q, ms, t)
    case OnSignal(q) => Signal(l, q)
    case OnBroadcast(q) => Broadcast(l, q)
  }

  lemma EndInv(l: Loop)
    requires Inv(l) && Legal(l, OnEnd)
    ensures Inv(l.(draining := false))
  {
    var l' := l.(draining := false);
    forall y: nat ensures XOk(l', y) {
      assert XOk(l, y);
      assert forall q :: Queue(l', q) == Queue(l, q);
      if y in l.waiters { assert WaiterOk(l, y, l.waiters[y]); }
    }
  }

  lemma StepInv(l: Loop, e: Event)
    requires Inv(l) && Legal(l, e)
    ensures Inv(Step(l, e))
  {
    match e
    case OnBegin(events, now) => BeginInv(l, events, now);
    case OnPop => PopInv(l);
    case OnEnd => EndInv(l);
    case OnPoll(x, fds, timeout, t) => PollInv(l, x, fds, timeout, t);
    case OnCond(x, q, ms, t) => CondInv(l, x, q, ms, t);
    case OnSignal(q) => SignalInv(l, q);
    case OnBroadcast(q) => BroadcastInv(l, q);
  }

  // ----- the timing part, for clock steps that fit the int of TakeAllTimeout -----

  ghost predicate Fits(l: Loop, e: Event) {
    e.OnBegin? ==> StepFits(l.ring, e.now)
  }

  /** Where a waiter with a deadline is on the wheel, and how it got there. */
  ghost predicate Timed(l: Loop, w: Waiter)
    requires RingOk(l.ring)
  {
    var size := |l.ring.slots|;
    w.hasTimeout ==>
      && w.since <= w.lastStart <= l.ring.start && w.lastStart < w.expire
      && w.slotTime <= w.expire && (w.slotTime == w.expire || w.slotTime == w.lastStart + size - 1)
      && w.requeues * (size - 1) <= w.lastStart - w.since
      && (w.timedOut ==> w.slotTime <= l.now)
      && (w.link.InSlot? ==>
            && l.ring.start < w.slotTime < l.ring.start + size
            && w.link.j == Index(l.ring, w.slotTime - l.ring.start))
  }

  ghost predicate TInv(l: Loop) {
    && RingOk(l.ring) && (l.draining ==> l.ring.start == l.now)
    && (forall x :: x in l.waiters ==> Timed(l, l.waiters[x]))
  }

  /** An initial state: an empty wheel, nobody waits. */
  ghost predicate Initial(l: Loop) {
    && RingOk(l.ring) && (forall j: nat :: j < |l.ring.slots| ==> l.ring.slots[j] == [])
    && l.active == [] && l.conds == map[] && l.waiters == map[] && l.epoll == map[] && !l.draining && l.wakes == []
  }

  lemma InitialInv(l: Loop)
    requires Initial(l)
    ensures Inv(l) && TInv(l)
  {
  }

  /** An item on the wheel is taken exactly when its slot time has come. */
  lemma ExpireMoves(l: Loop, now: nat, x: nat)
    requires Shaped(l.ring) && Placed(l, x) && x in l.waiters && l.waiters[x].link.InSlot? && StepFits(l.ring, now)
    requires var w := l.waiters[x];
      l.ring.start < w.slotTime < l.ring.start + |l.ring.slots| && w.link.j == Index(l.ring, w.slotTime - l.ring.start)
    ensures x in Expire(l, now).waiters
    ensures Expire(l, now).waiters[x] ==
      if l.waiters[x].slotTime <= now then EventLoop.Taken(l.waiters[x]) else l.waiters[x]
  {
    var w, l', r := l.waiters[x], Expire(l, now), l.ring;
    ExpirePlaces(l, now, x);
    var cnt, o := TakeCount(r, now), w.slotTime - r.start;
    DrainTakes(r, cnt);
    assert l'.ring.slots[w.link.j] == if o < cnt then [] else r.slots[w.link.j];
    assert Times(Ids(r.slots[w.link.j]), x) == 1;
    assert Times(Ids(l'.ring.slots[w.link.j]), x) == if LinkOf(l', x) == w.link then 1 else 0;
  }

  /** A slot keeps standing for the same time while the window moves on. */
  lemma ExpireIndex(r: Ring, now: nat, t: nat)
    requires Shaped(r) && StepFits(r, now) && now < t < r.start + |r.slots|
    ensures var r' := TakeAllTimeout(r, now).ring;
      Shaped(r') && r'.start == now && Index(r', t - now) == Index(r, t - r.start)
  {
  }

  lemma ExpireTimed(l: Loop, now: nat, x: nat)
    requires RingOk(l.ring) && XOk(l, x) && x in l.waiters && Timed(l, l.waiters[x]) && StepFits(l.ring, now)
    requires !l.waiters[x].timedOut
    ensures RingOk(Expire(l, now).ring) && Expire(l, now).ring.start == now && x in Expire(l, now).waiters
    ensures Timed(Expire(l, now), Expire(l, now).waiters[x])
  {
    var w := l.waiters[x];
    assert WaiterOk(l, x, w);
    ExpireShape(l, now);
    if w.hasTimeout && w.link.InSlot? {
      ExpireMoves(l, now, x);
      if now < w.slotTime { ExpireIndex(l.ring, now, w.slotTime); }
    } else {
      ExpirePlaces(l, now, x);
    }
  }

  lemma ExpireShape(l: Loop, now: nat)
    requires RingOk(l.ring) && StepFits(l.ring, now)
    ensures var l' := Expire(l, now);
      RingOk(l'.ring) && l'.ring.start == now && l'.now == now && |l'.ring.slots| == |l.ring.slots|
  {
    assert IsCalendar(l.ring, now) by { TakeAllIsCalendar(l.ring, now); }
  }

  ghost predicate AllTimed(l: Loop) {
    RingOk(l.ring) && forall x :: x in l.waiters ==> Timed(l, l.waiters[x])
  }

  lemma PrepareTimed(l: Loop, ev: IoEvent)
    requires Inv(l) && NoneTimedOut(l) && AllTimed(l)
    ensures AllTimed(Prepare(l, ev))
  {
    PrepareInv(l, ev);
    var l' := Prepare(l, ev);
    if ev.fd in l.epoll && l.epoll[ev.fd] in l.waiters {
      var x := l.epoll[ev.fd];
      assert XOk(l, x) && Timed(l, l.waiters[x]);
      DetachShape(l, x, ev);
      if l.waiters[x].detached {
        OthersTimed(l, l', x, Raised(l.waiters[x], ev));
      } else {
        OthersTimed(l, l', x, Raised(l.waiters[x], ev).(link := Active));
      }
    }
  }

  lemma OthersTimed(l: Loop, l': Loop, x: nat, w: Waiter)
    requires AllTimed(l) && OneChanged(l, l', x, w) && RingOk(l'.ring) && Timed(l', w)
    ensures AllTimed(l')
  {
    forall y | y in l'.waiters ensures Timed(l', l'.waiters[y]) {
      assert Timed(l, l.waiters[y]);
    }
  }

  lemma {:induction false} PrepareAllTimed(l: Loop, events: seq<IoEvent>)
    requires Inv(l) && NoneTimedOut(l) && AllTimed(l)
    ensures AllTimed(PrepareAll(l, events))
    decreases |events|
  {
    if events != [] {
      PrepareInv(l, events[0]);
      PrepareTimed(l, events[0]);
      PrepareAllTimed(Prepare(l, events[0]), events[1..]);
    }
  }

  lemma BeginTimed(l: Loop, events: seq<IoEvent>, now: nat)
    requires Inv(l) && TInv(l) && Legal(l, OnBegin(events, now)) && StepFits(l.ring, now)
    ensures Shaped(PrepareAll(l.(draining := true), events).ring) && TInv(Begin(l, events, now))
  {
    Started(l);
    StartedTimed(l);
    var l0 := l.(draining := true);
    PrepareAllInv(l0, events);
    PrepareAllTimed(l0, events);
    FitsAlike(l.ring, PrepareAll(l0, events).ring, now);
    ExpireAllTimed(PrepareAll(l0, events), now);
  }

  lemma FitsAlike(r: Ring, r': Ring, now: nat)
    requires StepFits(r, now) && r'.start == r.start && r'.startIdx == r.startIdx && |r'.slots| == |r.slots|
    ensures StepFits(r', now)
  {
  }

  lemma StartedTimed(l: Loop)
    requires Inv(l) && !l.draining && TInv(l)
    ensures AllTimed(l.(draining := true))
  {
    forall x | x in l.waiters ensures Timed(l.(draining := true), l.waiters[x]) {
      assert Timed(l, l.waiters[x]);
    }
  }

  lemma ExpireAllTimed(l1: Loop, now: nat)
    requires Inv(l1) && NoneTimedOut(l1) && AllTimed(l1) && StepFits(l1.ring, now)
    ensures TInv(Expire(l1, now))
  {
    var l' := Expire(l1, now);
    ExpireShape(l1, now);
    forall x | x in l'.waiters ensures Timed(l', l'.waiters[x]) {
      assert XOk(l1, x);
      ExpireTimed(l1, now, x);
    }
  }

  /** Putting an early item back costs a whole window each time. */
  lemma PutBackTimed(l: Loop)
    requires RingOk(l.ring) && EarlyHead(l) && Timed(l, l.waiters[l.active[0]]) && l.ring.start == l.now
    requires l.waiters[l.active[0]].hasTimeout
    ensures var l', x := PutBack(l), l.active[0]; RingOk(l'.ring) && x in l'.waiters && Timed(l', l'.waiters[x])
  {
    PutBackShape(l);
    var w, size := l.waiters[l.active[0]], |l.ring.slots|;
    assert (w.requeues + 1) * (size - 1) == w.requeues * (size - 1) + (size - 1);
  }

  lemma PopTimed(l: Loop)
    requires Inv(l) && TInv(l) && Legal(l, OnPop)
    ensures l.active[0] in l.waiters && TInv(Pop(l))
  {
    var x := l.active[0];
    assert XOk(l, x);
    PopIs(l);
    if EarlyHead(l) {
      assert WaiterOk(l, x, l.waiters[x]) && Timed(l, l.waiters[x]);
      PutBackTimed(l);
      PutBackShape(l);
      OthersTimed(l, PutBack(l), x, PutBack(l).waiters[x]);
    } else {
      ReturnTimed(l);
    }
  }

  lemma ReturnTimed(l: Loop)
    requires TInv(l) && l.active != [] && l.active[0] in l.waiters
    ensures TInv(Return(Popped(l), l.active[0]))
  {
    ReturnShape(Popped(l), l.active[0]);
    var l' := Return(Popped(l), l.active[0]);
    forall y | y in l'.waiters ensures Timed(l', l'.waiters[y]) {
      assert Timed(l, l.waiters[y]);
    }
  }

  lemma PutOnTimed(l: Loop, x: nat, w: Waiter, t: nat)
    requires RingOk(l.ring) && l.ring.start <= t < w.expire && w == Fresh(w.kind, true, w.expire, l.ring.start)
    requires (l.draining ==> l.ring.start == l.now) && forall y :: y in l.waiters && y != x ==> Timed(l, l.waiters[y])
    ensures var r := AddTimeout(l.ring, Item(x, w.expire), t); r.Added? && TInv(PutOn(l, x, w, r.ring))
  {
    var l' := PutOn(l, x, w, AddTimeout(l.ring, Item(x, w.expire), t).ring);
    PutOnHere(l, x, w, t);
    forall y | y in l'.waiters && y != x ensures Timed(l', l'.waiters[y]) {
      assert Timed(l, l.waiters[y]);
    }
  }

  lemma PutOnHere(l: Loop, x: nat, w: Waiter, t: nat)
    requires RingOk(l.ring) && l.ring.start <= t < w.expire && w == Fresh(w.kind, true, w.expire, l.ring.start)
    ensures var r := AddTimeout(l.ring, Item(x, w.expire), t);
      r.Added? && var l' := PutOn(l, x, w, r.ring); RingOk(l'.ring) && Timed(l', l'.waiters[x])
  {
  }

  lemma PollTimed(l: Loop, x: nat, fds: set<nat>, timeout: int, t: nat)
    requires TInv(l) && timeout != 0
    ensures TInv(StartPoll(l, x, fds, timeout, t))
  {
    var l1 := l.(epoll := Register(l.epoll, fds, x));
    var w := Fresh(Poll(fds), true, t + PollTimeout(timeout), l.ring.start);
    if l.ring.start <= t {
      forall y | y in l1.waiters ensures Timed(l1, l1.waiters[y]) { assert Timed(l, l.waiters[y]); }
      PutOnTimed(l1, x, w, t);
    } else {
      var l' := StartPoll(l, x, fds, timeout, t);
      forall y | y in l'.waiters ensures Timed(l', l'.waiters[y]) { assert Timed(l, l.waiters[y]); }
    }
  }

  lemma CondWaitTimed(l: Loop, x: nat, q: nat, ms: int, t: nat)
    requires TInv(l)
    ensures TInv(StartCond(l, x, q, ms, t))
  {
    var l1 := Joined(l, x, q);
    forall y | y in l1.waiters ensures Timed(l1, l1.waiters[y]) { assert Timed(l, l.waiters[y]); }
    if ms <= 0 {
      var l' := With(l1, x, Fresh(Cond(q), false, 0, l.ring.start));
      forall y | y in l'.waiters ensures Timed(l', l'.waiters[y]) { assert y != x ==> Timed(l1, l1.waiters[y]); }
    } else if l.ring.start <= t {
      PutOnTimed(l1, x, Fresh(Cond(q), true, t + ms, l.ring.start), t);
    }
  }

  lemma SignalTimes(l: Loop, l': Loop, x: nat)
    requires TInv(l) && x in l.waiters && l'.waiters == l.waiters[x := l.waiters[x].(link := Active)]
    requires l'.draining == l.draining && l'.now == l.now && l'.ring.start == l.ring.start
    requires l'.ring.startIdx == l.ring.startIdx && |l'.ring.slots| == |l.ring.slots|
    ensures TInv(l')
  {
    forall y | y in l'.waiters ensures Timed(l', l'.waiters[y]) {
      assert Timed(l, l.waiters[y]);
    }
  }

  lemma SignalTimed(l: Loop, q: nat)
    requires Inv(l) && TInv(l)
    ensures TInv(Signal(l, q))
  {
    if Queue(l, q) != [] {
      var x := Queue(l, q)[0];
      assert XOk(l, x);
      HeadWaits(l, q);
      SignalShape(l, q);
      SignalTimes(l, Signal(l, q), x);
    }
  }

  lemma {:induction false} BroadcastTimed(l: Loop, q: nat)
    requires Inv(l) && TInv(l)
    ensures TInv(Broadcast(l, q))
    decreases |Queue(l, q)|
  {
    if Queue(l, q) != [] {
      SignalInv(l, q);
      SignalTimed(l, q);
      UnlinkKeepsQueues(Unqueued(l, q), Queue(l, q)[0]);
      assert Queue(Signal(l, q), q) == Queue(l, q)[1..];
      BroadcastTimed(Signal(l, q), q);
    }
  }

  lemma StepTimed(l: Loop, e: Event)
    requires Inv(l) && TInv(l) && Legal(l, e) && Fits(l, e)
    ensures TInv(Step(l, e))
  {
    match e
    case OnBegin(events, now) => BeginTimed(l, events, now);
    case OnPop => PopTimed(l);
    case OnEnd => forall y | y in l.waiters ensures Timed(l.(draining := false), l.waiters[y]) {
      assert Timed(l, l.waiters[y]);
    }
    case OnSignal(q) => SignalTimed(l, q);
    case OnBroadcast(q) => BroadcastTimed(l, q);
    case OnPoll(x, fds, timeout, t) => PollTimed(l, x, fds, timeout, t);
    case OnCond(x, q, ms, t) => CondWaitTimed(l, x, q, ms, t);
  }
}
