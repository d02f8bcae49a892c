/** What holds in every state of the event loop, for any clock readings. */
module EventLoopProof {
  import opened LibcoWheel
  import opened EventLoop
  import opened EventLoopLists

  datatype Event =
    | OnBegin(events: seq<IoEvent>, now: nat)
    | OnPop
    | OnEnd
    | OnPoll(x: nat, fds: set<nat>, timeout: int, t: nat)
    | OnCond(x: nat, q: nat, ms: int, t: nat)
    | OnSignal(q: nat)
    | OnBroadcast(q: nat)

  function WakeCount(wakes: seq<Wake>, x: nat): nat {
    if wakes == [] then 0 else (if wakes[0].id == x then 1 else 0) + WakeCount(wakes[1..], x)
  }

  lemma {:induction false} WakeCountAppend(wakes: seq<Wake>, w: Wake, x: nat)
    ensures WakeCount(wakes + [w], x) == WakeCount(wakes, x) + if w.id == x then 1 else 0
  {
    if wakes != [] {
      assert (wakes + [w])[1..] == wakes[1..] + [w];
      WakeCountAppend(wakes[1..], w, x);
    }
  }

  /** Items are named by their addresses; each wait gets a name of its own. */
  ghost predicate NewId(l: Loop, x: nat) {
    x !in l.waiters && WakeCount(l.wakes, x) == 0
  }

  ghost predicate Legal(l: Loop, e: Event) {
    match e
    case OnBegin(events, now) =>
      !l.draining && Shaped(l.ring) && (l.ring.start <= now ==> l.ring.startIdx > 0 || TakeCount(l.ring, now) != 0)
    case OnPop => l.draining && l.active != []
    case OnEnd => l.draining && l.active == []
    case OnPoll(x, fds, timeout, t) => NewId(l, x) && timeout != 0
    case OnCond(x, q, ms, t) => NewId(l, x)
    case OnSignal(q) => true
    case OnBroadcast(q) => true
  }

  // ----- the invariant -----

  ghost predicate InQueue(l: Loop, x: nat, q: nat) {
    Times(Queue(l, q), x) == 1
  }

  ghost predicate Queued(l: Loop, x: nat) {
    forall q :: Times(Queue(l, q), x) <= if x in l.waiters && l.waiters[x].kind == Cond(q) then 1 else 0
  }

  ghost predicate WaiterOk(l: Loop, x: nat, w: Waiter) {
    && (w.kind.Poll? || w.link.InSlot? || w.timedOut ==> w.hasTimeout)
    && (w.detached <==> w.raised > 0) && (!w.detached ==> w.revents == map[])
    && (w.detached ==> w.kind.Poll? && w.link == Active && l.draining && !w.timedOut)
    && (w.timedOut ==> w.link == Active && l.draining && l.ring.start <= l.now)
    && (w.link == Nowhere ==> w.kind.Cond? && !w.hasTimeout && InQueue(l, x, w.kind.q))
    && (w.kind.Poll? && w.link == Active ==> w.detached || w.timedOut)
    && (w.kind.Cond? && w.link == Active && !w.timedOut ==> !InQueue(l, x, w.kind.q))
  }

  ghost predicate Registered(l: Loop, x: nat) {
    forall fd :: fd in l.epoll && l.epoll[fd] == x ==>
      x in l.waiters && l.waiters[x].kind.Poll? && fd in l.waiters[x].kind.fds
  }

  ghost predicate WokenOnce(l: Loop, x: nat) {
    WakeCount(l.wakes, x) <= if x in l.waiters then 0 else 1
  }

  ghost predicate XOk(l: Loop, x: nat) {
    && Placed(l, x) && Dated(l, x) && Queued(l, x) && Registered(l, x) && WokenOnce(l, x)
    && (x in l.waiters ==> WaiterOk(l, x, l.waiters[x]))
  }

  /** A wake that a deadline caused is not early; a poll reports nothing iff it was timed out; a condition
      wait that was not timed out was signalled. */
  ghost predicate WakeOk(w: Wake) {
    && (w.waiter.timedOut ==> w.waiter.expire <= w.now)
    && (w.waiter.kind.Poll? ==> (w.waiter.raised == 0 <==> w.waiter.timedOut))
    && (w.waiter.kind.Cond? && !w.waiter.timedOut ==> !w.queued)
  }

  ghost predicate RingOk(r: Ring) {
    Shaped(r) && |r.slots| >= 2
  }

  ghost predicate Inv(l: Loop) {
    && RingOk(l.ring)
    && (forall x: nat :: XOk(l, x))
    && (forall w :: w in l.wakes ==> WakeOk(w))
  }

  // ----- epoll results -----

  ghost predicate NoneTimedOut(l: Loop) {
    l.draining && forall x :: x in l.waiters ==> !l.waiters[x].timedOut
  }

  /** Everything but lists and one waiter is as before. */
  ghost predicate OneChanged(l: Loop, l': Loop, x: nat, w: Waiter) {
    && x in l.waiters && l'.waiters == l.waiters[x := w] && w.kind == l.waiters[x].kind
    && l'.conds == l.conds && l'.epoll == l.epoll && l'.draining == l.draining && l'.now == l.now && l'.wakes == l.wakes
    && l'.ring.start == l.ring.start && l'.ring.startIdx == l.ring.startIdx && |l'.ring.slots| == |l.ring.slots|
  }

  lemma OneChangedKeeps(l: Loop, l': Loop, x: nat, w: Waiter, y: nat)
    requires XOk(l, y) && OneChanged(l, l', x, w) && Placed(l', y) && Dated(l', y)
    requires y == x ==> WaiterOk(l', x, w)
    ensures XOk(l', y)
  {
    assert forall q :: Queue(l', q) == Queue(l, q);
    if y in l'.waiters && y != x {
      assert WaiterOk(l, y, l.waiters[y]);
    }
  }

  lemma DetachShape(l: Loop, x: nat, ev: IoEvent)
    requires Placed(l, x) && x in l.waiters
    ensures OneChanged(l, AddActive(Unlink(With(l, x, Raised(l.waiters[x], ev)), x), x),
                      x, Raised(l.waiters[x], ev).(link := Active))
  {
    var l1 := With(l, x, Raised(l.waiters[x], ev));
    assert Placed(l1, x);
    UnlinkFrame(l1, x);
  }

  lemma WithPlaces(l: Loop, x: nat, w: Waiter, y: nat)
    requires x in l.waiters && w.link == l.waiters[x].link && w.expire == l.waiters[x].expire
    ensures Placed(l, y) ==> Placed(With(l, x, w), y)
    ensures Dated(l, y) ==> Dated(With(l, x, w), y)
  {
  }

  lemma DetachPlaces(l: Loop, x: nat, ev: IoEvent, y: nat)
    requires Placed(l, x) && Placed(l, y) && Dated(l, y) && x in l.waiters
    ensures var l' := AddActive(Unlink(With(l, x, Raised(l.waiters[x], ev)), x), x); Placed(l', y) && Dated(l', y)
  {
    var l1 := With(l, x, Raised(l.waiters[x], ev));
    WithPlaces(l, x, Raised(l.waiters[x], ev), x);
    WithPlaces(l, x, Raised(l.waiters[x], ev), y);
    RelinkPlaces(l1, x, y);
  }

  /** RemoveFromLink and AddTail to the active list. */
  lemma RelinkPlaces(l: Loop, x: nat, y: nat)
    requires Placed(l, x) && Placed(l, y) && Dated(l, y)
    ensures Placed(AddActive(Unlink(l, x), x), y) && Dated(AddActive(Unlink(l, x), x), y)
  {
    UnlinkPlaces(l, x, y);
    UnlinkDates(l, x, y);
    AddActivePlaces(Unlink(l, x), x, y);
  }

  lemma PrepareAgain(l: Loop, x: nat, ev: IoEvent, y: nat)
    requires XOk(l, y) && XOk(l, x) && x in l.waiters && l.waiters[x].detached
    ensures XOk(With(l, x, Raised(l.waiters[x], ev)), y)
  {
    var l' := With(l, x, Raised(l.waiters[x], ev));
    assert WaiterOk(l', x, l'.waiters[x]) by {
      assert forall q :: Queue(l', q) == Queue(l, q);
    }
    assert Placed(l', y) && Dated(l', y);
    OneChangedKeeps(l, l', x, Raised(l.waiters[x], ev), y);
  }

  lemma PrepareFirst(l: Loop, x: nat, ev: IoEvent, y: nat)
    requires XOk(l, y) && XOk(l, x) && x in l.waiters && l.draining
    requires !l.waiters[x].detached && !l.waiters[x].timedOut && l.waiters[x].kind.Poll?
    ensures XOk(AddActive(Unlink(With(l, x, Raised(l.waiters[x], ev)), x), x), y)
  {
    var l' := AddActive(Unlink(With(l, x, Raised(l.waiters[x], ev)), x), x);
    DetachShape(l, x, ev);
    DetachPlaces(l, x, ev, y);
    OneChangedKeeps(l, l', x, Raised(l.waiters[x], ev).(link := Active), y);
  }

  lemma PrepareIs(l: Loop, ev: IoEvent)
    requires ev.fd in l.epoll && l.epoll[ev.fd] in l.waiters
    ensures var x := l.epoll[ev.fd]; var l1 := With(l, x, Raised(l.waiters[x], ev));
      Prepare(l, ev) == if l.waiters[x].detached then l1 else AddActive(Unlink(l1, x), x)
  {
  }

  lemma PrepareKeeps(l: Loop, ev: IoEvent, y: nat)
    requires XOk(l, y) && (ev.fd in l.epoll ==> XOk(l, l.epoll[ev.fd])) && NoneTimedOut(l)
    ensures XOk(Prepare(l, ev), y)
  {
    if ev.fd in l.epoll && l.epoll[ev.fd] in l.waiters {
      var x := l.epoll[ev.fd];
      PrepareIs(l, ev);
      if l.waiters[x].detached {
        PrepareAgain(l, x, ev, y);
      } else {
        assert l.waiters[x].kind.Poll? by { assert Registered(l, x); }
        PrepareFirst(l, x, ev, y);
      }
    }
  }

  lemma PrepareInv(l: Loop, ev: IoEvent)
    requires Inv(l) && NoneTimedOut(l)
    ensures Inv(Prepare(l, ev)) && NoneTimedOut(Prepare(l, ev))
    ensures Prepare(l, ev).ring.start == l.ring.start && Prepare(l, ev).ring.startIdx == l.ring.startIdx
    ensures |Prepare(l, ev).ring.slots| == |l.ring.slots|
  {
    forall y: nat ensures XOk(Prepare(l, ev), y) {
      assert XOk(l, y) && (ev.fd in l.epoll ==> XOk(l, l.epoll[ev.fd]));
      PrepareKeeps(l, ev, y);
    }
    if ev.fd in l.epoll && l.epoll[ev.fd] in l.waiters {
      assert XOk(l, l.epoll[ev.fd]);
      DetachShape(l, l.epoll[ev.fd], ev);
    }
  }

  lemma {:induction false} PrepareAllInv(l: Loop, events: seq<IoEvent>)
    requires Inv(l) && NoneTimedOut(l)
    ensures var l' := PrepareAll(l, events);
      Inv(l') && NoneTimedOut(l')
        && l'.ring.start == l.ring.start && l'.ring.startIdx == l.ring.startIdx && |l'.ring.slots| == |l.ring.slots|
    decreases |events|
  {
    if events != [] {
      PrepareInv(l, events[0]);
      PrepareAllInv(Prepare(l, events[0]), events[1..]);
    }
  }

  // ----- timeouts -----

  lemma ExpireKeeps(l: Loop, now: nat, x: nat)
    requires Inv(l) && NoneTimedOut(l)
    ensures XOk(Expire(l, now), x)
  {
    assert XOk(l, x);
    ExpirePlaces(l, now, x);
    ExpireDates(l, now, x);
    assert forall q :: Queue(Expire(l, now), q) == Queue(l, q);
  }

  lemma Started(l: Loop)
    requires Inv(l) && !l.draining
    ensures Inv(l.(draining := true)) && NoneTimedOut(l.(draining := true))
  {
    var l0 := l.(draining := true);
    forall x: nat ensures XOk(l0, x) {
      assert XOk(l, x);
      assert forall q :: Queue(l0, q) == Queue(l, q);
    }
    forall x | x in l0.waiters ensures !l0.waiters[x].timedOut { assert XOk(l, x); }
  }

  lemma ExpireInv(l: Loop, now: nat)
    requires Inv(l) && NoneTimedOut(l) && (l.ring.start <= now ==> l.ring.startIdx > 0 || TakeCount(l.ring, now) != 0)
    ensures Inv(Expire(l, now))
  {
    forall x: nat ensures XOk(Expire(l, now), x) { ExpireKeeps(l, now, x); }
  }

  lemma BeginInv(l: Loop, events: seq<IoEvent>, now: nat)
    requires Inv(l) && Legal(l, OnBegin(events, now))
    ensures Shaped(PrepareAll(l.(draining := true), events).ring) && Inv(Begin(l, events, now))
  {
    Started(l);
    PrepareAllInv(l.(draining := true), events);
    ExpireInv(PrepareAll(l.(draining := true), events), now);
  }
}
