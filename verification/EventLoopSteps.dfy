/** The remaining steps of the event loop keep the invariant of module EventLoopProof. */
module EventLoopSteps {
  import opened LibcoWheel
  import opened EventLoop
  import opened EventLoopLists
  import opened EventLoopProof

  // ----- one round of the drain -----

  ghost function Popped(l: Loop): Loop
    requires l.active != [] && l.active[0] in l.waiters
  {
    With(l.(active := l.active[1..]), l.active[0], l.waiters[l.active[0]].(link := Nowhere))
  }

  lemma HeadIsActive(l: Loop)
    requires l.active != [] && Placed(l, l.active[0])
    ensures l.active[0] in l.waiters && l.waiters[l.active[0]].link == Active
  {
    assert multiset(l.active)[l.active[0]] > 0;
  }

  lemma PoppedPlaces(l: Loop, y: nat)
    requires l.active != [] && Placed(l, l.active[0]) && Placed(l, y) && Dated(l, y)
    ensures l.active[0] in l.waiters && Placed(Popped(l), y) && Dated(Popped(l), y)
  {
    HeadIsActive(l);
    assert l.active == [l.active[0]] + l.active[1..];
    TimesAppend([l.active[0]], l.active[1..], y);
  }

  lemma ReturnShape(l: Loop, x: nat)
    requires x in l.waiters && l.waiters[x].link == Nowhere
    ensures var l', w := Return(l, x), l.waiters[x];
      && l'.ring == l.ring && l'.active == l.active && l'.draining == l.draining && l'.now == l.now
      && l'.waiters == l.waiters - {x}
      && l'.epoll == (if w.kind.Poll? then l.epoll - w.kind.fds else l.epoll)
      && (forall q :: Queue(l', q) == if w.kind == Cond(q) then RemoveId(Queue(l, q), x) else Queue(l, q))
      && l'.wakes == l.wakes + [Wake(x, l.now, w, w.kind.Cond? && x in Queue(l, w.kind.q))]
  {
  }

  lemma ReturnPlaces(l: Loop, x: nat, y: nat)
    requires x in l.waiters && l.waiters[x].link == Nowhere && Placed(l, y) && Dated(l, y)
    ensures Placed(Return(l, x), y) && Dated(Return(l, x), y)
  {
    ReturnShape(l, x);
  }

  /** The waiter that returns leaves nothing behind: no list, no queue, no epoll registration. */
  lemma ReturnKeeps(l: Loop, x: nat, y: nat)
    requires x in l.waiters && l.waiters[x].link == Nowhere && Placed(l, y) && Dated(l, y)
    requires Queued(l, y) && Registered(l, y) && WokenOnce(l, y)
    requires y in l.waiters && y != x ==> WaiterOk(l, y, l.waiters[y])
    ensures XOk(Return(l, x), y)
  {
    var l' := Return(l, x);
    ReturnShape(l, x);
    ReturnPlaces(l, x, y);
    var w := l.waiters[x];
    WakeCountAppend(l.wakes, l'.wakes[|l.wakes|], y);
    if w.kind.Cond? {
      RemoveIdTimes(Queue(l, w.kind.q), x, y);
    }
    assert Queued(l', y);
    if y in l'.waiters {
      assert WaiterOk(l', y, l'.waiters[y]);
    }
  }

  lemma PopReturns(l: Loop, y: nat)
    requires l.active != [] && XOk(l, l.active[0]) && XOk(l, y)
    ensures l.active[0] in l.waiters && XOk(Return(Popped(l), l.active[0]), y)
  {
    HeadIsActive(l);
    PoppedPlaces(l, y);
    var l1 := Popped(l);
    assert forall q :: Queue(l1, q) == Queue(l, q);
    if y in l1.waiters && y != l.active[0] {
      assert WaiterOk(l, y, l.waiters[y]) && l1.waiters[y] == l.waiters[y];
    }
    ReturnKeeps(l1, l.active[0], y);
  }

  ghost predicate EarlyHead(l: Loop) {
    && l.active != [] && l.active[0] in l.waiters && Shaped(l.ring) && l.draining
    && l.waiters[l.active[0]].timedOut && l.now < l.waiters[l.active[0]].expire && l.ring.start <= l.now
  }

  ghost function Requeued(l: Loop): Waiter
    requires EarlyHead(l)
  {
    var w := l.waiters[l.active[0]];
    w.(link := Nowhere, timedOut := false, requeues := w.requeues + 1)
  }

  /** Before a requeue the item is off every list, and the wheel takes it. */
  ghost function PutBack(l: Loop): Loop
    requires EarlyHead(l)
  {
    var x, w := l.active[0], Requeued(l);
    PutOn(Popped(l), x, w, AddTimeout(l.ring, Item(x, w.expire), l.now).ring)
  }

  lemma PutBackPlaces(l: Loop, y: nat)
    requires EarlyHead(l) && XOk(l, l.active[0]) && Placed(l, y) && Dated(l, y)
    ensures Placed(PutBack(l), y) && Dated(PutBack(l), y)
  {
    var x, w := l.active[0], Requeued(l);
    PoppedPlaces(l, y);
    PoppedPlaces(l, x);
    PutOnPlaces(Popped(l), x, w, l.now, y);
    PutOnDates(Popped(l), x, w, l.now, y);
  }

  lemma PutBackShape(l: Loop)
    requires EarlyHead(l)
    ensures var x, o := l.active[0], Offset(l.ring, Requeued(l).expire);
      OneChanged(l, PutBack(l), x,
        Requeued(l).(link := InSlot(Index(l.ring, o)), lastStart := l.ring.start, slotTime := l.ring.start + o))
  {
  }

  lemma PopRequeues(l: Loop, y: nat)
    requires EarlyHead(l) && XOk(l, l.active[0]) && XOk(l, y)
    ensures XOk(PutBack(l), y)
  {
    var x, l' := l.active[0], PutBack(l);
    PutBackPlaces(l, y);
    PutBackShape(l);
    assert WaiterOk(l, x, l.waiters[x]);
    OneChangedKeeps(l, l', x, l'.waiters[x], y);
  }

  lemma NotOnWheel(l: Loop, x: nat)
    requires Placed(l, x) && !LinkOf(l, x).InSlot?
    ensures forall j: nat, item :: j < |l.ring.slots| && item in l.ring.slots[j] ==> item.id != x
  {
    forall j: nat, item | j < |l.ring.slots| && item in l.ring.slots[j] ensures item.id != x {
      IdsMember(l.ring.slots[j], x);
      assert Times(Ids(l.ring.slots[j]), x) == 0;
    }
  }

  lemma PutOnDates(l: Loop, x: nat, w: Waiter, now: nat, y: nat)
    requires Shaped(l.ring) && l.ring.start <= now <= w.expire && Dated(l, y) && Placed(l, x) && LinkOf(l, x) == Nowhere
    ensures var r := AddTimeout(l.ring, Item(x, w.expire), now);
      r.Added? && Dated(PutOn(l, x, w, r.ring), y)
  {
    NotOnWheel(l, x);
  }

  lemma PopIs(l: Loop)
    requires Shaped(l.ring) && l.active != [] && XOk(l, l.active[0]) && l.draining
    ensures l.active[0] in l.waiters
    ensures EarlyHead(l) <==> l.waiters[l.active[0]].timedOut && l.now < l.waiters[l.active[0]].expire
    ensures Pop(l) == if EarlyHead(l) then PutBack(l) else Return(Popped(l), l.active[0])
  {
    HeadIsActive(l);
    assert WaiterOk(l, l.active[0], l.waiters[l.active[0]]);
  }

  lemma WakeOfHead(l: Loop)
    requires l.active != [] && XOk(l, l.active[0]) && l.active[0] in l.waiters
    requires !(l.waiters[l.active[0]].timedOut && l.now < l.waiters[l.active[0]].expire)
    ensures var l' := Return(Popped(l), l.active[0]);
      |l'.wakes| == |l.wakes| + 1 && l'.wakes[..|l.wakes|] == l.wakes && WakeOk(l'.wakes[|l.wakes|])
  {
    var x := l.active[0];
    HeadIsActive(l);
    ReturnShape(Popped(l), x);
    var w := l.waiters[x];
    assert WaiterOk(l, x, w);
    if w.kind.Cond? {
      assert Queue(Popped(l), w.kind.q) == Queue(l, w.kind.q);
      assert Times(Queue(l, w.kind.q), x) <= 1;
    }
  }

  lemma PopInv(l: Loop)
    requires Inv(l) && Legal(l, OnPop)
    ensures l.active[0] in l.waiters && Inv(Pop(l))
  {
    var x := l.active[0];
    assert XOk(l, x);
    PopIs(l);
    var l' := Pop(l);
    forall y: nat ensures XOk(l', y) {
      assert XOk(l, y);
      if EarlyHead(l) {
        PopRequeues(l, y);
      } else {
        PopReturns(l, y);
      }
    }
    if !EarlyHead(l) {
      WakeOfHead(l);
      assert forall v :: v in l'.wakes ==> v in l.wakes || v == l'.wakes[|l.wakes|];
    }
  }

  // ----- the calls of running coroutines -----

  lemma PollPlaces(l: Loop, x: nat, fds: set<nat>, timeout: int, t: nat, y: nat)
    requires RingOk(l.ring) && XOk(l, x) && XOk(l, y) && NewId(l, x) && timeout != 0 && l.ring.start <= t
    ensures Placed(StartPoll(l, x, fds, timeout, t), y) && Dated(StartPoll(l, x, fds, timeout, t), y)
  {
    var l1 := l.(epoll := Register(l.epoll, fds, x));
    var w := Fresh(Poll(fds), true, t + PollTimeout(timeout), l.ring.start);
    assert Placed(l1, x) && Placed(l1, y) && Dated(l1, y);
    PutOnPlaces(l1, x, w, t, y);
    PutOnDates(l1, x, w, t, y);
  }

  lemma PollAdded(l: Loop, x: nat, fds: set<nat>, timeout: int, t: nat, y: nat)
    requires RingOk(l.ring) && XOk(l, x) && XOk(l, y) && NewId(l, x) && timeout != 0 && l.ring.start <= t
    ensures XOk(StartPoll(l, x, fds, timeout, t), y)
  {
    PollPlaces(l, x, fds, timeout, t, y);
    var l' := StartPoll(l, x, fds, timeout, t);
    assert forall q :: Queue(l', q) == Queue(l, q);
    assert Registered(l', y);
    if y != x && y in l'.waiters {
      assert WaiterOk(l, y, l.waiters[y]) && l'.waiters[y] == l.waiters[y];
    }
  }

  lemma PollInv(l: Loop, x: nat, fds: set<nat>, timeout: int, t: nat)
    requires Inv(l) && NewId(l, x) && timeout != 0
    ensures Inv(StartPoll(l, x, fds, timeout, t))
  {
    var l' := StartPoll(l, x, fds, timeout, t);
    forall y: nat ensures XOk(l', y) {
      assert XOk(l, x) && XOk(l, y);
      if AddTimeout(l.ring, Item(x, t + PollTimeout(timeout)), t).Added? {
        PollAdded(l, x, fds, timeout, t, y);
      } else {
        PollRefused(l, fds, y);
      }
    }
  }

  lemma PollRefused(l: Loop, fds: set<nat>, y: nat)
    requires XOk(l, y)
    ensures XOk(l.(epoll := l.epoll - fds), y)
  {
    var l' := l.(epoll := l.epoll - fds);
    assert forall q :: Queue(l', q) == Queue(l, q);
    if y in l.waiters { assert WaiterOk(l, y, l.waiters[y]); }
  }

  ghost function Joined(l: Loop, x: nat, q: nat): Loop {
    l.(conds := l.conds[q := Queue(l, q) + [x]])
  }

  lemma JoinedQueues(l: Loop, x: nat, q: nat, y: nat)
    requires NewId(l, x) && XOk(l, x) && XOk(l, y)
    ensures Placed(Joined(l, x, q), y) && Dated(Joined(l, x, q), y)
    ensures forall p :: Times(Queue(Joined(l, x, q), p), y) == Times(Queue(l, p), y) + if p == q && y == x then 1 else 0
  {
    TimesAppend(Queue(l, q), [x], y);
  }

  lemma CondUntimedPlaces(l: Loop, x: nat, q: nat, y: nat)
    requires NewId(l, x) && XOk(l, x) && XOk(l, y)
    ensures var l' := With(Joined(l, x, q), x, Fresh(Cond(q), false, 0, l.ring.start)); Placed(l', y) && Dated(l', y)
  {
    JoinedQueues(l, x, q, y);
    NotOnWheel(l, x);
  }

  lemma CondUntimed(l: Loop, x: nat, q: nat, y: nat)
    requires NewId(l, x) && XOk(l, x) && XOk(l, y)
    ensures XOk(With(Joined(l, x, q), x, Fresh(Cond(q), false, 0, l.ring.start)), y)
  {
    CondUntimedPlaces(l, x, q, y);
    JoinedQueues(l, x, q, y);
    var l' := With(Joined(l, x, q), x, Fresh(Cond(q), false, 0, l.ring.start));
    assert forall p :: Queue(l', p) == Queue(Joined(l, x, q), p);
    assert Queued(l', y);
    if y in l'.waiters {
      assert y != x ==> WaiterOk(l, y, l.waiters[y]);
      assert WaiterOk(l', y, l'.waiters[y]);
    }
  }

  lemma CondTimedPlaces(l: Loop, x: nat, q: nat, w: Waiter, t: nat, y: nat)
    requires NewId(l, x) && XOk(l, x) && XOk(l, y) && Shaped(l.ring)
    requires AddTimeout(l.ring, Item(x, w.expire), t).Added?
    ensures var l' := PutOn(Joined(l, x, q), x, w, AddTimeout(l.ring, Item(x, w.expire), t).ring);
      Placed(l', y) && Dated(l', y)
  {
    JoinedQueues(l, x, q, y);
    JoinedQueues(l, x, q, x);
    PutOnPlaces(Joined(l, x, q), x, w, t, y);
    PutOnDates(Joined(l, x, q), x, w, t, y);
  }

  lemma CondTimed(l: Loop, x: nat, q: nat, w: Waiter, t: nat, y: nat)
    requires RingOk(l.ring) && XOk(l, x) && XOk(l, y) && NewId(l, x)
    requires w == Fresh(Cond(q), true, w.expire, l.ring.start)
    requires AddTimeout(l.ring, Item(x, w.expire), t).Added?
    ensures XOk(PutOn(Joined(l, x, q), x, w, AddTimeout(l.ring, Item(x, w.expire), t).ring), y)
  {
    CondTimedPlaces(l, x, q, w, t, y);
    JoinedQueues(l, x, q, y);
    var l1 := Joined(l, x, q);
    var l' := PutOn(l1, x, w, AddTimeout(l.ring, Item(x, w.expire), t).ring);
    assert forall p :: Queue(l', p) == Queue(l1, p);
    if y != x && y in l'.waiters {
      assert WaiterOk(l, y, l.waiters[y]);
    }
  }

  lemma CondInv(l: Loop, x: nat, q: nat, ms: int, t: nat)
    requires Inv(l) && NewId(l, x)
    ensures Inv(StartCond(l, x, q, ms, t))
  {
    var l' := StartCond(l, x, q, ms, t);
    if ms <= 0 {
      forall y: nat ensures XOk(l', y) {
        assert XOk(l, x) && XOk(l, y);
        CondUntimed(l, x, q, y);
      }
    } else if AddTimeout(l.ring, Item(x, t + ms), t).Added? {
      forall y: nat ensures XOk(l', y) {
        assert XOk(l, x) && XOk(l, y);
        CondTimed(l, x, q, Fresh(Cond(q), true, t + ms, l.ring.start), t, y);
      }
    }
  }

  // ----- signal and broadcast -----

  ghost function Unqueued(l: Loop, q: nat): Loop {
    if Queue(l, q) == [] then l else l.(conds := l.conds[q := Queue(l, q)[1..]])
  }

  lemma UnqueuedTimes(l: Loop, q: nat, y: nat)
    requires Queue(l, q) != []
    ensures forall p ::
      Times(Queue(Unqueued(l, q), p), y) == Times(Queue(l, p), y) - if p == q && y == Queue(l, q)[0] then 1 else 0
  {
    assert Queue(l, q) == [Queue(l, q)[0]] + Queue(l, q)[1..];
    TimesAppend([Queue(l, q)[0]], Queue(l, q)[1..], y);
  }

  lemma HeadWaits(l: Loop, q: nat)
    requires Queue(l, q) != [] && Queued(l, Queue(l, q)[0])
    ensures var x := Queue(l, q)[0]; x in l.waiters && l.waiters[x].kind == Cond(q) && Times(Queue(l, q), x) == 1
  {
    assert Times(Queue(l, q), Queue(l, q)[0]) > 0;
  }

  lemma SignalShape(l: Loop, q: nat)
    requires Queue(l, q) != [] && Placed(l, Queue(l, q)[0]) && Queue(l, q)[0] in l.waiters
    ensures var x, l' := Queue(l, q)[0], Signal(l, q);
      && l'.waiters == l.waiters[x := l.waiters[x].(link := Active)] && l'.conds == Unqueued(l, q).conds
      && l'.epoll == l.epoll && l'.draining == l.draining && l'.now == l.now && l'.wakes == l.wakes
      && l'.ring.start == l.ring.start && l'.ring.startIdx == l.ring.startIdx && |l'.ring.slots| == |l.ring.slots|
  {
    var l1 := Unqueued(l, q);
    assert Placed(l1, Queue(l, q)[0]);
    UnlinkFrame(l1, Queue(l, q)[0]);
  }

  lemma SignalPlaces(l: Loop, q: nat, y: nat)
    requires Queue(l, q) != [] && Placed(l, Queue(l, q)[0]) && Placed(l, y) && Dated(l, y)
    ensures Placed(Signal(l, q), y) && Dated(Signal(l, q), y)
  {
    var x, l1 := Queue(l, q)[0], Unqueued(l, q);
    assert Placed(l1, x) && Placed(l1, y) && Dated(l1, y);
    RelinkPlaces(l1, x, y);
  }

  lemma SignalKeeps(l: Loop, q: nat, y: nat)
    requires Queue(l, q) != [] && XOk(l, Queue(l, q)[0]) && XOk(l, y)
    ensures XOk(Signal(l, q), y)
  {
    HeadWaits(l, q);
    SignalShape(l, q);
    SignalPlaces(l, q, y);
    UnqueuedTimes(l, q, y);
    var x, l' := Queue(l, q)[0], Signal(l, q);
    assert forall p :: Queue(l', p) == Queue(Unqueued(l, q), p);
    if y in l'.waiters {
      assert WaiterOk(l, y, l.waiters[y]);
      assert WaiterOk(l', y, l'.waiters[y]);
    }
  }

  lemma SignalInv(l: Loop, q: nat)
    requires Inv(l)
    ensures Inv(Signal(l, q))
  {
    if Queue(l, q) != [] {
      var x := Queue(l, q)[0];
      assert XOk(l, x);
      HeadWaits(l, q);
      SignalShape(l, q);
      forall y: nat ensures XOk(Signal(l, q), y) {
        assert XOk(l, y);
        SignalKeeps(l, q, y);
      }
    }
  }

  lemma {:induction false} BroadcastInv(l: Loop, q: nat)
    requires Inv(l)
    ensures Inv(Broadcast(l, q)) && Queue(Broadcast(l, q), q) == []
    decreases |Queue(l, q)|
  {
    if Queue(l, q) != [] {
      SignalInv(l, q);
      UnlinkKeepsQueues(Unqueued(l, q), Queue(l, q)[0]);
      assert Queue(Signal(l, q), q) == Queue(l, q)[1..];
      BroadcastInv(Signal(l, q), q);
    }
  }
}
