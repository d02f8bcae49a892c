/** The event loop as the program keeps it: a wheel object, the active list, the condition queues and the
    wait items, all updated in place. Every method is one step of module EventLoop. */
module EventLoopClass {
  import opened LibcoWheel
  import opened LibcoTimeout
  import opened EventLoop
  import opened EventLoopLists
  import opened EventLoopProof
  import opened EventLoopSteps
  import opened EventLoopTiming

  lemma TakenWait(l: Loop, time: nat)
    requires Inv(l)
    ensures forall x :: x in Ids(TakeAllTimeout(l.ring, time).taken) ==> x in l.waiters
  {
    var ids := Ids(TakeAllTimeout(l.ring, time).taken);
    forall x | x in ids ensures x in l.waiters {
      assert XOk(l, x);
      ExpirePlaces(l, time, x);
      TimesAppend(l.active, ids, x);
      assert Times(ids, x) > 0;
    }
  }

  lemma RegisterUndone(epoll: map<nat, nat>, fds: set<nat>, x: nat)
    ensures Register(epoll, fds, x) - fds == epoll - fds
  {
  }

  class Scheduler {
    const wheel: Timeout
    var active: seq<nat>
    var conds: map<nat, seq<nat>>
    var waiters: map<nat, Waiter>
    var epoll: map<nat, nat>
    var draining: bool
    var now: nat
    ghost var wakes: seq<Wake>

    ghost function Abs(): Loop
      reads this, wheel, wheel.items
    {
      Loop(wheel.Abs(), active, conds, waiters, epoll, draining, now, wakes)
    }

    constructor (size: nat, start: nat)
      requires size >= 2 && start > 0
      ensures fresh(wheel) && fresh(wheel.items) && Initial(Abs()) && Inv(Abs()) && TInv(Abs())
    {
      wheel := new Timeout(size, start);
      active, conds, waiters, epoll, draining, now, wakes := [], map[], map[], map[], false, 0, [];
      new;
      InitialInv(Abs());
    }

    /** RemoveFromLink: by the list the item's link names. */
    method RemoveFromLink(x: nat)
      requires Placed(Abs(), x)
      modifies this`active, this`waiters, wheel.items
      ensures Abs() == Unlink(old(Abs()), x)
    {
      if x in waiters && waiters[x].link != Nowhere {
        if waiters[x].link == Active {
          active := RemoveId(active, x);
        } else {
          var j := waiters[x].link.j;
          wheel.items[j] := RemoveItem(wheel.items[j], x);
        }
        waiters := waiters[x := waiters[x].(link := Nowhere)];
      }
    }

    method AddToActive(x: nat)
      modifies this`active, this`waiters
      ensures Abs() == AddActive(old(Abs()), x)
    {
      if x in waiters && waiters[x].link == Nowhere {
        active := active + [x];
        waiters := waiters[x := waiters[x].(link := Active)];
      }
    }

    /** OnPollPreparePfn for one event. */
    method OnPollPrepare(ev: IoEvent)
      requires ev.fd in epoll ==> Placed(Abs(), epoll[ev.fd])
      modifies this`active, this`waiters, wheel.items
      ensures Abs() == Prepare(old(Abs()), ev)
    {
      if ev.fd in epoll && epoll[ev.fd] in waiters {
        var x := epoll[ev.fd];
        var first := !waiters[x].detached;
        var w := waiters[x];
        waiters := waiters[x := w.(raised := w.raised + 1, revents := w.revents[ev.fd := ev.bits], detached := true)];
        if first {
          assert Abs() == With(old(Abs()), x, Raised(old(waiters[x]), ev));
          assert Placed(Abs(), x);
          RemoveFromLink(x);
          AddToActive(x);
        }
      }
    }

    method PrepareEvents(events: seq<IoEvent>)
      requires Inv(Abs()) && NoneTimedOut(Abs())
      modifies this`active, this`waiters, wheel.items
      ensures Abs() == PrepareAll(old(Abs()), events) && Inv(Abs()) && NoneTimedOut(Abs())
    {
      ghost var l0 := Abs();
      for i := 0 to |events|
        invariant Inv(Abs()) && NoneTimedOut(Abs())
        invariant PrepareAll(Abs(), events[i..]) == PrepareAll(l0, events)
      {
        assert events[i..][0] == events[i] && events[i..][1..] == events[i + 1..];
        PrepareInv(Abs(), events[i]);
        if events[i].fd in epoll { assert XOk(Abs(), epoll[events[i].fd]); }
        OnPollPrepare(events[i]);
      }
    }

    /** The first half of an iteration: every epoll result is prepared, the due items are taken from the
        wheel, marked, and joined to the active list. */
    method Iterate(events: seq<IoEvent>, time: nat)
      requires Inv(Abs()) && Legal(Abs(), OnBegin(events, time))
      modifies this, wheel, wheel.items
      ensures Inv(old(Abs())) && Legal(old(Abs()), OnBegin(events, time))
      ensures Abs() == Step(old(Abs()), OnBegin(events, time)) && Inv(Abs())
    {
      Started(Abs());
      draining := true;
      BeginInv(old(Abs()), events, time);
      PrepareEvents(events);
      ghost var l1 := Abs();
      TakenWait(l1, time);
      now := time;
      var timeout := wheel.TakeAllTimeout(time);
      MarkTimeouts(timeout);
      active := active + Ids(timeout);
      assert Abs() == Expire(l1, time);
    }

    /** bTimeout and, in Join, pLink of every taken item. */
    method MarkTimeouts(timeout: seq<Item>)
      requires forall x :: x in Ids(timeout) ==> x in waiters
      modifies this`waiters
      ensures waiters == map x | x in old(waiters) ::
        if x in Ids(timeout) then EventLoop.Taken(old(waiters)[x]) else old(waiters)[x]
    {
      for i := 0 to |timeout|
        invariant waiters.Keys == old(waiters).Keys
        invariant forall x :: x in waiters ==>
          waiters[x] == if x in Ids(timeout[..i]) then EventLoop.Taken(old(waiters)[x]) else old(waiters)[x]
      {
        var x := timeout[i].id;
        assert timeout[..i + 1] == timeout[..i] + [timeout[i]];
        IdsAppend(timeout[..i], [timeout[i]]);
        assert x in Ids(timeout) by { IdsMember(timeout, x); }
        waiters := waiters[x := waiters[x].(timedOut := true, link := Active)];
      }
      assert timeout[..|timeout|] == timeout;
    }

    /** One round of `while (lp)`. */
    method DrainOne()
      requires Inv(Abs()) && Legal(Abs(), OnPop)
      modifies this, wheel, wheel.items
      ensures Inv(old(Abs())) && Legal(old(Abs()), OnPop) && Abs() == Step(old(Abs()), OnPop) && Inv(Abs())
    {
      ghost var l := Abs();
      PopInv(l);
      assert XOk(l, active[0]);
      DrainHead();
      assert Step(l, OnPop) == Pop(l);
    }

    method DrainHead()
      requires Shaped(wheel.Abs()) && draining && active != [] && XOk(Abs(), active[0])
      modifies this, wheel, wheel.items
      ensures old(active[0]) in old(waiters) && Abs() == Pop(old(Abs()))
    {
      var x := active[0];
      PopIs(Abs());
      PoppedPlaces(Abs(), x);
      active := active[1..];
      waiters := waiters[x := waiters[x].(link := Nowhere)];
      var w := waiters[x];
      assert Abs() == Popped(old(Abs()));
      if w.timedOut && now < w.expire {
        var ret := AddToWheel(x, w.(timedOut := false, requeues := w.requeues + 1), now);
        if ret == 0 { return; }
      }
      var _, _ := Resume(x);
    }

    /** AddTimeout of an item, which also records the list it is linked in. */
    method AddToWheel(x: nat, w: Waiter, t: nat) returns (ret: int)
      requires Shaped(wheel.Abs())
      modifies this`waiters, wheel, wheel.items
      ensures match AddTimeout(old(wheel.Abs()), Item(x, w.expire), t)
        case Added(ring) => ret == 0 && old(wheel.Abs()).start <= w.expire && Abs() == PutOn(old(Abs()), x, w, ring)
        case _ => ret != 0 && Abs() == old(Abs())
    {
      ret := wheel.AddTimeout(Item(x, w.expire), t);
      if ret == 0 {
        var o := w.expire - wheel.start;
        o := if o >= wheel.items.Length then wheel.items.Length - 1 else o;
        waiters := waiters[x :=
          w.(link := InSlot((wheel.startIdx + o) % wheel.items.Length),
             lastStart := wheel.start, slotTime := wheel.start + o)];
      }
    }

    /** pfnProcess: the waiting coroutine is resumed and its wait call cleans up; a poll returns the number
        of events and copies the revents out. */
    method Resume(x: nat) returns (raised: nat, revents: map<nat, nat>)
      requires x in waiters && Placed(Abs(), x)
      modifies this`active, this`waiters, this`conds, this`epoll, this`wakes, wheel.items
      ensures Abs() == Return(old(Abs()), x)
      ensures raised == old(waiters[x].raised) && revents == old(waiters[x].revents)
    {
      var w := waiters[x];
      raised, revents := w.raised, w.revents;
      RemoveFromLink(x);
      match w.kind {
        case Poll(fds) =>
          wakes := wakes + [Wake(x, now, w, false)];
          epoll := epoll - fds;
        case Cond(q) =>
          wakes := wakes + [Wake(x, now, w, x in Queue(Abs(), q))];
          conds := conds[q := RemoveId(if q in conds then conds[q] else [], x)];
      }
      waiters := waiters - {x};
    }

    /** co_poll_inner up to its yield, or to a return without one. `eperm` says that epoll refuses the
        descriptors because they cannot be polled, and `system` is what the system's own poll returns:
        a zero timeout, or a single refused descriptor, is left to it. */
    method Poll(x: nat, fds: set<nat>, timeout: int, t: nat, eperm: bool, system: int) returns (ret: int)
      requires Inv(Abs()) && NewId(Abs(), x)
      modifies this, wheel, wheel.items
      ensures Inv(old(Abs())) && Inv(Abs())
      ensures timeout == 0 || (eperm && |fds| == 1) ==> ret == system && Abs() == old(Abs())
      ensures timeout != 0 && !(eperm && |fds| == 1) ==>
        && Legal(old(Abs()), OnPoll(x, fds, timeout, t)) && Abs() == Step(old(Abs()), OnPoll(x, fds, timeout, t))
        && ret == if x in waiters then 0 else -1
    {
      if timeout == 0 { return system; }
      if eperm && |fds| == 1 { return system; }
      ghost var l := Abs();
      PollInv(l, x, fds, timeout, t);
      ret := StartWaiting(x, fds, timeout, t);
      assert Step(l, OnPoll(x, fds, timeout, t)) == StartPoll(l, x, fds, timeout, t);
    }

    method StartWaiting(x: nat, fds: set<nat>, timeout: int, t: nat) returns (ret: int)
      requires Shaped(wheel.Abs()) && timeout != 0 && x !in waiters
      modifies this`waiters, this`epoll, wheel, wheel.items
      ensures Abs() == StartPoll(old(Abs()), x, fds, timeout, t)
      ensures ret == if x in waiters then 0 else -1
    {
      var limit := if timeout < 0 then INT_MAX else timeout;
      RegisterUndone(epoll, fds, x);
      epoll := Register(epoll, fds, x);
      ret := AddToWheel(x, Fresh(EventLoop.Poll(fds), true, t + limit, wheel.start), t);
      if ret != 0 {
        epoll := epoll - fds;
        ret := -1;
      }
    }

    /** co_cond_timedwait, up to the yield; nonzero when it returns without one. */
    method CondTimedWait(x: nat, q: nat, ms: int, t: nat) returns (ret: int)
      requires Inv(Abs()) && Legal(Abs(), OnCond(x, q, ms, t))
      modifies this, wheel, wheel.items
      ensures Inv(old(Abs())) && Legal(old(Abs()), OnCond(x, q, ms, t))
      ensures Abs() == Step(old(Abs()), OnCond(x, q, ms, t)) && Inv(Abs())
      ensures ret == 0 <==> x in waiters
    {
      ghost var l := Abs();
      CondInv(l, x, q, ms, t);
      ret := StartCondWait(x, q, ms, t);
      assert Step(l, OnCond(x, q, ms, t)) == StartCond(l, x, q, ms, t);
    }

    method StartCondWait(x: nat, q: nat, ms: int, t: nat) returns (ret: int)
      requires Shaped(wheel.Abs()) && x !in waiters
      modifies this`waiters, this`conds, wheel, wheel.items
      ensures Abs() == StartCond(old(Abs()), x, q, ms, t)
      ensures ret == 0 <==> x in waiters
    {
      ret := 0;
      if ms > 0 {
        ret := AddToWheel(x, Fresh(Cond(q), true, t + ms, wheel.start), t);
        if ret != 0 { return; }
      } else {
        waiters := waiters[x := Fresh(Cond(q), false, 0, wheel.start)];
      }
      conds := conds[q := (if q in conds then conds[q] else []) + [x]];
    }

    method CondSignal(q: nat)
      requires Inv(Abs())
      modifies this`active, this`waiters, this`conds, wheel.items
      ensures Abs() == Signal(old(Abs()), q) && Inv(Abs())
    {
      SignalInv(Abs(), q);
      if q in conds && conds[q] != [] {
        var x := conds[q][0];
        assert XOk(Abs(), x);
        conds := conds[q := conds[q][1..]];
        RemoveFromLink(x);
        AddToActive(x);
      }
    }

    method CondBroadcast(q: nat)
      requires Inv(Abs())
      modifies this`active, this`waiters, this`conds, wheel.items
      ensures Abs() == Broadcast(old(Abs()), q) && Inv(Abs()) && Queue(Abs(), q) == []
    {
      ghost var l := Abs();
      BroadcastInv(l, q);
      while q in conds && conds[q] != []
        invariant Inv(Abs()) && Broadcast(Abs(), q) == Broadcast(l, q)
        decreases |Queue(Abs(), q)|
      {
        UnlinkKeepsQueues(Unqueued(Abs(), q), conds[q][0]);
        assert Queue(Signal(Abs(), q), q) == Queue(Abs(), q)[1..];
        CondSignal(q);
      }
    }
  }
}
