/** The active list is served first in, first out: whoever is made ready first is resumed first. */
module EventLoopOrder {
  import opened LibcoWheel
  import opened EventLoop
  import opened EventLoopLists
  import opened EventLoopProof
  import opened EventLoopSteps
  import opened EventLoopTiming
  import opened EventLoopTheorems
  import opened EventLoopWakes

  /** x is in the list, and y is not ahead of it. */
  ghost predicate Precedes(s: seq<nat>, x: nat, y: nat) {
    exists i :: 0 <= i < |s| && s[i] == x && y !in s[..i]
  }

  lemma HeadPrecedes(s: seq<nat>, x: nat, y: nat)
    requires s != []
    ensures s[0] == x ==> Precedes(s, x, y)
    ensures s[0] != x ==> (Precedes(s, x, y) <==> s[0] != y && Precedes(s[1..], x, y))
  {
    if s[0] == x {
      assert y !in s[..0];
    } else {
      if Precedes(s, x, y) {
        var i :| 0 <= i < |s| && s[i] == x && y !in s[..i];
        assert s[..i] == [s[0]] + s[1..][..i - 1] && s[1..][i - 1] == x;
      }
      if s[0] != y && Precedes(s[1..], x, y) {
        var i :| 0 <= i < |s[1..]| && s[1..][i] == x && y !in s[1..][..i];
        assert s[..i + 1] == [s[0]] + s[1..][..i] && s[i + 1] == x;
      }
    }
  }

  lemma AppendPrecedes(s: seq<nat>, t: seq<nat>, x: nat, y: nat)
    requires Precedes(s, x, y)
    ensures Precedes(s + t, x, y)
  {
    var i :| 0 <= i < |s| && s[i] == x && y !in s[..i];
    assert (s + t)[i] == x && (s + t)[..i] == s[..i];
  }

  lemma {:induction false} RemovePrecedes(s: seq<nat>, x: nat, y: nat, z: nat)
    requires Precedes(s, x, y) && z != x
    ensures Precedes(RemoveId(s, z), x, y)
  {
    HeadPrecedes(s, x, y);
    var r := RemoveId(s, z);
    if s[0] != x && s[0] != z {
      RemovePrecedes(s[1..], x, y, z);
      assert r[1..] == RemoveId(s[1..], z);
    }
    if s[0] != z { HeadPrecedes(r, x, y); }
  }

  lemma LastPrecedes(s: seq<nat>, x: nat, y: nat)
    requires x in s && y !in s
    ensures Precedes(s + [y], x, y)
  {
    var i :| 0 <= i < |s| && s[i] == x;
    assert (s + [y])[i] == x && (s + [y])[..i] == s[..i];
  }

  /** An item that is moved to the active list goes to its end. */
  lemma RelinkActive(l: Loop, z: nat)
    requires Placed(l, z) && z in l.waiters
    ensures AddActive(Unlink(l, z), z).active ==
      (if l.waiters[z].link == Active then RemoveId(l.active, z) else l.active) + [z]
    ensures z !in (if l.waiters[z].link == Active then RemoveId(l.active, z) else l.active)
  {
    var rest := if l.waiters[z].link == Active then RemoveId(l.active, z) else l.active;
    RemoveIdTimes(l.active, z, z);
    assert Times(rest, z) == 0;
  }

  lemma RelinkPrecedes(l: Loop, x: nat, y: nat, z: nat)
    requires Placed(l, z) && z in l.waiters && z != x && Precedes(l.active, x, y)
    ensures Precedes(AddActive(Unlink(l, z), z).active, x, y)
  {
    RelinkActive(l, z);
    RemovePrecedes(l.active, x, y, z);
    AppendPrecedes(l.active, [z], x, y);
    AppendPrecedes(RemoveId(l.active, z), [z], x, y);
  }

  /** x is in the active list and will be resumed from it. */
  ghost predicate Settled(l: Loop, x: nat) {
    Ready(l, x) && (l.waiters[x].kind.Cond? ==> x !in Queue(l, l.waiters[x].kind.q))
  }

  lemma SettledNotQueued(l: Loop, q: nat, x: nat)
    requires Inv(l) && Settled(l, x)
    ensures x !in Queue(l, q)
  {
    assert XOk(l, x) && Times(Queue(l, q), x) == multiset(Queue(l, q))[x];
  }

  // ----- the steps -----

  lemma {:induction false} PrepareAllPrecedes(l: Loop, events: seq<IoEvent>, x: nat, y: nat)
    requires Inv(l) && NoneTimedOut(l) && x in l.waiters && Precedes(l.active, x, y)
    requires l.waiters[x].kind.Cond? || l.waiters[x].detached
    ensures Precedes(PrepareAll(l, events).active, x, y)
    decreases |events|
  {
    if events != [] {
      var ev := events[0];
      PrepareInv(l, ev);
      PrepareDetached(l, ev, x);
      PreparePrecedes(l, ev, x, y);
      PrepareAllPrecedes(Prepare(l, ev), events[1..], x, y);
    }
  }

  /** Once a poll has had an event, later events do not move it. */
  lemma PrepareDetached(l: Loop, ev: IoEvent, x: nat)
    requires Inv(l) && x in l.waiters && (l.waiters[x].kind.Cond? || l.waiters[x].detached)
    ensures var l' := Prepare(l, ev);
      x in l'.waiters && (l'.waiters[x].kind.Cond? || l'.waiters[x].detached)
  {
    PrepareStays(l, ev, x);
    if ev.fd in l.epoll && l.epoll[ev.fd] in l.waiters {
      assert XOk(l, l.epoll[ev.fd]);
      DetachShape(l, l.epoll[ev.fd], ev);
    }
  }

  lemma PreparePrecedes(l: Loop, ev: IoEvent, x: nat, y: nat)
    requires Inv(l) && x in l.waiters && Precedes(l.active, x, y)
    requires l.waiters[x].kind.Cond? || l.waiters[x].detached
    ensures Precedes(Prepare(l, ev).active, x, y)
  {
    assert XOk(l, x);
    if ev.fd in l.epoll && l.epoll[ev.fd] in l.waiters && l.epoll[ev.fd] != x {
      var z := l.epoll[ev.fd];
      assert XOk(l, z);
      var l1 := With(l, z, Raised(l.waiters[z], ev));
      WithPlaces(l, z, Raised(l.waiters[z], ev), z);
      RelinkPrecedes(l1, x, y, z);
    }
  }

  /** Between two iterations only condition waiters are in the active list. */
  lemma BeginOrder(l: Loop, events: seq<IoEvent>, now: nat, x: nat, y: nat)
    requires Inv(l) && Legal(l, OnBegin(events, now)) && Settled(l, x) && Precedes(l.active, x, y)
    ensures Shaped(PrepareAll(l.(draining := true), events).ring)
    ensures Settled(Begin(l, events, now), x) && Precedes(Begin(l, events, now).active, x, y)
  {
    assert XOk(l, x) && WaiterOk(l, x, l.waiters[x]);
    BeginCond(l, events, now, x);
    Started(l);
    var l0 := l.(draining := true);
    PrepareAllPrecedes(l0, events, x, y);
    var l1 := PrepareAll(l0, events);
    AppendPrecedes(l1.active, Ids(TakeAllTimeout(l1.ring, now).taken), x, y);
  }

  lemma SignalActive(l: Loop, q: nat)
    requires Inv(l) && Queue(l, q) != []
    ensures var z := Queue(l, q)[0];
      && z in l.waiters
      && Signal(l, q).active == (if l.waiters[z].link == Active then RemoveId(l.active, z) else l.active) + [z]
      && z !in (if l.waiters[z].link == Active then RemoveId(l.active, z) else l.active)
  {
    var z := Queue(l, q)[0];
    assert XOk(l, z);
    HeadWaits(l, q);
    assert Placed(Unqueued(l, q), z);
    RelinkActive(Unqueued(l, q), z);
  }

  lemma SignalOrder(l: Loop, q: nat, x: nat, y: nat)
    requires Inv(l) && Settled(l, x) && Precedes(l.active, x, y)
    ensures Settled(Signal(l, q), x) && Precedes(Signal(l, q).active, x, y)
  {
    SettledNotQueued(l, q, x);
    SignalWaiter(l, q, x);
    SignalSize(l, q);
    if Queue(l, q) != [] {
      var z := Queue(l, q)[0];
      SignalReaches(l, q);
      SignalActive(l, q);
      RemovePrecedes(l.active, x, y, z);
      AppendPrecedes(l.active, [z], x, y);
      AppendPrecedes(RemoveId(l.active, z), [z], x, y);
    }
  }

  lemma {:induction false} BroadcastOrder(l: Loop, q: nat, x: nat, y: nat)
    requires Inv(l) && Settled(l, x) && Precedes(l.active, x, y)
    ensures Settled(Broadcast(l, q), x) && Precedes(Broadcast(l, q).active, x, y)
    decreases |Queue(l, q)|
  {
    if Queue(l, q) != [] {
      SignalOrder(l, q, x, y);
      SignalInv(l, q);
      SignalReaches(l, q);
      BroadcastOrder(Signal(l, q), q, x, y);
    }
  }

  lemma PopOrder(l: Loop, x: nat, y: nat)
    requires Inv(l) && Legal(l, OnPop) && Settled(l, x) && Precedes(l.active, x, y) && x != y && y in l.waiters
    ensures y in Step(l, OnPop).waiters
    ensures x in Step(l, OnPop).waiters ==> Settled(Step(l, OnPop), x) && Precedes(Step(l, OnPop).active, x, y)
    ensures x !in Step(l, OnPop).waiters <==> l.active[0] == x
  {
    PopStep(l);
    HeadPrecedes(l.active, x, y);
    StepReady(l, OnPop, x);
    if x != l.active[0] {
      PopActive(l);
      if l.waiters[x].kind.Cond? { RemoveIdMembers(Queue(l, l.waiters[x].kind.q), l.active[0]); }
    }
  }

  lemma PopActive(l: Loop)
    requires Inv(l) && Legal(l, OnPop)
    ensures Step(l, OnPop).active == l.active[1..]
  {
    assert XOk(l, l.active[0]);
    PopIs(l);
    if !EarlyHead(l) { ReturnShape(Popped(l), l.active[0]); }
  }

  /** x waits ahead of y, or it has been resumed and y not. */
  ghost predicate Ahead(l: Loop, x: nat, y: nat) {
    y in l.waiters && (x in l.waiters ==> Settled(l, x) && Precedes(l.active, x, y))
  }

  lemma StepOrder(l: Loop, e: Event, x: nat, y: nat)
    requires Inv(l) && Legal(l, e) && x in l.waiters && Ahead(l, x, y) && x != y
    ensures Ahead(Step(l, e), x, y)
  {
    if e.OnPop? {
      PopOrder(l, x, y);
    } else {
      OtherStepStays(l, e, y);
      OtherOrder(l, e, x, y);
    }
  }

  /** The start of a wait leaves the active list alone. */
  lemma PollOrder(l: Loop, id: nat, fds: set<nat>, timeout: int, t: nat, x: nat)
    requires Inv(l) && Settled(l, x) && NewId(l, id) && timeout != 0
    ensures Settled(StartPoll(l, id, fds, timeout, t), x) && StartPoll(l, id, fds, timeout, t).active == l.active
  {
  }

  lemma CondOrder(l: Loop, id: nat, q: nat, ms: int, t: nat, x: nat)
    requires Inv(l) && Settled(l, x) && NewId(l, id)
    ensures Settled(StartCond(l, id, q, ms, t), x) && StartCond(l, id, q, ms, t).active == l.active
  {
  }

  lemma OtherOrder(l: Loop, e: Event, x: nat, y: nat)
    requires Inv(l) && Legal(l, e) && Settled(l, x) && Precedes(l.active, x, y) && !e.OnPop?
    ensures Settled(Step(l, e), x) && Precedes(Step(l, e).active, x, y)
  {
    match e
    case OnBegin(events, now) => BeginOrder(l, events, now, x, y);
    case OnSignal(q) => SignalOrder(l, q, x, y);
    case OnBroadcast(q) => BroadcastOrder(l, q, x, y);
    case OnPoll(id, fds, timeout, t) => PollOrder(l, id, fds, timeout, t, x);
    case OnCond(id, q, ms, t) => CondOrder(l, id, q, ms, t, x);
    case OnEnd =>
  }

  // ----- runs -----

  /** The loop resumed x before y. */
  ghost predicate ResumedBefore(l: Loop, x: nat, y: nat) {
    exists i, j :: 0 <= i < j < |l.wakes| && l.wakes[i].id == x && l.wakes[j].id == y
  }

  lemma {:induction false} RunWakes(l: Loop, run: seq<Event>)
    requires Inv(l) && LegalRun(l, run)
    ensures l.wakes <= Run(l, run).wakes
    decreases |run|
  {
    if run != [] {
      StepInv(l, run[0]);
      StepWakes(l, run[0]);
      RunWakes(Step(l, run[0]), run[1..]);
    }
  }

  lemma {:induction false} SomeWake(wakes: seq<Wake>, x: nat) returns (i: nat)
    requires WakeCount(wakes, x) > 0
    ensures i < |wakes| && wakes[i].id == x
  {
    if wakes[0].id == x {
      i := 0;
    } else {
      var j := SomeWake(wakes[1..], x);
      i := j + 1;
    }
  }

  lemma {:induction false} NoWakeOf(wakes: seq<Wake>, y: nat)
    requires WakeCount(wakes, y) == 0
    ensures forall i :: 0 <= i < |wakes| ==> wakes[i].id != y
  {
    if wakes != [] {
      NoWakeOf(wakes[1..], y);
    }
  }

  /** y waits and x has been resumed: when y is resumed, it is later. */
  lemma LaterWake(l: Loop, run: seq<Event>, x: nat, y: nat)
    requires Inv(l) && LegalRun(l, run) && WakeCount(l.wakes, x) == 1 && y in l.waiters
    ensures y !in Run(l, run).waiters ==> ResumedBefore(Run(l, run), x, y)
  {
    var l' := Run(l, run);
    if y !in l'.waiters {
      ResumedOnce(l, run, y);
      RunWakes(l, run);
      assert XOk(l, y) && WokenOnce(l, y);
      var i := SomeWake(l.wakes, x);
      var j := SomeWake(l'.wakes, y);
      NoWakeOf(l.wakes, y);
      assert forall k :: 0 <= k < |l.wakes| ==> l'.wakes[k] == l.wakes[k];
    }
  }

  /** Two items in the active list: over any run the first of them is resumed first. The second one may be
      put back on the wheel or signalled again in between; it is not resumed before the first. */
  lemma {:induction false} ResumedInOrder(l: Loop, run: seq<Event>, x: nat, y: nat)
    requires Inv(l) && LegalRun(l, run) && Settled(l, x) && Precedes(l.active, x, y) && y in l.waiters && x != y
    ensures y !in Run(l, run).waiters ==> x !in Run(l, run).waiters && ResumedBefore(Run(l, run), x, y)
    decreases |run|
  {
    if run != [] {
      var l1 := Step(l, run[0]);
      StepInv(l, run[0]);
      StepOrder(l, run[0], x, y);
      if x in l1.waiters {
        ResumedInOrder(l1, run[1..], x, y);
      } else {
        StepFate(l, run[0], x);
        StaysWoken(l1, run[1..], x);
        LaterWake(l1, run[1..], x, y);
      }
    }
  }

  /** Two signals in a row, of the same or of different queues, put their waiters in this order, provided the
      first one is not waiting for a deadline that lies ahead. */
  lemma SignalledInOrder(l: Loop, q: nat, p: nat)
    requires Inv(l) && Queue(l, q) != [] && Queue(Signal(l, q), p) != []
    requires var w := Queue(l, q)[0]; w in l.waiters && (l.waiters[w].timedOut ==> l.waiters[w].expire <= l.now)
    ensures var x, y, l2 := Queue(l, q)[0], Queue(Signal(l, q), p)[0], Signal(Signal(l, q), p);
      x != y && y in l2.waiters && Settled(l2, x) && Precedes(l2.active, x, y)
  {
    var x, l1 := Queue(l, q)[0], Signal(l, q);
    var y := Queue(l1, p)[0];
    SignalInv(l, q);
    SignalReaches(l, q);
    SignalActive(l, q);
    SettledAfter(l, q);
    SettledNotQueued(l1, p, x);
    SignalledNext(l1, p, x);
  }

  lemma SettledAfter(l: Loop, q: nat)
    requires Inv(l) && Queue(l, q) != []
    requires var w := Queue(l, q)[0]; w in l.waiters && (l.waiters[w].timedOut ==> l.waiters[w].expire <= l.now)
    ensures Settled(Signal(l, q), Queue(l, q)[0]) && Queue(l, q)[0] in Signal(l, q).active
  {
    var x := Queue(l, q)[0];
    SignalReaches(l, q);
    SignalActive(l, q);
    SignalWaiter(l, q, x);
    assert XOk(l, x);
    HeadWaits(l, q);
    assert Queue(l, q) == [x] + Queue(l, q)[1..];
    assert Times(Queue(l, q), x) == 1 + Times(Queue(l, q)[1..], x);
  }

  /** A signalled waiter goes behind whoever is in the list. */
  lemma SignalledNext(l: Loop, q: nat, x: nat)
    requires Inv(l) && Queue(l, q) != [] && Settled(l, x) && x in l.active && x != Queue(l, q)[0]
    ensures var y, l' := Queue(l, q)[0], Signal(l, q);
      y in l'.waiters && Settled(l', x) && x in l'.active && Precedes(l'.active, x, y)
  {
    var y := Queue(l, q)[0];
    SignalReaches(l, q);
    SignalActive(l, q);
    SignalWaiter(l, q, x);
    SignalWaiter(l, q, y);
    SignalSize(l, q);
    SettledNotQueued(l, q, x);
    StaysMember(l.active, y, x);
    LastPrecedes(if l.waiters[y].link == Active then RemoveId(l.active, y) else l.active, x, y);
  }

  lemma {:induction false} StaysMember(s: seq<nat>, x: nat, y: nat)
    requires y in s && x != y
    ensures y in RemoveId(s, x)
  {
    if s[0] != y && s[0] != x { StaysMember(s[1..], x, y); }
  }

  /** A broadcast wakes the waiters of a queue in the order in which they were queued. */
  lemma BroadcastInOrder(l: Loop, q: nat, i: nat, j: nat)
    requires Inv(l) && i < j < |Queue(l, q)|
    requires var w := Queue(l, q)[i]; w in l.waiters && (l.waiters[w].timedOut ==> l.waiters[w].expire <= l.now)
    ensures var x, y, l' := Queue(l, q)[i], Queue(l, q)[j], Broadcast(l, q);
      Settled(l', x) && Precedes(l'.active, x, y)
  {
    QueueInOrder(l, q, i, j, Queue(l, q)[i], Queue(l, q)[j]);
  }

  lemma {:induction false} QueueInOrder(l: Loop, q: nat, i: nat, j: nat, x: nat, y: nat)
    requires Inv(l) && i < j < |Queue(l, q)| && Queue(l, q)[i] == x && Queue(l, q)[j] == y
    requires x in l.waiters && (l.waiters[x].timedOut ==> l.waiters[x].expire <= l.now)
    ensures Settled(Broadcast(l, q), x) && Precedes(Broadcast(l, q).active, x, y)
    decreases i
  {
    SignalInv(l, q);
    SignalReaches(l, q);
    if i == 0 {
      HeadInOrder(l, q, j);
    } else {
      SignalledTail(l, q, i);
      QueueInOrder(Signal(l, q), q, i - 1, j - 1, x, y);
    }
  }

  lemma HeadInOrder(l: Loop, q: nat, j: nat)
    requires Inv(l) && Inv(Signal(l, q)) && 0 < j < |Queue(l, q)| && Queue(Signal(l, q), q) == Queue(l, q)[1..]
    requires var w := Queue(l, q)[0]; w in l.waiters && (l.waiters[w].timedOut ==> l.waiters[w].expire <= l.now)
    ensures Settled(Broadcast(l, q), Queue(l, q)[0])
    ensures Precedes(Broadcast(l, q).active, Queue(l, q)[0], Queue(l, q)[j])
  {
    SettledAfter(l, q);
    LaterInQueue(Signal(l, q), q, Queue(l, q)[0], j - 1);
  }

  /** A signal leaves the deadlines of the waiters behind the head alone. */
  lemma SignalledTail(l: Loop, q: nat, i: nat)
    requires Inv(l) && 0 < i < |Queue(l, q)| && Queue(Signal(l, q), q) == Queue(l, q)[1..]
    requires var w := Queue(l, q)[i]; w in l.waiters && (l.waiters[w].timedOut ==> l.waiters[w].expire <= l.now)
    ensures var w, l1 := Queue(Signal(l, q), q)[i - 1], Signal(l, q);
      w == Queue(l, q)[i] && w in l1.waiters && (l1.waiters[w].timedOut ==> l1.waiters[w].expire <= l1.now)
  {
    SignalWaiter(l, q, Queue(l, q)[i]);
    SignalSize(l, q);
  }

  lemma {:induction false} LaterInQueue(l: Loop, q: nat, x: nat, k: nat)
    requires Inv(l) && k < |Queue(l, q)| && Settled(l, x) && x in l.active
    ensures Settled(Broadcast(l, q), x) && Precedes(Broadcast(l, q).active, x, Queue(l, q)[k])
    decreases k
  {
    var l1 := Signal(l, q);
    SignalInv(l, q);
    SettledNotQueued(l, q, x);
    SignalReaches(l, q);
    SignalledNext(l, q, x);
    if k == 0 {
      BroadcastOrder(l1, q, x, Queue(l, q)[0]);
    } else {
      assert Queue(l1, q)[k - 1] == Queue(l, q)[k];
      LaterInQueue(l1, q, x, k - 1);
    }
  }

  // ----- events and timeouts of one iteration -----

  ghost predicate NotYet(l: Loop, y: nat) {
    y in l.waiters && l.waiters[y].kind.Poll? && !l.waiters[y].detached
  }

  lemma NotYetActive(l: Loop, y: nat)
    requires Inv(l) && NoneTimedOut(l) && NotYet(l, y)
    ensures y !in l.active
  {
    assert XOk(l, y) && WaiterOk(l, y, l.waiters[y]) && Times(l.active, y) == 0;
  }

  lemma {:induction false} PrepareNotYet(l: Loop, events: seq<IoEvent>, y: nat)
    requires Inv(l) && NoneTimedOut(l) && NotYet(l, y) && Hits(l.epoll, events, y) == 0
    ensures NotYet(PrepareAll(l, events), y) && PrepareAll(l, events).epoll == l.epoll
    ensures Inv(PrepareAll(l, events)) && NoneTimedOut(PrepareAll(l, events))
    decreases |events|
  {
    PrepareAllInv(l, events);
    if events != [] {
      PrepareInv(l, events[0]);
      PrepareStays(l, events[0], y);
      PrepareOther(l, events[0], y);
      PrepareNotYet(Prepare(l, events[0]), events[1..], y);
    }
  }

  lemma PrepareOther(l: Loop, ev: IoEvent, y: nat)
    requires Inv(l) && NotYet(l, y) && !(ev.fd in l.epoll && l.epoll[ev.fd] == y)
    ensures NotYet(Prepare(l, ev), y)
  {
    PrepareStays(l, ev, y);
  }

  lemma {:induction false} PrepareSplit(l: Loop, a: seq<IoEvent>, b: seq<IoEvent>)
    ensures PrepareAll(l, a + b) == PrepareAll(PrepareAll(l, a), b)
    decreases |a|
  {
    if a == [] {
      assert a + b == b;
    } else {
      assert (a + b)[1..] == a[1..] + b;
      PrepareSplit(Prepare(l, a[0]), a[1..], b);
    }
  }

  /** The first event of x, while y has had none: x is in the list now, and y is not ahead of it. */
  lemma PrepareFirst(l: Loop, ev: IoEvent, x: nat, y: nat)
    requires Inv(l) && NoneTimedOut(l) && NotYet(l, y) && x != y
    requires x in l.waiters && ev.fd in l.epoll && l.epoll[ev.fd] == x
    ensures var l' := Prepare(l, ev);
      x in l'.waiters && l'.waiters[x].detached && Precedes(l'.active, x, y)
  {
    NotYetActive(l, y);
    assert XOk(l, x) && WaiterOk(l, x, l.waiters[x]);
    if l.waiters[x].detached {
      assert Times(l.active, x) == 1;
      var i :| 0 <= i < |l.active| && l.active[i] == x;
      assert y !in l.active[..i];
    } else {
      NotYetActive(l, x);
      var l1 := With(l, x, Raised(l.waiters[x], ev));
      WithPlaces(l, x, Raised(l.waiters[x], ev), x);
      RelinkActive(l1, x);
      DetachShape(l, x, ev);
      assert (l.active + [x])[|l.active|] == x && (l.active + [x])[..|l.active|] == l.active;
    }
  }

  /** The polls that have events go to the list in the order of their first events. */
  lemma EventsInOrder(l: Loop, before: seq<IoEvent>, ev: IoEvent, after: seq<IoEvent>, x: nat, y: nat)
    requires Inv(l) && NoneTimedOut(l) && NotYet(l, y) && x != y && x in l.waiters
    requires ev.fd in l.epoll && l.epoll[ev.fd] == x && Hits(l.epoll, before, y) == 0
    ensures Precedes(PrepareAll(l, before + [ev] + after).active, x, y)
  {
    var l1 := PrepareAll(l, before);
    PrepareNotYet(l, before, y);
    PrepareAllStays(l, before, x);
    PrepareFirst(l1, ev, x, y);
    PrepareInv(l1, ev);
    PrepareAllPrecedes(Prepare(l1, ev), after, x, y);
    assert before + [ev] + after == before + ([ev] + after) && ([ev] + after)[1..] == after;
    PrepareSplit(l, before, [ev] + after);
  }

  /** And ahead of those that are taken from the wheel, in the order of their slot times. */
  lemma TimeoutsBehind(l: Loop, now: nat, x: nat, y: nat)
    requires Shaped(l.ring) && x in l.active && y !in l.active
    ensures Precedes(Expire(l, now).active, x, y)
    ensures Expire(l, now).active == l.active + Ids(TakeAllTimeout(l.ring, now).taken)
  {
    var i :| 0 <= i < |l.active| && l.active[i] == x;
    assert y !in l.active[..i];
    AppendPrecedes(l.active, Ids(TakeAllTimeout(l.ring, now).taken), x, y);
  }
}
