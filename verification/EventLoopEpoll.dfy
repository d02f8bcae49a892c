/** When every descriptor is polled by one coroutine at a time, each waiting poll keeps all its
    descriptors registered; when two coroutines share one, the first to return takes the registration
    away from the other. */
module EventLoopEpoll {
  import opened LibcoWheel
  import opened EventLoop
  import opened EventLoopLists
  import opened EventLoopProof
  import opened EventLoopSteps
  import opened EventLoopTiming
  import opened EventLoopTheorems

  ghost predicate Polls(l: Loop, x: nat, fd: nat) {
    x in l.waiters && l.waiters[x].kind.Poll? && fd in l.waiters[x].kind.fds
  }

  ghost predicate AllRegistered(l: Loop) {
    forall x: nat, fd: nat :: Polls(l, x, fd) ==> fd in l.epoll && l.epoll[fd] == x
  }

  ghost predicate Exclusive(l: Loop, e: Event) {
    e.OnPoll? ==> forall x: nat, fd: nat :: fd in e.fds ==> !Polls(l, x, fd)
  }

  ghost predicate ExclusiveRun(l: Loop, run: seq<Event>)
    requires Inv(l) && LegalRun(l, run)
    decreases |run|
  {
    run == [] || (Exclusive(l, run[0]) && (StepInv(l, run[0]); ExclusiveRun(Step(l, run[0]), run[1..])))
  }

  ghost predicate SamePolls(l: Loop, l': Loop) {
    l'.epoll == l.epoll && forall x: nat, fd: nat :: Polls(l', x, fd) <==> Polls(l, x, fd)
  }

  lemma {:induction false} PrepareAllPolls(l: Loop, events: seq<IoEvent>)
    requires Inv(l) && NoneTimedOut(l)
    ensures SamePolls(l, PrepareAll(l, events))
    decreases |events|
  {
    if events != [] {
      PrepareInv(l, events[0]);
      if events[0].fd in l.epoll && l.epoll[events[0].fd] in l.waiters {
        assert XOk(l, l.epoll[events[0].fd]);
        DetachShape(l, l.epoll[events[0].fd], events[0]);
      }
      PrepareAllPolls(Prepare(l, events[0]), events[1..]);
    }
  }

  lemma SignalPolls(l: Loop, q: nat)
    requires Inv(l)
    ensures SamePolls(l, Signal(l, q))
  {
    if Queue(l, q) != [] {
      assert XOk(l, Queue(l, q)[0]);
      HeadWaits(l, q);
      SignalShape(l, q);
    }
  }

  lemma {:induction false} BroadcastPolls(l: Loop, q: nat)
    requires Inv(l)
    ensures SamePolls(l, Broadcast(l, q))
    decreases |Queue(l, q)|
  {
    if Queue(l, q) != [] {
      SignalPolls(l, q);
      SignalInv(l, q);
      UnlinkKeepsQueues(Unqueued(l, q), Queue(l, q)[0]);
      assert Queue(Signal(l, q), q) == Queue(l, q)[1..];
      BroadcastPolls(Signal(l, q), q);
    }
  }

  lemma PollRegisters(l: Loop, x: nat, fds: set<nat>, timeout: int, t: nat)
    requires Inv(l) && AllRegistered(l) && NewId(l, x) && timeout != 0 && Exclusive(l, OnPoll(x, fds, timeout, t))
    ensures AllRegistered(StartPoll(l, x, fds, timeout, t))
  {
    forall fd | fd in fds ensures fd !in l.epoll {
      if fd in l.epoll {
        assert XOk(l, l.epoll[fd]) && Polls(l, l.epoll[fd], fd);
      }
    }
    var l' := StartPoll(l, x, fds, timeout, t);
    forall y: nat, fd: nat | Polls(l', y, fd) ensures fd in l'.epoll && l'.epoll[fd] == y {
      if y != x { assert Polls(l, y, fd); }
    }
  }

  lemma SharedUnregisters(l: Loop, x: nat, fds: set<nat>, timeout: int, t: nat, y: nat, fd: nat)
    requires Inv(l) && AllRegistered(l) && NewId(l, x) && timeout != 0 && fd in fds && Polls(l, y, fd)
    ensures !AllRegistered(StartPoll(l, x, fds, timeout, t))
  {
    var l' := StartPoll(l, x, fds, timeout, t);
    assert Polls(l', y, fd);
    if x in l'.waiters { assert Polls(l', x, fd); }
  }

  /** The exact step: a poll, accepted or refused by the wheel, leaves every waiting poll registered if
      and only if it shares no descriptor with one that is waiting. */
  lemma PollRegistersIff(l: Loop, x: nat, fds: set<nat>, timeout: int, t: nat)
    requires Inv(l) && AllRegistered(l) && NewId(l, x) && timeout != 0
    ensures AllRegistered(StartPoll(l, x, fds, timeout, t)) <==> Exclusive(l, OnPoll(x, fds, timeout, t))
  {
    if Exclusive(l, OnPoll(x, fds, timeout, t)) {
      PollRegisters(l, x, fds, timeout, t);
    } else {
      var y: nat, fd: nat :| fd in fds && Polls(l, y, fd);
      SharedUnregisters(l, x, fds, timeout, t, y, fd);
    }
  }

  /** x waits for fd, but no event for fd can reach it. */
  ghost predicate Deaf(l: Loop, x: nat, fd: nat) {
    Polls(l, x, fd)
      && forall events: seq<IoEvent> :: (forall ev :: ev in events ==> ev.fd == fd) ==> Hits(l.epoll, events, x) == 0
  }

  lemma {:induction false} NoHits(epoll: map<nat, nat>, fd: nat, x: nat, events: seq<IoEvent>)
    requires fd in epoll ==> epoll[fd] != x
    requires forall ev :: ev in events ==> ev.fd == fd
    ensures Hits(epoll, events, x) == 0
  {
    if events != [] {
      NoHits(epoll, fd, x, events[1..]);
    }
  }

  lemma Unheard(l: Loop, x: nat, fd: nat)
    requires Polls(l, x, fd) && (fd in l.epoll ==> l.epoll[fd] != x)
    ensures Deaf(l, x, fd)
  {
    forall events: seq<IoEvent> | forall ev :: ev in events ==> ev.fd == fd ensures Hits(l.epoll, events, x) == 0 {
      NoHits(l.epoll, fd, x, events);
    }
  }

  lemma PollShape(l: Loop, x: nat, fd: nat, timeout: int, t: nat)
    requires RingOk(l.ring) && timeout != 0 && t >= l.ring.start && x !in l.waiters
    ensures var l' := StartPoll(l, x, {fd}, timeout, t);
      && l'.epoll == Register(l.epoll, {fd}, x) && l'.wakes == l.wakes && l'.ring.start == l.ring.start
      && Polls(l', x, fd) && l'.waiters.Keys == l.waiters.Keys + {x}
  {
  }

  /** Two coroutines that poll the same descriptor from the start: the second one hears nothing. */
  lemma SecondIsDeaf(l: Loop, y: nat, x: nat, fd: nat, timeout: int, t: nat)
    requires Initial(l) && Inv(l) && y != x && timeout != 0 && t >= l.ring.start
    ensures var run := [OnPoll(y, {fd}, timeout, t), OnPoll(x, {fd}, timeout, t)];
      LegalRun(l, run) && Deaf(Run(l, run), x, fd)
  {
    var first, second := OnPoll(y, {fd}, timeout, t), OnPoll(x, {fd}, timeout, t);
    PollInv(l, y, {fd}, timeout, t);
    PollShape(l, y, fd, timeout, t);
    TwoPolls(Step(l, first), y, x, fd, timeout, t);
    assert [first, second][1..] == [second];
  }

  lemma TwoPolls(l: Loop, y: nat, x: nat, fd: nat, timeout: int, t: nat)
    requires Inv(l) && l.waiters.Keys == {y} && l.wakes == [] && fd in l.epoll && l.epoll[fd] == y
    requires y != x && timeout != 0 && t >= l.ring.start
    ensures var run := [OnPoll(x, {fd}, timeout, t)]; LegalRun(l, run) && Deaf(Run(l, run), x, fd)
  {
    PollInv(l, x, {fd}, timeout, t);
    PollShape(l, x, fd, timeout, t);
    Unheard(StartPoll(l, x, {fd}, timeout, t), x, fd);
    RunOnly(l, OnPoll(x, {fd}, timeout, t));
  }

  lemma RunOnly(l: Loop, e: Event)
    requires Inv(l) && Legal(l, e) && Inv(Step(l, e))
    ensures LegalRun(l, [e]) && Run(l, [e]) == Step(l, e)
  {
    assert [e][1..] == [];
  }

  /** And when one of two polls that share a descriptor returns, it takes the registration with it. */
  lemma ReturnDeafens(l: Loop, y: nat, fd: nat)
    requires Inv(l) && Legal(l, OnPop) && Polls(l, y, fd) && Polls(l, l.active[0], fd) && y != l.active[0]
    requires !IsEarly(l)
    ensures Deaf(Step(l, OnPop), y, fd)
  {
    PopStep(l);
    Unheard(Pop(l), y, fd);
  }

  lemma PopRegisters(l: Loop)
    requires Inv(l) && AllRegistered(l) && Legal(l, OnPop)
    ensures AllRegistered(Step(l, OnPop))
  {
    PopStep(l);
    var l', x := Pop(l), l.active[0];
    forall y: nat, fd: nat | Polls(l', y, fd) ensures fd in l'.epoll && l'.epoll[fd] == y {
      assert Polls(l, y, fd);
      if y != x && Polls(l, x, fd) { assert false; }
    }
  }

  lemma StepRegisters(l: Loop, e: Event)
    requires Inv(l) && AllRegistered(l) && Legal(l, e) && Exclusive(l, e)
    ensures AllRegistered(Step(l, e))
  {
    match e
    case OnBegin(events, now) =>
      Started(l);
      var l0 := l.(draining := true);
      PrepareAllInv(l0, events);
      PrepareAllPolls(l0, events);
      BeginRegisters(l, l0, PrepareAll(l0, events), now);
    case OnPop => PopRegisters(l);
    case OnPoll(x, fds, timeout, t) => PollRegisters(l, x, fds, timeout, t);
    case OnCond(x, q, ms, t) => assert forall y: nat, fd: nat :: Polls(Step(l, e), y, fd) ==> Polls(l, y, fd);
    case OnSignal(q) => SignalPolls(l, q);
    case OnBroadcast(q) => BroadcastPolls(l, q);
    case OnEnd => assert SamePolls(l, Step(l, e));
  }

  lemma BeginRegisters(l: Loop, l0: Loop, l1: Loop, now: nat)
    requires AllRegistered(l) && l0 == l.(draining := true) && SamePolls(l0, l1) && Shaped(l1.ring)
    ensures AllRegistered(Expire(l1, now))
  {
    var l' := Expire(l1, now);
    forall y: nat, fd: nat | Polls(l', y, fd) ensures fd in l'.epoll && l'.epoll[fd] == y {
      assert Polls(l1, y, fd) && Polls(l0, y, fd) && Polls(l, y, fd);
    }
  }

  lemma {:induction false} RunRegisters(l: Loop, run: seq<Event>)
    requires Inv(l) && AllRegistered(l) && LegalRun(l, run) && ExclusiveRun(l, run)
    ensures AllRegistered(Run(l, run))
    decreases |run|
  {
    if run != [] {
      StepInv(l, run[0]);
      StepRegisters(l, run[0]);
      RunRegisters(Step(l, run[0]), run[1..]);
    }
  }

  /** Whoever is not waiting is in no list, in no condition queue and behind no epoll registration,
      shared descriptors or not. */
  lemma NothingLeft(l: Loop, run: seq<Event>, x: nat)
    requires Inv(l) && LegalRun(l, run) && x !in Run(l, run).waiters
    ensures var l' := Run(l, run);
      && x !in l'.active && (forall q :: x !in Queue(l', q)) && x !in l'.epoll.Values
      && (forall j: nat :: j < |l'.ring.slots| ==> x !in Ids(l'.ring.slots[j]))
  {
    var l' := Run(l, run);
    assert XOk(l', x);
    assert Times(l'.active, x) == 0;
    forall q ensures x !in Queue(l', q) { assert Times(Queue(l', q), x) == 0; }
    forall j: nat | j < |l'.ring.slots| ensures x !in Ids(l'.ring.slots[j]) {
      assert Times(Ids(l'.ring.slots[j]), x) == 0;
    }
  }

  /** In every state a waiter is in the one list that its link names and nowhere else. */
  lemma InOneList(l: Loop, run: seq<Event>, x: nat)
    requires Inv(l) && LegalRun(l, run) && x in Run(l, run).waiters
    ensures var l' := Run(l, run); var link := l'.waiters[x].link;
      && multiset(l'.active)[x] == (if link == Active then 1 else 0)
      && (forall j: nat :: j < |l'.ring.slots| ==>
          multiset(Ids(l'.ring.slots[j]))[x] == if link == InSlot(j) then 1 else 0)
      && (forall q :: multiset(Queue(l', q))[x] <= if l'.waiters[x].kind == Cond(q) then 1 else 0)
      && (link == Nowhere ==> l'.waiters[x].kind.Cond? && x in Queue(l', l'.waiters[x].kind.q))
  {
    var l' := Run(l, run);
    assert XOk(l', x) && Placed(l', x) && WaiterOk(l', x, l'.waiters[x]);
    assert forall j: nat :: j < |l'.ring.slots| ==>
      Times(Ids(l'.ring.slots[j]), x) == multiset(Ids(l'.ring.slots[j]))[x];
    assert forall q :: Times(Queue(l', q), x) == multiset(Queue(l', q))[x];
  }
}
