/** The coroutine mutex: a counter and a condition queue on top of the event loop. Ownership is handed
    over through the loop's active list, so that new lock calls can arrive between the hand-over and the
    moment the next owner runs. */
module CoMutex {
  import opened LibcoWheel
  import opened EventLoop
  import opened EventLoopLists
  import opened EventLoopProof
  import opened EventLoopSteps
  import opened EventLoopTiming
  import opened EventLoopTheorems
  import opened EventLoopWakes

  /** The mutex of condition queue q. Every CoLock call has a name of its own. `calls` lists the calls in
      order, `released` those whose owner has called CoUnLock; `holders` are the calls that have returned
      and not been released, `signalled` those handed the mutex by CoUnLock but not yet resumed. */
  datatype Mutex = Mutex(
    l: Loop,
    q: nat,
    waitItemCnt: int,
    calls: seq<nat>,
    released: seq<nat>,
    holders: seq<nat>,
    signalled: seq<nat>)

  function Lock(m: Mutex, x: nat, t: nat): Mutex
    requires Shaped(m.l.ring)
  {
    var m1 := m.(waitItemCnt := m.waitItemCnt + 1, calls := m.calls + [x]);
    if m.waitItemCnt > 0 then m1.(l := StartCond(m.l, x, m.q, -1, t)) else m1.(holders := m.holders + [x])
  }

  function Unlock(m: Mutex): Mutex
    requires m.holders != []
  {
    var woken := if Queue(m.l, m.q) == [] then [] else [Queue(m.l, m.q)[0]];
    m.(waitItemCnt := m.waitItemCnt - 1, released := m.released + [m.holders[0]], holders := m.holders[1..],
       signalled := m.signalled + woken, l := Signal(m.l, m.q))
  }

  /** A waiter of this mutex that is resumed returns from CoLock as an owner. */
  ghost function LoopStep(m: Mutex, e: Event): Mutex
    requires Inv(m.l) && Legal(m.l, e)
  {
    var l' := Step(m.l, e);
    if e.OnPop? && m.l.active[0] in m.l.waiters
        && m.l.waiters[m.l.active[0]].kind == Cond(m.q) && m.l.active[0] !in l'.waiters
    then m.(l := l', holders := m.holders + [m.l.active[0]], signalled := RemoveId(m.signalled, m.l.active[0]))
    else m.(l := l')
  }

  datatype Action = DoLock(x: nat, t: nat) | DoUnlock | Other(e: Event)

  /** The queue belongs to the mutex alone. */
  ghost predicate Foreign(e: Event, q: nat) {
    match e
    case OnCond(x, p, ms, t) => p != q
    case OnSignal(p) => p != q
    case OnBroadcast(p) => p != q
    case _ => true
  }

  ghost predicate Allowed(m: Mutex, a: Action)
    requires Inv(m.l)
  {
    match a
    case DoLock(x, t) => NewId(m.l, x) && x !in m.calls
    case DoUnlock => m.holders != []
    case Other(e) => Legal(m.l, e) && Foreign(e, m.q)
  }

  ghost function Act(m: Mutex, a: Action): Mutex
    requires Inv(m.l) && Allowed(m, a)
  {
    match a
    case DoLock(x, t) => Lock(m, x, t)
    case DoUnlock => Unlock(m)
    case Other(e) => LoopStep(m, e)
  }

  // ----- the invariant -----

  /** Waiters of the mutex have no deadline; each is queued or has been handed the mutex. */
  ghost predicate Waits(m: Mutex, x: nat) {
    x in m.l.waiters && m.l.waiters[x].kind == Cond(m.q) ==>
      !m.l.waiters[x].hasTimeout && (x in Queue(m.l, m.q) || x in m.signalled)
  }

  ghost predicate HandedOver(m: Mutex, x: nat) {
    x in m.l.waiters && m.l.waiters[x].kind == Cond(m.q) && m.l.waiters[x].link == Active && !m.l.waiters[x].hasTimeout
  }

  ghost predicate MInv(m: Mutex) {
    && Inv(m.l)
    && m.calls == m.released + m.holders + m.signalled + Queue(m.l, m.q)
    && m.waitItemCnt == |m.holders| + |m.signalled| + |Queue(m.l, m.q)|
    && |m.holders| + |m.signalled| == (if m.waitItemCnt > 0 then 1 else 0)
    && (forall x :: x in m.signalled ==> HandedOver(m, x))
    && (forall x: nat :: Waits(m, x))
  }

  lemma HandedOverIsOut(m: Mutex, x: nat)
    requires Inv(m.l) && HandedOver(m, x)
    ensures x !in Queue(m.l, m.q) && Ready(m.l, x)
  {
    assert XOk(m.l, x) && WaiterOk(m.l, x, m.l.waiters[x]);
    assert Times(Queue(m.l, m.q), x) <= 1;
  }

  lemma LockKeeps(m: Mutex, x: nat, t: nat)
    requires MInv(m) && Allowed(m, DoLock(x, t))
    ensures MInv(Lock(m, x, t))
  {
    var m' := Lock(m, x, t);
    if m.waitItemCnt > 0 {
      CondInv(m.l, x, m.q, -1, t);
      assert Queue(m'.l, m.q) == Queue(m.l, m.q) + [x];
      assert m'.calls == m'.released + m'.holders + m'.signalled + Queue(m'.l, m.q);
      forall y: nat ensures Waits(m', y) { assert Waits(m, y); }
      forall y | y in m'.signalled ensures HandedOver(m', y) { assert HandedOver(m, y); }
    } else {
      assert Queue(m.l, m.q) == [] && m.holders == [] && m.signalled == [];
      forall y: nat ensures Waits(m', y) { assert Waits(m, y); }
    }
  }

  lemma UnlockKeeps(m: Mutex)
    requires MInv(m) && m.holders != []
    ensures MInv(Unlock(m))
  {
    var m' := Unlock(m);
    SignalInv(m.l, m.q);
    if Queue(m.l, m.q) != [] {
      var x := Queue(m.l, m.q)[0];
      SignalReaches(m.l, m.q);
      assert XOk(m.l, x);
      HeadWaits(m.l, m.q);
      SignalShape(m.l, m.q);
      assert Waits(m, x);
    }
    forall y: nat ensures Waits(m', y) { assert Waits(m, y); }
  }

  // ----- steps of the rest of the program -----

  ghost predicate SameWaiters(l: Loop, l': Loop, q: nat) {
    && Queue(l', q) == Queue(l, q)
    && forall x: nat ::
      (x in l'.waiters && l'.waiters[x].kind == Cond(q) ==> x in l.waiters && l.waiters[x].kind == Cond(q))
      && (x in l.waiters && l.waiters[x].kind == Cond(q) && !l.waiters[x].hasTimeout ==>
          x in l'.waiters && l'.waiters[x] == l.waiters[x])
  }

  lemma SameWaitersKeep(m: Mutex, l': Loop)
    requires MInv(m) && Inv(l') && SameWaiters(m.l, l', m.q)
    ensures MInv(m.(l := l'))
  {
    var m' := m.(l := l');
    forall y: nat ensures Waits(m', y) { assert Waits(m, y); }
    forall y | y in m'.signalled ensures HandedOver(m', y) { assert HandedOver(m, y); }
  }

  lemma {:induction false} PrepareAllKeys(l: Loop, events: seq<IoEvent>)
    requires Inv(l) && NoneTimedOut(l)
    ensures PrepareAll(l, events).waiters.Keys == l.waiters.Keys
    ensures PrepareAll(l, events).conds == l.conds
    decreases |events|
  {
    if events != [] {
      PrepareInv(l, events[0]);
      if events[0].fd in l.epoll && l.epoll[events[0].fd] in l.waiters {
        assert XOk(l, l.epoll[events[0].fd]);
        DetachShape(l, l.epoll[events[0].fd], events[0]);
      }
      PrepareAllKeys(Prepare(l, events[0]), events[1..]);
    }
  }

  lemma BeginSame(l: Loop, events: seq<IoEvent>, now: nat, q: nat)
    requires Inv(l) && Legal(l, OnBegin(events, now))
    ensures SameWaiters(l, Step(l, OnBegin(events, now)), q)
  {
    var l' := Step(l, OnBegin(events, now));
    Started(l);
    PrepareAllKeys(l.(draining := true), events);
    PrepareAllInv(l.(draining := true), events);
    forall x | x in l.waiters ensures x in l'.waiters && SameWait(l.waiters[x], l'.waiters[x])
      && (l.waiters[x].kind == Cond(q) && !l.waiters[x].hasTimeout ==> l'.waiters[x] == l.waiters[x])
    {
      BeginStays(l, events, now, x);
      if l.waiters[x].kind == Cond(q) {
        BeginCond(l, events, now, x);
        assert XOk(l, x) && WaiterOk(l, x, l.waiters[x]);
      }
    }
  }

  lemma SignalSame(l: Loop, p: nat, q: nat)
    requires Inv(l) && p != q
    ensures SameWaiters(l, Signal(l, p), q)
  {
    if Queue(l, p) != [] {
      assert XOk(l, Queue(l, p)[0]);
      HeadWaits(l, p);
      SignalShape(l, p);
    }
  }

  lemma {:induction false} BroadcastSame(l: Loop, p: nat, q: nat)
    requires Inv(l) && p != q
    ensures SameWaiters(l, Broadcast(l, p), q)
    decreases |Queue(l, p)|
  {
    if Queue(l, p) != [] {
      SignalSame(l, p, q);
      SignalInv(l, p);
      UnlinkKeepsQueues(Unqueued(l, p), Queue(l, p)[0]);
      assert Queue(Signal(l, p), p) == Queue(l, p)[1..];
      BroadcastSame(Signal(l, p), p, q);
    }
  }

  lemma WaitSame(l: Loop, x: nat, w: Waiter, l': Loop, q: nat)
    requires x !in l.waiters && w.kind != Cond(q) && Queue(l', q) == Queue(l, q)
    requires l'.waiters == l.waiters || l'.waiters == l.waiters[x := w]
    ensures SameWaiters(l, l', q)
  {
  }

  lemma PollSame(l: Loop, x: nat, fds: set<nat>, timeout: int, t: nat, q: nat)
    requires Shaped(l.ring) && x !in l.waiters && timeout != 0
    ensures SameWaiters(l, StartPoll(l, x, fds, timeout, t), q)
  {
    var l' := StartPoll(l, x, fds, timeout, t);
    WaitSame(l, x, if x in l'.waiters then l'.waiters[x] else Fresh(Poll(fds), true, 0, 0), l', q);
  }

  lemma CondSame(l: Loop, x: nat, p: nat, ms: int, t: nat, q: nat)
    requires Shaped(l.ring) && x !in l.waiters && p != q
    ensures SameWaiters(l, StartCond(l, x, p, ms, t), q)
  {
    var l' := StartCond(l, x, p, ms, t);
    WaitSame(l, x, if x in l'.waiters then l'.waiters[x] else Fresh(Cond(p), true, 0, 0), l', q);
  }

  lemma OtherSame(l: Loop, e: Event, q: nat)
    requires Inv(l) && Legal(l, e) && Foreign(e, q) && !e.OnPop?
    ensures SameWaiters(l, Step(l, e), q)
  {
    match e
    case OnBegin(events, now) => BeginSame(l, events, now, q);
    case OnSignal(p) => SignalSame(l, p, q);
    case OnBroadcast(p) => BroadcastSame(l, p, q);
    case OnPoll(x, fds, timeout, t) => PollSame(l, x, fds, timeout, t, q);
    case OnCond(x, p, ms, t) => CondSame(l, x, p, ms, t, q);
    case OnEnd => assert Queue(l.(draining := false), q) == Queue(l, q);
  }

  lemma {:induction false} RemoveIdAbsent(s: seq<nat>, x: nat)
    requires x !in s
    ensures RemoveId(s, x) == s
  {
    if s != [] { RemoveIdAbsent(s[1..], x); }
  }

  /** Resuming a waiter of the mutex makes the one that was signalled an owner; resuming any other waiter
      leaves the mutex alone. */
  lemma PopKeeps(m: Mutex)
    requires MInv(m) && Legal(m.l, OnPop)
    ensures MInv(LoopStep(m, OnPop))
  {
    var m', x := LoopStep(m, OnPop), m.l.active[0];
    PopInv(m.l);
    PopStep(m.l);
    assert XOk(m.l, x) && Waits(m, x);
    HeadIsActive(m.l);
    assert WaiterOk(m.l, x, m.l.waiters[x]);
    if m.l.waiters[x].kind == Cond(m.q) && !IsEarly(m.l) {
      PopOwner(m);
    } else if m.l.waiters[x].kind == Cond(m.q) {
      assert false;
    } else {
      PopOther(m);
    }
  }

  /** A waiter of the mutex at the head of the active list is the one that was handed it. */
  lemma HeadIsNext(m: Mutex)
    requires MInv(m) && m.l.active != [] && m.l.active[0] in m.l.waiters
    requires m.l.waiters[m.l.active[0]].kind == Cond(m.q)
    ensures m.signalled == [m.l.active[0]] && m.holders == [] && m.l.active[0] !in Queue(m.l, m.q)
  {
    var x := m.l.active[0];
    assert XOk(m.l, x) && Waits(m, x);
    HeadIsActive(m.l);
    assert WaiterOk(m.l, x, m.l.waiters[x]);
    HandedOverIsOut(m, x);
  }

  lemma PopOwner(m: Mutex)
    requires MInv(m) && Legal(m.l, OnPop) && m.l.active[0] in m.l.waiters
    requires m.l.waiters[m.l.active[0]].kind == Cond(m.q)
    requires !IsEarly(m.l) && Inv(Pop(m.l)) && ReturnIs(m.l, Pop(m.l))
    ensures MInv(LoopStep(m, OnPop))
  {
    var m' := LoopStep(m, OnPop);
    HeadIsNext(m);
    RemoveIdAbsent(Queue(m.l, m.q), m.l.active[0]);
    forall y: nat ensures Waits(m', y) { assert Waits(m, y); }
  }

  lemma PopOther(m: Mutex)
    requires MInv(m) && Legal(m.l, OnPop) && m.l.active[0] in m.l.waiters
    requires m.l.waiters[m.l.active[0]].kind != Cond(m.q)
    requires Inv(Pop(m.l)) && (if IsEarly(m.l) then PutBackIs(m.l, Pop(m.l)) else ReturnIs(m.l, Pop(m.l)))
    ensures MInv(LoopStep(m, OnPop))
  {
    assert Queue(Pop(m.l), m.q) == Queue(m.l, m.q);
    SameWaitersKeep(m, Pop(m.l));
  }

  lemma ActKeeps(m: Mutex, a: Action)
    requires MInv(m) && Allowed(m, a)
    ensures MInv(Act(m, a))
  {
    match a
    case DoLock(x, t) => LockKeeps(m, x, t);
    case DoUnlock => UnlockKeeps(m);
    case Other(e) =>
      if e.OnPop? {
        PopKeeps(m);
      } else {
        OtherSame(m.l, e, m.q);
        StepInv(m.l, e);
        SameWaitersKeep(m, Step(m.l, e));
      }
  }

  // ----- runs -----

  ghost predicate AllowedRun(m: Mutex, run: seq<Action>)
    requires MInv(m)
    decreases |run|
  {
    run == [] || (Allowed(m, run[0]) && (ActKeeps(m, run[0]); AllowedRun(Act(m, run[0]), run[1..])))
  }

  ghost function RunAll(m: Mutex, run: seq<Action>): Mutex
    requires MInv(m) && AllowedRun(m, run)
    decreases |run|
  {
    if run == [] then m else ActKeeps(m, run[0]); RunAll(Act(m, run[0]), run[1..])
  }

  lemma {:induction false} RunKeeps(m: Mutex, run: seq<Action>)
    requires MInv(m) && AllowedRun(m, run)
    ensures MInv(RunAll(m, run))
    decreases |run|
  {
    if run != [] {
      ActKeeps(m, run[0]);
      RunKeeps(Act(m, run[0]), run[1..]);
    }
  }

  ghost predicate New(m: Mutex) {
    Initial(m.l) && m.waitItemCnt == 0 && m.calls == [] && m.released == [] && m.holders == [] && m.signalled == []
  }

  lemma NewKeeps(m: Mutex)
    requires New(m)
    ensures MInv(m)
  {
    InitialInv(m.l);
  }

  lemma ServedInOrder(m: Mutex)
    requires MInv(m)
    ensures m.released + m.holders <= m.calls
  {
    assert m.calls == (m.released + m.holders) + (m.signalled + Queue(m.l, m.q));
  }

  /** In every run there is at most one owner, also while a hand-over is under way; the counter counts
      the owner, the hand-over and the queue; and the calls are served strictly in the order they were
      made: those that have returned are a prefix of all calls, and the owner is the last of them. */
  lemma MutualExclusion(m: Mutex, run: seq<Action>)
    requires New(m) && MInv(m) && AllowedRun(m, run)
    ensures var m' := RunAll(m, run);
      && |m'.holders| + |m'.signalled| <= 1
      && m'.waitItemCnt == |m'.holders| + |m'.signalled| + |Queue(m'.l, m'.q)|
      && m'.released + m'.holders <= m'.calls
      && m'.calls == m'.released + m'.holders + m'.signalled + Queue(m'.l, m'.q)
  {
    RunKeeps(m, run);
    ServedInOrder(RunAll(m, run));
  }

  /** No lost wake-up: if anybody waits there is an owner, or the next owner is in the active list and
      will have been resumed when that list is next empty. */
  lemma WaitersAreServed(m: Mutex, run: seq<Action>, rest: seq<Event>)
    requires New(m) && MInv(m) && AllowedRun(m, run) && Queue(RunAll(m, run).l, RunAll(m, run).q) != []
    requires RunAll(m, run).holders == [] && Inv(RunAll(m, run).l) && LegalRun(RunAll(m, run).l, rest)
    requires Run(RunAll(m, run).l, rest).active == []
    ensures var m' := RunAll(m, run); |m'.signalled| == 1 && Woken(m'.l, Run(m'.l, rest), m'.signalled[0])
  {
    RunKeeps(m, run);
    var m' := RunAll(m, run);
    assert m'.signalled[0] in m'.signalled && HandedOver(m', m'.signalled[0]);
    HandedOverIsOut(m', m'.signalled[0]);
    ReadyIsWoken(m'.l, rest, m'.signalled[0]);
  }
}
