/** What resumes a waiter, over whole runs: deadlines, signals and descriptor events. */
module EventLoopWakes {
  import opened LibcoWheel
  import opened EventLoop
  import opened EventLoopLists
  import opened EventLoopProof
  import opened EventLoopSteps
  import opened EventLoopTiming
  import opened EventLoopTheorems

  // ----- deadlines -----

  lemma NoneDue(l: Loop, x: nat)
    requires Inv(l) && TInv(l) && l.draining && l.active == [] && x in l.waiters && l.waiters[x].hasTimeout
    ensures l.now < l.waiters[x].expire
  {
    assert XOk(l, x) && Placed(l, x) && WaiterOk(l, x, l.waiters[x]) && Timed(l, l.waiters[x]);
  }

  /** Never early and never late: nobody has been resumed by a deadline that lay ahead, for any clock;
      and when an iteration has drained its list, nobody whose deadline has come still waits. Clamped
      deadlines, early takes and re-queueing do not show. */
  lemma DeadlinesMet(l: Loop, run: seq<Event>)
    requires Inv(l) && TInv(l) && LegalRun(l, run) && FitsRun(l, run)
    ensures var l' := Run(l, run);
      && (forall v :: v in l'.wakes && v.waiter.timedOut ==> v.waiter.expire <= v.now)
      && (l'.draining && l'.active == [] ==>
        forall x :: x in l'.waiters && l'.waiters[x].hasTimeout ==> l'.now < l'.waiters[x].expire)
  {
    RunTimed(l, run);
    var l' := Run(l, run);
    if l'.draining && l'.active == [] {
      forall x | x in l'.waiters && l'.waiters[x].hasTimeout ensures l'.now < l'.waiters[x].expire { NoneDue(l', x); }
    }
  }

  /** The waiter of a deadline that the last iteration has reached has been resumed, once. */
  lemma DeadlineWakes(l: Loop, run: seq<Event>, x: nat)
    requires Inv(l) && TInv(l) && LegalRun(l, run) && FitsRun(l, run) && x in l.waiters && l.waiters[x].hasTimeout
    requires Run(l, run).draining && Run(l, run).active == [] && l.waiters[x].expire <= Run(l, run).now
    ensures Woken(l, Run(l, run), x)
  {
    DeadlinesMet(l, run);
    ResumedOnce(l, run, x);
  }

  /** A waiter is put back less than (deadline - start) / (iItemSize - 1) times. */
  lemma RequeuesBounded(l: Loop, run: seq<Event>, x: nat)
    requires Initial(l) && Inv(l) && LegalRun(l, run) && FitsRun(l, run)
    requires x in Run(l, run).waiters && Run(l, run).waiters[x].hasTimeout
    ensures var w := Run(l, run).waiters[x]; w.requeues * (|l.ring.slots| - 1) < w.expire - w.since
  {
    InitialInv(l);
    RunTimed(l, run);
    RunSize(l, run);
    assert Timed(Run(l, run), Run(l, run).waiters[x]);
  }

  /** The count is that of the rounds that put the item back. */
  lemma PutBackCounts(l: Loop)
    requires Inv(l) && Legal(l, OnPop)
    ensures l.active[0] in l.waiters
    ensures var x, l' := l.active[0], Step(l, OnPop);
      && (x in l'.waiters <==> IsEarly(l))
      && (x in l'.waiters ==> l'.waiters[x].requeues == l.waiters[x].requeues + 1 && l'.waiters[x].link.InSlot?)
      && forall y :: y in l.waiters && y != x ==> y in l'.waiters && l'.waiters[y] == l.waiters[y]
  {
    PopStep(l);
    PopIs(l);
    if EarlyHead(l) { PutBackShape(l); }
  }

  lemma {:induction false} RunSize(l: Loop, run: seq<Event>)
    requires Inv(l) && LegalRun(l, run)
    ensures |Run(l, run).ring.slots| == |l.ring.slots|
    decreases |run|
  {
    if run != [] {
      StepInv(l, run[0]);
      StepSize(l, run[0]);
      RunSize(Step(l, run[0]), run[1..]);
    }
  }

  lemma StepSize(l: Loop, e: Event)
    requires Inv(l) && Legal(l, e)
    ensures |Step(l, e).ring.slots| == |l.ring.slots|
  {
    match e
    case OnBegin(events, now) =>
      Started(l);
      PrepareAllInv(l.(draining := true), events);
    case OnPop =>
      assert XOk(l, l.active[0]);
      PopIs(l);
      if EarlyHead(l) { PutBackShape(l); } else { ReturnShape(Popped(l), l.active[0]); }
    case OnSignal(q) => SignalSize(l, q);
    case OnBroadcast(q) => BroadcastSize(l, q);
    case _ =>
  }

  lemma SignalSize(l: Loop, q: nat)
    requires Inv(l)
    ensures |Signal(l, q).ring.slots| == |l.ring.slots| && Signal(l, q).now == l.now
    ensures Signal(l, q).draining == l.draining
  {
    if Queue(l, q) != [] {
      assert XOk(l, Queue(l, q)[0]);
      HeadWaits(l, q);
      SignalShape(l, q);
    }
  }

  lemma {:induction false} BroadcastSize(l: Loop, q: nat)
    requires Inv(l)
    ensures var l' := Broadcast(l, q); |l'.ring.slots| == |l.ring.slots| && l'.now == l.now && l'.draining == l.draining
    decreases |Queue(l, q)|
  {
    if Queue(l, q) != [] {
      SignalSize(l, q);
      SignalInv(l, q);
      UnlinkKeepsQueues(Unqueued(l, q), Queue(l, q)[0]);
      assert Queue(Signal(l, q), q) == Queue(l, q)[1..];
      BroadcastSize(Signal(l, q), q);
    }
  }

  // ----- a waiter that will be resumed in this drain, or the next one -----

  ghost predicate Ready(l: Loop, x: nat) {
    && x in l.waiters && l.waiters[x].link == Active
    && (l.waiters[x].timedOut ==> l.draining && l.waiters[x].expire <= l.now)
  }

  lemma {:induction false} PrepareAllCond(l: Loop, events: seq<IoEvent>, x: nat)
    requires Inv(l) && NoneTimedOut(l) && x in l.waiters && l.waiters[x].kind.Cond?
    ensures x in PrepareAll(l, events).waiters && PrepareAll(l, events).waiters[x] == l.waiters[x]
    ensures PrepareAll(l, events).conds == l.conds
    decreases |events|
  {
    if events != [] {
      var ev := events[0];
      PrepareInv(l, ev);
      PrepareStays(l, ev, x);
      if ev.fd in l.epoll && l.epoll[ev.fd] in l.waiters {
        assert XOk(l, l.epoll[ev.fd]);
        DetachShape(l, l.epoll[ev.fd], ev);
      }
      PrepareAllCond(Prepare(l, ev), events[1..], x);
    }
  }

  lemma BeginCond(l: Loop, events: seq<IoEvent>, now: nat, x: nat)
    requires Inv(l) && Legal(l, OnBegin(events, now)) && x in l.waiters && l.waiters[x].kind.Cond?
    ensures Shaped(PrepareAll(l.(draining := true), events).ring)
    ensures var l' := Begin(l, events, now); var w := l.waiters[x];
      x in l'.waiters && (l'.waiters[x] == w || (w.link.InSlot? && l'.waiters[x] == EventLoop.Taken(w)))
        && l'.conds == l.conds
  {
    Started(l);
    var l0 := l.(draining := true);
    PrepareAllInv(l0, events);
    PrepareAllCond(l0, events, x);
    var l1 := PrepareAll(l0, events);
    assert XOk(l1, x);
    ExpirePlaces(l1, now, x);
  }

  /** Signals touch only the heads they pop. */
  lemma SignalWaiter(l: Loop, q: nat, x: nat)
    requires Inv(l) && x in l.waiters
    ensures x in Signal(l, q).waiters
    ensures Signal(l, q).waiters[x] ==
      if Queue(l, q) != [] && x == Queue(l, q)[0] then l.waiters[x].(link := Active) else l.waiters[x]
  {
    if Queue(l, q) != [] {
      assert XOk(l, Queue(l, q)[0]);
      HeadWaits(l, q);
      SignalShape(l, q);
    }
  }

  lemma {:induction false} BroadcastWaiter(l: Loop, q: nat, x: nat)
    requires Inv(l) && x in l.waiters
    ensures x in Broadcast(l, q).waiters
    ensures Broadcast(l, q).waiters[x] == if x in Queue(l, q) then l.waiters[x].(link := Active) else l.waiters[x]
    decreases |Queue(l, q)|
  {
    if Queue(l, q) != [] {
      SignalWaiter(l, q, x);
      SignalInv(l, q);
      UnlinkKeepsQueues(Unqueued(l, q), Queue(l, q)[0]);
      assert Queue(Signal(l, q), q) == Queue(l, q)[1..];
      BroadcastWaiter(Signal(l, q), q, x);
    }
  }

  lemma NotAtEnd(l: Loop, x: nat)
    requires XOk(l, x) && Ready(l, x)
    ensures x in l.active
  {
    assert Times(l.active, x) == 1;
  }

  lemma StepReady(l: Loop, e: Event, x: nat)
    requires Inv(l) && Legal(l, e) && Ready(l, x)
    ensures x in Step(l, e).waiters ==> Ready(Step(l, e), x)
  {
    assert XOk(l, x) && WaiterOk(l, x, l.waiters[x]);
    NotAtEnd(l, x);
    match e
    case OnBegin(events, now) => BeginCond(l, events, now, x);
    case OnPop => PopStep(l);
    case OnSignal(q) =>
      SignalWaiter(l, q, x);
      SignalSize(l, q);
    case OnBroadcast(q) =>
      BroadcastWaiter(l, q, x);
      BroadcastSize(l, q);
    case _ =>
  }

  lemma {:induction false} RunReady(l: Loop, run: seq<Event>, x: nat)
    requires Inv(l) && LegalRun(l, run) && Ready(l, x)
    ensures x in Run(l, run).waiters ==> Ready(Run(l, run), x)
    decreases |run|
  {
    if run != [] {
      StepInv(l, run[0]);
      StepReady(l, run[0], x);
      if x in Step(l, run[0]).waiters {
        RunReady(Step(l, run[0]), run[1..], x);
      } else {
        StepFate(l, run[0], x);
        StaysWoken(Step(l, run[0]), run[1..], x);
      }
    }
  }

  lemma NoneReady(l: Loop, x: nat)
    requires Inv(l) && l.active == []
    ensures !Ready(l, x)
  {
    assert XOk(l, x) && Times(l.active, x) == 0;
  }

  /** Whoever is ready has been resumed by the time the active list is next found empty. */
  lemma ReadyIsWoken(l: Loop, run: seq<Event>, x: nat)
    requires Inv(l) && LegalRun(l, run) && Ready(l, x) && Run(l, run).active == []
    ensures Woken(l, Run(l, run), x)
  {
    ResumedOnce(l, run, x);
    RunReady(l, run, x);
    NoneReady(Run(l, run), x);
  }

  // ----- signals -----

  /** A condition waiter that only its deadline can resume: it is no longer queued, and it is on the
      wheel or has been taken from it. */
  ghost predicate Orphan(l: Loop, x: nat) {
    && x in l.waiters && l.waiters[x].kind.Cond? && x !in Queue(l, l.waiters[x].kind.q)
    && (l.waiters[x].link.InSlot? || l.waiters[x].timedOut)
  }

  lemma {:induction false} RemoveIdMembers(s: seq<nat>, x: nat)
    ensures forall y :: y in RemoveId(s, x) ==> y in s
  {
    if s != [] { RemoveIdMembers(s[1..], x); }
  }

  lemma {:induction false} BroadcastQueues(l: Loop, q: nat)
    ensures forall p :: Queue(Broadcast(l, q), p) == if p == q then [] else Queue(l, p)
    decreases |Queue(l, q)|
  {
    if Queue(l, q) != [] {
      UnlinkKeepsQueues(Unqueued(l, q), Queue(l, q)[0]);
      assert Queue(Signal(l, q), q) == Queue(l, q)[1..];
      BroadcastQueues(Signal(l, q), q);
    }
  }

  ghost predicate WokenByDeadline(l: Loop, x: nat) {
    && x !in l.waiters && WakeCount(l.wakes, x) == 1
    && exists v :: v in l.wakes && v.id == x && v.waiter.timedOut && v.waiter.expire <= v.now
  }

  lemma StepOrphan(l: Loop, e: Event, x: nat)
    requires Inv(l) && Legal(l, e) && Orphan(l, x)
    ensures Orphan(Step(l, e), x) || WokenByDeadline(Step(l, e), x)
  {
    match e
    case OnBegin(events, now) => BeginCond(l, events, now, x);
    case OnPop => PopOrphan(l, x);
    case OnEnd => EndOrphan(l, x);
    case OnPoll(y, fds, timeout, t) => PollOrphan(l, y, fds, timeout, t, x);
    case OnCond(y, q, ms, t) => CondOrphan(l, y, q, ms, t, x);
    case OnSignal(q) => SignalOrphan(l, q, x);
    case OnBroadcast(q) => BroadcastOrphan(l, q, x);
  }

  lemma EndOrphan(l: Loop, x: nat)
    requires Inv(l) && Legal(l, OnEnd) && Orphan(l, x)
    ensures Orphan(l.(draining := false), x)
  {
    assert Queue(l.(draining := false), l.waiters[x].kind.q) == Queue(l, l.waiters[x].kind.q);
  }

  lemma PollOrphan(l: Loop, y: nat, fds: set<nat>, timeout: int, t: nat, x: nat)
    requires Shaped(l.ring) && y != x && timeout != 0 && Orphan(l, x)
    ensures Orphan(StartPoll(l, y, fds, timeout, t), x)
  {
    assert Queue(StartPoll(l, y, fds, timeout, t), l.waiters[x].kind.q) == Queue(l, l.waiters[x].kind.q);
  }

  lemma CondOrphan(l: Loop, y: nat, q: nat, ms: int, t: nat, x: nat)
    requires Shaped(l.ring) && y != x && Orphan(l, x)
    ensures Orphan(StartCond(l, y, q, ms, t), x)
  {
  }

  lemma NotQueued(l: Loop, q: nat, x: nat)
    requires Inv(l) && Orphan(l, x)
    ensures x !in Queue(l, q)
  {
    assert XOk(l, x) && Times(Queue(l, q), x) == multiset(Queue(l, q))[x];
  }

  lemma SignalOrphan(l: Loop, q: nat, x: nat)
    requires Inv(l) && Orphan(l, x)
    ensures Orphan(Signal(l, q), x)
  {
    NotQueued(l, q, x);
    SignalWaiter(l, q, x);
    if Queue(l, q) != [] { UnlinkKeepsQueues(Unqueued(l, q), Queue(l, q)[0]); }
    assert forall p :: Queue(Signal(l, q), p) == Queue(Unqueued(l, q), p);
  }

  lemma BroadcastOrphan(l: Loop, q: nat, x: nat)
    requires Inv(l) && Orphan(l, x)
    ensures Orphan(Broadcast(l, q), x)
  {
    NotQueued(l, q, x);
    BroadcastWaiter(l, q, x);
    BroadcastQueues(l, q);
  }

  lemma PopOrphan(l: Loop, x: nat)
    requires Inv(l) && Legal(l, OnPop) && Orphan(l, x)
    ensures Orphan(Step(l, OnPop), x) || WokenByDeadline(Step(l, OnPop), x)
  {
    PopStep(l);
    PopInv(l);
    StepFate(l, OnPop, x);
    var l' := Pop(l);
    assert XOk(l, x) && WaiterOk(l, x, l.waiters[x]);
    assert XOk(l, l.active[0]);
    HeadIsActive(l);
    RemoveIdMembers(Queue(l, l.waiters[x].kind.q), l.active[0]);
    if x == l.active[0] && !IsEarly(l) {
      assert l'.wakes[|l.wakes|] in l'.wakes;
    }
  }

  /** Once it is an orphan, a signal can no longer resume it. */
  lemma {:induction false} OrphanWaitsForDeadline(l: Loop, run: seq<Event>, x: nat)
    requires Inv(l) && LegalRun(l, run) && Orphan(l, x)
    ensures Orphan(Run(l, run), x) || WokenByDeadline(Run(l, run), x)
    decreases |run|
  {
    if run != [] {
      StepInv(l, run[0]);
      StepOrphan(l, run[0], x);
      if Orphan(Step(l, run[0]), x) {
        OrphanWaitsForDeadline(Step(l, run[0]), run[1..], x);
      } else {
        StaysWoken(Step(l, run[0]), run[1..], x);
      }
    }
  }

  /** co_cond_signal takes the first waiter of the queue. The waiter will be resumed unless the wheel had
      handed it out ahead of its deadline in the drain that is going on: then the signal is lost on it. */
  lemma SignalReaches(l: Loop, q: nat)
    requires Inv(l) && Queue(l, q) != []
    ensures var x, l' := Queue(l, q)[0], Signal(l, q);
      && (forall p :: Queue(l', p) == if p == q then Queue(l, q)[1..] else Queue(l, p))
      && x in l.waiters
      && (if l.waiters[x].timedOut && l.now < l.waiters[x].expire then Orphan(l', x) else Ready(l', x))
  {
    var x := Queue(l, q)[0];
    assert XOk(l, x);
    HeadWaits(l, q);
    assert WaiterOk(l, x, l.waiters[x]);
    SignalWaiter(l, q, x);
    SignalSize(l, q);
    UnqueuedTimes(l, q, x);
    UnlinkKeepsQueues(Unqueued(l, q), x);
    assert forall p :: Queue(Signal(l, q), p) == Queue(Unqueued(l, q), p);
    assert Times(Queue(Signal(l, q), q), x) == 0;
  }

  /** For a deadline that the wheel did not clamp this never happens. */
  lemma UnclampedIsNeverEarly(l: Loop, x: nat)
    requires Inv(l) && TInv(l) && x in l.waiters && l.waiters[x].slotTime == l.waiters[x].expire
    ensures !(l.waiters[x].timedOut && l.now < l.waiters[x].expire)
  {
    assert XOk(l, x) && WaiterOk(l, x, l.waiters[x]) && Timed(l, l.waiters[x]);
  }

  /** How a signal gets lost: in a drain, the coroutine at the head of the list is resumed and signals a
      queue whose first waiter was taken ahead of its deadline. */
  lemma SignalLost(l: Loop, q: nat)
    requires Inv(l) && Legal(l, OnPop) && Queue(l, q) != [] && l.active[0] != Queue(l, q)[0]
    requires Queue(l, q)[0] in l.waiters && l.waiters[Queue(l, q)[0]].timedOut
    requires l.now < l.waiters[Queue(l, q)[0]].expire
    ensures Inv(Step(l, OnPop)) && Orphan(Step(Step(l, OnPop), OnSignal(q)), Queue(l, q)[0])
  {
    PopInv(l);
    PopStep(l);
    SignalReaches(Pop(l), q);
  }

  // ----- the result of a poll -----

  ghost predicate NoBegin(run: seq<Event>) {
    forall e :: e in run ==> !e.OnBegin?
  }

  ghost predicate Reported(l: Loop, x: nat, raised: nat, revents: map<nat, nat>, now: nat) {
    exists v :: v in l.wakes && v.id == x && v.now == now && WakeOk(v)
                && v.waiter.raised == raised && v.waiter.revents == revents
  }

  lemma StepReports(l: Loop, e: Event, x: nat)
    requires Inv(l) && Legal(l, e) && x in l.waiters && !e.OnBegin?
    ensures var l' := Step(l, e);
      && l'.now == l.now
      && (if x in l'.waiters then SameReport(l'.waiters[x], l.waiters[x])
          else Reported(l', x, l.waiters[x].raised, l.waiters[x].revents, l.now))
  {
    if e.OnPop? {
      PopStep(l);
      PopInv(l);
      var l' := Pop(l);
      if x !in l'.waiters { assert l'.wakes[|l.wakes|] in l'.wakes; }
    } else {
      OtherStepStays(l, e, x);
      match e
      case OnSignal(q) => SignalSize(l, q);
      case OnBroadcast(q) => BroadcastSize(l, q);
      case _ =>
    }
  }

  lemma {:induction false} DrainReports(l: Loop, run: seq<Event>, x: nat)
    requires Inv(l) && LegalRun(l, run) && NoBegin(run) && x in l.waiters
    ensures var l' := Run(l, run);
      if x in l'.waiters then SameReport(l'.waiters[x], l.waiters[x]) && l'.now == l.now
      else Reported(l', x, l.waiters[x].raised, l.waiters[x].revents, l.now)
    decreases |run|
  {
    if run != [] {
      StepInv(l, run[0]);
      StepReports(l, run[0], x);
      var l1 := Step(l, run[0]);
      if x in l1.waiters {
        DrainReports(l1, run[1..], x);
      } else {
        StepFate(l, run[0], x);
        StaysWoken(l1, run[1..], x);
      }
    }
  }

  /** A poll that is resumed in an iteration reports how many events the epoll_wait of that iteration had
      for its descriptors, and to each of them the bits of its event; it reports none exactly when its
      deadline resumed it. */
  lemma PollResult(l: Loop, events: seq<IoEvent>, now: nat, run: seq<Event>, x: nat)
    requires Inv(l) && Legal(l, OnBegin(events, now)) && x in l.waiters && l.waiters[x].kind.Poll?
    requires Inv(Step(l, OnBegin(events, now))) && LegalRun(Step(l, OnBegin(events, now)), run) && NoBegin(run)
    requires x !in Run(Step(l, OnBegin(events, now)), run).waiters
    ensures Reported(Run(Step(l, OnBegin(events, now)), run), x,
                     Hits(l.epoll, events, x), Told(l.epoll, events, x), now)
  {
    BeginTells(l, events, now, x);
    DrainReports(Step(l, OnBegin(events, now)), run, x);
    BeginNow(l, events, now);
  }

  lemma BeginNow(l: Loop, events: seq<IoEvent>, now: nat)
    requires Inv(l) && Legal(l, OnBegin(events, now))
    ensures Step(l, OnBegin(events, now)).now == now
  {
    BeginInv(l, events, now);
  }
}
