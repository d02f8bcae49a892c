/** Deadlines in terms of what the caller passed: a poll or a condition wait that starts at time t with
    timeout ms is resumed by its deadline at t + ms, not before, and with the first iteration from then on. */
module EventLoopDeadlines {
  import opened LibcoWheel
  import opened EventLoop
  import opened EventLoopProof
  import opened EventLoopSteps
  import opened EventLoopTiming
  import opened EventLoopTheorems
  import opened EventLoopWakes

  /** A poll with a negative timeout waits for INT_MAX milliseconds. */
  lemma PollWaitsUntil(l: Loop, x: nat, fds: set<nat>, timeout: int, t: nat)
    requires Inv(l) && Legal(l, OnPoll(x, fds, timeout, t)) && l.ring.start <= t
    ensures var l' := Step(l, OnPoll(x, fds, timeout, t));
      && x in l'.waiters && l'.waiters[x].kind == Poll(fds) && l'.waiters[x].hasTimeout
      && l'.waiters[x].expire == if timeout < 0 then t + 0x7fff_ffff else t + timeout
  {
  }

  /** A condition wait without a positive timeout has no deadline. */
  lemma CondWaitsUntil(l: Loop, x: nat, q: nat, ms: int, t: nat)
    requires Inv(l) && Legal(l, OnCond(x, q, ms, t)) && l.ring.start <= t
    ensures var l' := Step(l, OnCond(x, q, ms, t));
      && x in l'.waiters && l'.waiters[x].kind == Cond(q) && Queue(l', q) == Queue(l, q) + [x]
      && if ms > 0 then l'.waiters[x].hasTimeout && l'.waiters[x].expire == t + ms else !l'.waiters[x].hasTimeout
  {
  }

  lemma {:induction false} OneWake(wakes: seq<Wake>, x: nat, v: Wake, u: Wake)
    requires WakeCount(wakes, x) <= 1 && v in wakes && u in wakes && v.id == x == u.id
    ensures v == u
  {
    if wakes[0].id == x {
      NoWake(wakes[1..], x);
    } else {
      OneWake(wakes[1..], x, v, u);
    }
  }

  lemma {:induction false} NoWake(wakes: seq<Wake>, x: nat)
    requires WakeCount(wakes, x) == 0
    ensures forall v :: v in wakes ==> v.id != x
  {
    if wakes != [] {
      NoWake(wakes[1..], x);
    }
  }

  /** x has not been resumed by its deadline before `due`; and if an iteration that began at or after `due`
      has drained its list, x has been resumed, once. */
  ghost predicate OnTime(l: Loop, x: nat, due: nat) {
    && (forall v :: v in l.wakes && v.id == x && v.waiter.timedOut ==> v.waiter.expire == due <= v.now)
    && (l.draining && l.active == [] && due <= l.now ==> x !in l.waiters && WakeCount(l.wakes, x) == 1)
  }

  lemma WaiterOnTime(l: Loop, run: seq<Event>, x: nat, due: nat)
    requires Inv(l) && TInv(l) && LegalRun(l, run) && FitsRun(l, run)
    requires x in l.waiters && l.waiters[x].hasTimeout && l.waiters[x].expire == due
    ensures OnTime(Run(l, run), x, due)
  {
    var l' := Run(l, run);
    ResumedOnce(l, run, x);
    DeadlinesMet(l, run);
    forall v | v in l'.wakes && v.id == x && v.waiter.timedOut ensures v.waiter.expire == due <= v.now {
      if x in l'.waiters {
        NoWake(l'.wakes, x);
      } else {
        var u :| u in l'.wakes && u.id == x && SameWait(l.waiters[x], u.waiter);
        OneWake(l'.wakes, x, v, u);
      }
    }
  }

  /** A poll, over any run. */
  lemma PollOnTime(l: Loop, x: nat, fds: set<nat>, timeout: int, t: nat, run: seq<Event>)
    requires Inv(l) && TInv(l) && Legal(l, OnPoll(x, fds, timeout, t)) && l.ring.start <= t
    requires var l1 := Step(l, OnPoll(x, fds, timeout, t)); Inv(l1) && LegalRun(l1, run) && FitsRun(l1, run)
    ensures OnTime(Run(Step(l, OnPoll(x, fds, timeout, t)), run), x, t + if timeout < 0 then 0x7fff_ffff else timeout)
  {
    var e := OnPoll(x, fds, timeout, t);
    PollWaitsUntil(l, x, fds, timeout, t);
    StepTimed(l, e);
    WaiterOnTime(Step(l, e), run, x, t + if timeout < 0 then 0x7fff_ffff else timeout);
  }

  /** A condition wait with a timeout, over any run. */
  lemma CondOnTime(l: Loop, x: nat, q: nat, ms: int, t: nat, run: seq<Event>)
    requires Inv(l) && TInv(l) && Legal(l, OnCond(x, q, ms, t)) && l.ring.start <= t && ms > 0
    requires var l1 := Step(l, OnCond(x, q, ms, t)); Inv(l1) && LegalRun(l1, run) && FitsRun(l1, run)
    ensures OnTime(Run(Step(l, OnCond(x, q, ms, t)), run), x, t + ms)
  {
    var e := OnCond(x, q, ms, t);
    CondWaitsUntil(l, x, q, ms, t);
    StepTimed(l, e);
    WaiterOnTime(Step(l, e), run, x, t + ms);
  }
}
