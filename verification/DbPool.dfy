/** The connection pool as a monitor. A step is what one thread does between taking the mutex and giving
    it up: entering GetDBConn, waking up inside its wait, RelDBConn, or the destructor. Wake-ups follow
    the condition variable of C++: a notified thread competes for the mutex with everybody else, and
    any waiting thread may wake without being notified. */
module DbPool {
  const MIN_DB_CONN_CNT := 2

  /** `blocked` and `notified` are the threads inside the wait; `timed` those of them that gave a timeout.
      `holder` says which thread a used connection was given to. */
  datatype Pool = Pool(
    free: seq<nat>,
    used: seq<nat>,
    cur: int,
    max: int,
    abort: bool,
    blocked: set<nat>,
    notified: set<nat>,
    timed: set<nat>,
    holder: map<nat, nat>)

  datatype Outcome = Got(conn: nat) | Null | Waits

  datatype Answer = Answer(pool: Pool, outcome: Outcome)

  function RemoveAll(s: seq<nat>, x: nat): seq<nat> {
    if s == [] then [] else (if s[0] == x then [] else [s[0]]) + RemoveAll(s[1..], x)
  }

  function Leave(p: Pool, tid: nat): Pool {
    p.(blocked := p.blocked - {tid}, notified := p.notified - {tid}, timed := p.timed - {tid})
  }

  /** The front of the free list goes to the caller. */
  function Take(p: Pool, tid: nat): Answer
    requires p.free != []
  {
    var conn := p.free[0];
    Answer(Leave(p, tid).(free := p.free[1..], used := p.used + [conn], holder := p.holder[conn := tid]), Got(conn))
  }

  /** GetDBConn up to its return or its wait; `conn` is the new connection, `connects` the result of its
      Init. */
  function Enter(p: Pool, tid: nat, timeoutMs: int, conn: nat, connects: bool): Answer {
    if p.abort then Answer(p, Null)
    else if p.free != [] then Take(p, tid)
    else if p.cur >= p.max then
      Answer(p.(blocked := p.blocked + {tid}, timed := if timeoutMs > 0 then p.timed + {tid} else p.timed), Waits)
    else if !connects then Answer(p, Null)
    else Take(p.(free := [conn], cur := p.cur + 1), tid)
  }

  /** A waiting thread has the mutex again. It goes back to waiting while nothing is free and nobody has
      aborted, unless its time is up. */
  function Awake(p: Pool, tid: nat, timeIsUp: bool): Answer {
    if p.abort then Answer(Leave(p, tid), Null)
    else if p.free != [] then Take(p, tid)
    else if timeIsUp then Answer(Leave(p, tid), Null)
    else Answer(p.(blocked := p.blocked + {tid}, notified := p.notified - {tid}), Waits)
  }

  /** notify_one wakes the given blocked thread, if any is blocked. */
  function Notify(p: Pool, tid: nat): Pool {
    if tid in p.blocked then p.(blocked := p.blocked - {tid}, notified := p.notified + {tid}) else p
  }

  function Release(p: Pool, conn: nat, woken: nat): Pool {
    if conn in p.free then p
    else Notify(p.(used := RemoveAll(p.used, conn), free := p.free + [conn], holder := p.holder - {conn}), woken)
  }

  function Close(p: Pool): Pool {
    p.(abort := true, notified := p.notified + p.blocked, blocked := {}, free := [])
  }

  // ----- runs -----

  datatype Event =
    | OnEnter(tid: nat, timeoutMs: int, conn: nat, connects: bool)
    | OnAwake(tid: nat, timeIsUp: bool)
    | OnRelease(tid: nat, conn: nat, woken: nat)
    | OnClose

  /** A thread returns only what it was given, and may return it twice in a row; notify_one picks a
      blocked thread if there is one; new connections have new addresses. */
  predicate Legal(p: Pool, e: Event) {
    match e
    case OnEnter(tid, timeoutMs, conn, connects) => tid !in p.blocked + p.notified && conn !in p.free && conn !in p.used
    case OnAwake(tid, timeIsUp) => tid in p.blocked + p.notified && (timeIsUp ==> tid in p.timed)
    case OnRelease(tid, conn, woken) =>
      (conn in p.free || (conn in p.holder && p.holder[conn] == tid)) && (p.blocked != {} ==> woken in p.blocked)
    case OnClose => !p.abort
  }

  function Step(p: Pool, e: Event): Pool {
    match e
    case OnEnter(tid, timeoutMs, conn, connects) => Enter(p, tid, timeoutMs, conn, connects).pool
    case OnAwake(tid, timeIsUp) => Awake(p, tid, timeIsUp).pool
    case OnRelease(tid, conn, woken) => Release(p, conn, woken)
    case OnClose => Close(p)
  }

  predicate LegalRun(p: Pool, run: seq<Event>)
    decreases |run|
  {
    run == [] || (Legal(p, run[0]) && LegalRun(Step(p, run[0]), run[1..]))
  }

  function Run(p: Pool, run: seq<Event>): Pool
    decreases |run|
  {
    if run == [] then p else Run(Step(p, run[0]), run[1..])
  }

  /** After _Init: the first connects that succeeded are free; it stops at the first that fails. */
  ghost predicate Initial(p: Pool) {
    && |p.free| <= MIN_DB_CONN_CNT && Distinct(p.free, p.used) && p.used == [] && p.cur == MIN_DB_CONN_CNT
    && !p.abort && p.blocked == {} && p.notified == {} && p.timed == {} && p.holder == map[]
  }

  ghost function Copies(free: seq<nat>, used: seq<nat>, c: nat): nat {
    multiset(free)[c] + multiset(used)[c]
  }

  /** No connection is listed twice, in one list or over both. */
  ghost predicate Distinct(free: seq<nat>, used: seq<nat>) {
    forall c: nat :: Copies(free, used, c) <= 1
  }

  // ----- the invariant -----

  /** Where the connections are: `missing` of the initial connects failed. */
  ghost predicate Conserved(p: Pool, missing: nat) {
    && Distinct(p.free, p.used)
    && (!p.abort ==> |p.free| + |p.used| + missing == p.cur)
    && MIN_DB_CONN_CNT <= p.cur && (p.cur <= p.max || p.cur == MIN_DB_CONN_CNT)
    && (forall c :: c in p.used <==> c in p.holder)
  }

  /** While somebody is blocked without a notification, every free connection has a notified thread
      coming for it, and the pool cannot grow. */
  ghost predicate Alert(p: Pool) {
    && p.blocked !! p.notified && p.timed <= p.blocked + p.notified
    && (!p.abort && p.blocked != {} ==> |p.free| <= |p.notified| && p.cur >= p.max)
    && (!p.abort && p.notified != {} ==> p.cur >= p.max)
    && (p.abort ==> p.blocked == {})
  }

  ghost predicate Inv(p: Pool, missing: nat) {
    Conserved(p, missing) && Alert(p)
  }

  lemma {:induction false} RemoveAllCounts(s: seq<nat>, x: nat)
    ensures multiset(RemoveAll(s, x)) == multiset(s)[x := 0]
    ensures |RemoveAll(s, x)| == |s| - multiset(s)[x]
  {
    if s != [] {
      assert s == [s[0]] + s[1..];
      RemoveAllCounts(s[1..], x);
    }
  }

  lemma FreeIsNotHeld(p: Pool, missing: nat)
    requires Conserved(p, missing)
    ensures forall c :: c in p.free ==> c !in p.holder
  {
    forall c: nat | c in p.free ensures c !in p.used {
      assert Copies(p.free, p.used, c) <= 1 && multiset(p.free)[c] >= 1;
    }
  }

  lemma TakeCopies(p: Pool, tid: nat, c: nat)
    requires p.free != []
    ensures var p' := Take(p, tid).pool; Copies(p'.free, p'.used, c) == Copies(p.free, p.used, c)
  {
    assert p.free == [p.free[0]] + p.free[1..];
  }

  lemma TakeConserves(p: Pool, tid: nat, missing: nat)
    requires p.free != [] && Conserved(p, missing)
    ensures Conserved(Take(p, tid).pool, missing)
    ensures p.free[0] !in p.holder
  {
    var p' := Take(p, tid).pool;
    forall c: nat ensures Copies(p'.free, p'.used, c) <= 1 { TakeCopies(p, tid, c); }
    FreeIsNotHeld(p, missing);
  }

  lemma ReleaseCopies(p: Pool, conn: nat, woken: nat, c: nat)
    requires conn !in p.free && Copies(p.free, p.used, conn) == 1
    ensures var p' := Release(p, conn, woken); Copies(p'.free, p'.used, c) == Copies(p.free, p.used, c)
  {
    RemoveAllCounts(p.used, conn);
  }

  lemma ReleaseConserves(p: Pool, tid: nat, conn: nat, woken: nat, missing: nat)
    requires Conserved(p, missing) && Legal(p, OnRelease(tid, conn, woken))
    ensures Conserved(Release(p, conn, woken), missing)
  {
    if conn !in p.free {
      var p' := Release(p, conn, woken);
      assert Copies(p.free, p.used, conn) == 1;
      RemoveAllCounts(p.used, conn);
      forall c: nat ensures Copies(p'.free, p'.used, c) <= 1 { ReleaseCopies(p, conn, woken, c); }
      forall c: nat ensures c in p'.used <==> c in p'.holder { assert c in p'.used <==> multiset(p'.used)[c] > 0; }
    }
  }

  lemma TakeAlert(p: Pool, tid: nat)
    requires Alert(p) && p.free != [] && !p.abort
    ensures Alert(Take(p, tid).pool)
  {
    LeaveSizes(p, tid);
  }

  lemma LeaveSizes(p: Pool, tid: nat)
    ensures |Leave(p, tid).notified| == |p.notified| - if tid in p.notified then 1 else 0
    ensures Leave(p, tid).blocked <= p.blocked
  {
    if tid !in p.notified { assert p.notified - {tid} == p.notified; }
  }

  lemma EnterAlert(p: Pool, tid: nat, timeoutMs: int, conn: nat, connects: bool)
    requires Alert(p) && tid !in p.blocked + p.notified
    ensures Alert(Enter(p, tid, timeoutMs, conn, connects).pool)
  {
    if !p.abort {
      if p.free != [] {
        TakeAlert(p, tid);
      } else if p.cur < p.max && connects {
        var p1 := p.(free := [conn], cur := p.cur + 1);
        LeaveSizes(p1, tid);
        assert p.blocked == {} && p.notified == {};
      }
    }
  }

  lemma AwakeAlert(p: Pool, tid: nat, timeIsUp: bool)
    requires Alert(p) && tid in p.blocked + p.notified
    ensures Alert(Awake(p, tid, timeIsUp).pool)
  {
    if !p.abort && p.free != [] {
      TakeAlert(p, tid);
    }
  }

  lemma ReleaseAlert(p: Pool, conn: nat, woken: nat)
    requires Alert(p) && (p.blocked != {} ==> woken in p.blocked)
    ensures Alert(Release(p, conn, woken))
  {
    if woken in p.blocked { assert |p.notified + {woken}| == |p.notified| + 1; }
  }

  lemma GrowConserves(p: Pool, conn: nat, missing: nat)
    requires Conserved(p, missing) && p.free == [] && p.cur < p.max && conn !in p.used && !p.abort
    ensures Conserved(p.(free := [conn], cur := p.cur + 1), missing)
  {
    var p' := p.(free := [conn], cur := p.cur + 1);
    forall c: nat ensures Copies(p'.free, p'.used, c) <= 1 { assert Copies(p.free, p.used, c) <= 1; }
  }

  lemma EnterConserves(p: Pool, tid: nat, timeoutMs: int, conn: nat, connects: bool, missing: nat)
    requires Conserved(p, missing) && conn !in p.free && conn !in p.used
    ensures Conserved(Enter(p, tid, timeoutMs, conn, connects).pool, missing)
  {
    if !p.abort {
      if p.free != [] {
        TakeConserves(p, tid, missing);
      } else if p.cur < p.max && connects {
        GrowConserves(p, conn, missing);
        TakeConserves(p.(free := [conn], cur := p.cur + 1), tid, missing);
      }
    }
  }

  lemma StepKeeps(p: Pool, e: Event, missing: nat)
    requires Inv(p, missing) && Legal(p, e)
    ensures Inv(Step(p, e), missing)
  {
    match e
    case OnEnter(tid, timeoutMs, conn, connects) =>
      EnterAlert(p, tid, timeoutMs, conn, connects);
      EnterConserves(p, tid, timeoutMs, conn, connects, missing);
    case OnAwake(tid, timeIsUp) =>
      AwakeAlert(p, tid, timeIsUp);
      if !p.abort && p.free != [] { TakeConserves(p, tid, missing); }
    case OnRelease(tid, conn, woken) =>
      ReleaseAlert(p, conn, woken);
      ReleaseConserves(p, tid, conn, woken, missing);
    case OnClose => CloseConserves(p, missing);
  }

  lemma CloseConserves(p: Pool, missing: nat)
    requires Conserved(p, missing)
    ensures Conserved(Close(p), missing)
  {
    forall c: nat ensures Copies([], p.used, c) <= 1 { assert Copies(p.free, p.used, c) <= 1; }
  }

  lemma {:induction false} RunKeeps(p: Pool, run: seq<Event>, missing: nat)
    requires Inv(p, missing) && LegalRun(p, run)
    ensures Inv(Run(p, run), missing)
    decreases |run|
  {
    if run != [] {
      StepKeeps(p, run[0], missing);
      RunKeeps(Step(p, run[0]), run[1..], missing);
    }
  }

  // ----- the theorems -----

  /** In every interleaving, with spurious and timed wake-ups, as long as the pool is not aborted: a
      thread is left blocked without a notification only while the notified threads outnumber the free
      connections, and only while the pool has reached its maximum. */
  lemma NoLostWakeup(p: Pool, run: seq<Event>)
    requires Initial(p) && LegalRun(p, run) && !Run(p, run).abort && Run(p, run).blocked != {}
    ensures |Run(p, run).free| <= |Run(p, run).notified| && Run(p, run).cur >= p.max
  {
    InitialInv(p);
    RunKeeps(p, run, MIN_DB_CONN_CNT - |p.free|);
    RunMax(p, run);
  }

  lemma InitialInv(p: Pool)
    requires Initial(p)
    ensures Inv(p, MIN_DB_CONN_CNT - |p.free|)
  {
  }

  lemma {:induction false} RunMax(p: Pool, run: seq<Event>)
    ensures Run(p, run).max == p.max
    decreases |run|
  {
    if run != [] { RunMax(Step(p, run[0]), run[1..]); }
  }

  /** In every interleaving the free and used connections are distinct, each used one has one holder and
      each free one none; their number is the connection count less the initial connects that failed; and
      the count stays within the maximum exactly if that is at least two. */
  lemma ConnectionsConserved(p: Pool, run: seq<Event>)
    requires Initial(p) && LegalRun(p, run)
    ensures var p' := Run(p, run);
      && Distinct(p'.free, p'.used)
      && (forall c :: c in p'.used <==> c in p'.holder) && (forall c :: c in p'.free ==> c !in p'.holder)
      && (!p'.abort ==> |p'.free| + |p'.used| + (MIN_DB_CONN_CNT - |p.free|) == p'.cur)
      && (p'.cur <= p.max <==> p.max >= 2)
  {
    InitialInv(p);
    RunKeeps(p, run, MIN_DB_CONN_CNT - |p.free|);
    RunMax(p, run);
    FreeIsNotHeld(Run(p, run), MIN_DB_CONN_CNT - |p.free|);
  }

  /** Whoever gets a connection gets one that nobody holds. */
  lemma HandedOutOnce(p: Pool, tid: nat, timeoutMs: int, conn: nat, connects: bool, timeIsUp: bool, missing: nat)
    requires Inv(p, missing) && conn !in p.free && conn !in p.used
    ensures var r := Enter(p, tid, timeoutMs, conn, connects);
      r.outcome.Got? ==>
        r.outcome.conn !in p.holder && r.outcome.conn in r.pool.holder && r.pool.holder[r.outcome.conn] == tid
    ensures var r := Awake(p, tid, timeIsUp);
      r.outcome.Got? ==>
        r.outcome.conn !in p.holder && r.outcome.conn in r.pool.holder && r.pool.holder[r.outcome.conn] == tid
  {
    if p.free != [] { TakeConserves(p, tid, missing); }
  }

  /** Returning a connection twice in a row is the same as returning it once. */
  lemma DoubleReturn(p: Pool, conn: nat, woken: nat, again: nat)
    ensures Release(Release(p, conn, woken), conn, again) == Release(p, conn, woken)
  {
    assert conn in Release(p, conn, woken).free;
  }

  /** Taking a connection and returning it gives back a pool with the same connections. */
  lemma TakeThenReturn(p: Pool, tid: nat, woken: nat, missing: nat)
    requires Inv(p, missing) && p.free != [] && !p.abort
    ensures var p' := Release(Take(p, tid).pool, p.free[0], woken);
      p'.free == p.free[1..] + [p.free[0]] && p'.used == p.used && p'.holder == p.holder && p'.cur == p.cur
  {
    TakeConserves(p, tid, missing);
    var p1 := Take(p, tid).pool;
    FreeIsNotHeld(p, missing);
    assert p.free[0] !in p1.free by {
      assert p.free == [p.free[0]] + p1.free;
      assert Copies(p.free, p.used, p.free[0]) <= 1;
    }
    RemoveAllLast(p.used, p.free[0]);
    assert p1.holder - {p.free[0]} == p.holder;
  }

  lemma {:induction false} RemoveAllLast(s: seq<nat>, x: nat)
    requires x !in s
    ensures RemoveAll(s + [x], x) == s
  {
    if s != [] {
      assert (s + [x])[1..] == s[1..] + [x];
      RemoveAllLast(s[1..], x);
    }
  }

  /** After the destructor every thread inside GetDBConn has been notified and leaves with nothing, and no
      new call gets anything or waits. */
  lemma AbortFreesWaiters(p: Pool, run: seq<Event>, tid: nat, timeIsUp: bool)
    requires Initial(p) && LegalRun(p, run) && Run(p, run).abort
    ensures Run(p, run).blocked == {} && Awake(Run(p, run), tid, timeIsUp).outcome == Null
    ensures tid !in Awake(Run(p, run), tid, timeIsUp).pool.notified
    ensures forall timeoutMs, conn, connects ::
      Enter(Run(p, run), tid, timeoutMs, conn, connects) == Answer(Run(p, run), Null)
  {
    InitialInv(p);
    RunKeeps(p, run, MIN_DB_CONN_CNT - |p.free|);
  }

  /** The destructor drops the free connections and leaves the others to those who hold them; from then on
      the free ones are those that come back. */
  lemma ClosedKeepsReturns(p: Pool, run: seq<Event>)
    requires !p.abort && LegalRun(Close(p), run)
    ensures Run(Close(p), run).abort && forall c :: c in Run(Close(p), run).free ==> c in p.holder
    ensures Run(Close(p), run).holder.Keys <= p.holder.Keys
  {
    AbortedReturns(Close(p), run);
  }

  lemma {:induction false} AbortedReturns(p: Pool, run: seq<Event>)
    requires p.abort && LegalRun(p, run)
    ensures Run(p, run).abort && Run(p, run).holder.Keys <= p.holder.Keys
    ensures forall c :: c in Run(p, run).free ==> c in p.free || c in p.holder
    decreases |run|
  {
    if run != [] {
      AbortedReturns(Step(p, run[0]), run[1..]);
    }
  }

  // ----- timeouts -----

  ghost predicate Waiting(p: Pool, tid: nat) {
    tid in p.blocked + p.notified
  }

  /** A call that has to wait gives a time limit exactly if its timeout is positive. */
  lemma WaitsTimed(p: Pool, tid: nat, timeoutMs: int, conn: nat, connects: bool, missing: nat)
    requires Inv(p, missing) && !Waiting(p, tid) && Enter(p, tid, timeoutMs, conn, connects).outcome == Waits
    ensures var p' := Enter(p, tid, timeoutMs, conn, connects).pool;
      Waiting(p', tid) && (tid in p'.timed <==> timeoutMs > 0)
  {
  }

  /** A thread whose time is up leaves: in every state that a run reaches before the pool is aborted it has a
      step after which it no longer waits, with the first free connection, or with nothing exactly if none
      is free. */
  lemma TimeUpLeaves(p: Pool, run: seq<Event>, tid: nat)
    requires Initial(p) && LegalRun(p, run) && !Run(p, run).abort && tid in Run(p, run).timed
    ensures var p', e := Run(p, run), OnAwake(tid, true);
      && Legal(p', e) && !Waiting(Step(p', e), tid) && tid !in Step(p', e).timed
      && (if p'.free == [] then Awake(p', tid, true).outcome == Null && Step(p', e).holder == p'.holder
          else Step(p', e).holder == p'.holder[p'.free[0] := tid])
  {
    InitialInv(p);
    RunKeeps(p, run, MIN_DB_CONN_CNT - |p.free|);
  }

  /** The thread leaves its wait at some step of the run with a connection. */
  ghost predicate Gets(p: Pool, run: seq<Event>, tid: nat)
    decreases |run|
  {
    run != [] &&
    ((run[0].OnAwake? && run[0].tid == tid && Awake(p, tid, run[0].timeIsUp).outcome.Got?)
     || Gets(Step(p, run[0]), run[1..], tid))
  }

  /** A thread that gave no timeout leaves a wait only with a connection, or after abort. */
  lemma {:induction false} UntimedWaits(p: Pool, run: seq<Event>, tid: nat)
    requires LegalRun(p, run) && !Run(p, run).abort && Waiting(p, tid) && tid !in p.timed
    ensures (Waiting(Run(p, run), tid) && tid !in Run(p, run).timed) || Gets(p, run, tid)
    decreases |run|
  {
    if run != [] {
      StaysAborted(p, run);
      StaysAborted(Step(p, run[0]), run[1..]);
      UntimedStep(p, run[0], tid);
      if Waiting(Step(p, run[0]), tid) {
        UntimedWaits(Step(p, run[0]), run[1..], tid);
      }
    }
  }

  lemma {:induction false} StaysAborted(p: Pool, run: seq<Event>)
    ensures p.abort ==> Run(p, run).abort
    decreases |run|
  {
    if run != [] {
      StaysAborted(Step(p, run[0]), run[1..]);
    }
  }

  lemma UntimedStep(p: Pool, e: Event, tid: nat)
    requires Legal(p, e) && !p.abort && Waiting(p, tid) && tid !in p.timed
    ensures tid !in Step(p, e).timed
    ensures Waiting(Step(p, e), tid) || (e.OnAwake? && e.tid == tid && Awake(p, tid, e.timeIsUp).outcome.Got?)
  {
  }

  // ----- a pool that never works -----

  ghost predicate Idle(p: Pool) {
    p.free == [] && p.holder == map[] && p.cur >= p.max
  }

  lemma {:induction false} IdleForEver(p: Pool, run: seq<Event>)
    requires Idle(p) && LegalRun(p, run)
    ensures Idle(Run(p, run))
    decreases |run|
  {
    if run != [] {
      IdleForEver(Step(p, run[0]), run[1..]);
    }
  }

  lemma FirstCall(p: Pool, conn: nat) returns (run: seq<Event>)
    requires Initial(p) && !Idle(p) && conn !in p.free
    ensures LegalRun(p, run) && Run(p, run).holder != map[]
  {
    var e := OnEnter(0, 0, conn, true);
    run := [e];
    assert run[1..] == [] && Run(p, run) == Step(p, e);
    if p.free != [] {
      assert p.free[0] in Step(p, e).holder;
    } else {
      assert conn in Step(p, e).holder;
    }
  }

  /** No thread ever gets a connection, whatever happens, exactly if every initial connect failed and the
      maximum is at most the minimum: the count stands at the minimum, so the pool never grows. */
  lemma StarvedIff(p: Pool)
    requires Initial(p)
    ensures (forall run :: LegalRun(p, run) ==> Run(p, run).holder == map[]) <==>
      p.free == [] && p.max <= 2
  {
    if Idle(p) {
      forall run | LegalRun(p, run) ensures Run(p, run).holder == map[] { IdleForEver(p, run); }
    } else {
      var conn := if 0 !in p.free then 0 else if 1 !in p.free then 1 else 2;
      var run := FirstCall(p, conn);
    }
  }
}
