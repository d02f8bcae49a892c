/** Releasing or resetting the occupant of a shared stack: exactly when the others still find their
    bytes, and a run in which one does not. */
module SharedStackRelease {
  import opened Basics
  import opened SharedStack
  import opened SharedStackProof
  import opened SharedStackTheorems

  ghost predicate MayRelease(m: Machine, c: CoId) {
    Ok(m, c) && !m.cos[c].isMain && c !in m.callStack
  }

  ghost predicate Sees(m: Machine, i: Ideal, exact: bool) {
    && HasRunning(m)
    && var me := Running(m);
      me in i.left ==> SameImage(Seen(m, me), i.left[me], m.cos[me].sp, |BufferOf(m, me)|, exact)
  }

  /** Whatever the program does from here, whoever has control sees the bytes it left: those outside the
      entry word, or all of them, with the entry word that first starts write. */
  ghost predicate Safe(m: Machine, i: Ideal, entry: seq<Byte>, exact: bool)
    requires |entry| == WORD
  {
    forall es :: LegalRun(m, es, entry) ==> Sees(Run(m, es, entry), RefRun(m, i, es, entry, exact), exact)
  }

  lemma RelIsSafe(m: Machine, i: Ideal, entry: seq<Byte>, exact: bool)
    requires |entry| == WORD && Rel(m, i, exact)
    ensures Safe(m, i, entry, exact)
  {
    forall es | LegalRun(m, es, entry) ensures Sees(Run(m, es, entry), RefRun(m, i, es, entry, exact), exact) {
      RunKeepsRel(m, i, es, entry, exact);
      RunningSeesLeft(Run(m, es, entry), RefRun(m, i, es, entry, exact), exact);
    }
  }

  /** c, which occupies its stack, has left other bytes there. */
  ghost function LeftBy(m: Machine, c: CoId, bytes: seq<Byte>): Machine
    requires Ok(m, c)
  {
    WithBuffer(m, m.cos[c].stack, bytes)
  }

  ghost predicate Occupies(m: Machine, c: CoId) {
    MayRelease(m, c) && OccupantOf(m, c) == Some(c)
  }

  /** The bytes of the occupant matter to nobody else. */
  lemma LeftByKeeps(m: Machine, i: Ideal, c: CoId, bytes: seq<Byte>, exact: bool)
    requires Rel(m, i, exact) && Occupies(m, c) && |bytes| == |BufferOf(m, c)|
    ensures Images(LeftBy(m, c, bytes), i.left - {c}, exact) && Control(LeftBy(m, c, bytes))
  {
    var m', s := LeftBy(m, c, bytes), m.cos[c].stack;
    assert CoShape(m, c) && StackShape(m, s);
    forall d | d in m'.cos ensures CoShape(m', d) { assert CoShape(m, d); }
    forall t | t in m'.stacks ensures StackShape(m', t) { assert StackShape(m, t); }
    forall d | d in i.left - {c} ensures Placed(m', d, i.left[d], exact) {
      assert Placed(m, d, i.left[d], exact) && CoShape(m, d);
    }
    RunningElsewhere(m, i, c, exact);
    FrameControl(m, m');
  }

  lemma RunningElsewhere(m: Machine, i: Ideal, c: CoId, exact: bool)
    requires Rel(m, i, exact) && Occupies(m, c)
    ensures m.cos[Running(m)].stack != m.cos[c].stack && Running(m) != c
  {
    assert m.callStack[|m.callStack| - 1] == Running(m);
    assert CoShape(m, Running(m)) && StackShape(m, m.cos[c].stack);
  }

  /** c is released, or reset. */
  ghost predicate Gone(m: Machine, m': Machine, c: CoId)
    requires Ok(m, c)
  {
    m' == Free(m, c) || (m.cos[c].started && m' == Reset(m, c))
  }

  lemma GoneKeepsRel(m: Machine, i: Ideal, c: CoId, bytes: seq<Byte>, m': Machine, exact: bool)
    requires Rel(m, i, exact) && Occupies(m, c) && |bytes| == |BufferOf(m, c)| && NobodyElseSaved(m, c)
    requires Gone(LeftBy(m, c, bytes), m', c)
    ensures Rel(m', i.(left := i.left - {c}), exact)
  {
    var m1 := LeftBy(m, c, bytes);
    LeftByKeeps(m, i, c, bytes, exact);
    assert i.left - {c} - {c} == i.left - {c};
    if m' == Free(m1, c) {
      FreeKeepsImages(m1, i.left - {c}, c, exact);
      FreeFrame(m1, c);
    } else {
      ResetKeepsImages(m1, i.left - {c}, c, exact);
      ResetFrame(m1, c);
      ResetAlive(m1, c);
    }
    QuietRel(m, i, m', c, exact);
  }

  // ----- when somebody else is saved from the stack -----

  ghost predicate Suspended(m: Machine, s: StackId, d: CoId) {
    && d in m.cos && m.cos[d].stack == s && m.cos[d].isShared && m.cos[d].started && !m.cos[d].ended && !m.cos[d].isMain
  }

  ghost predicate Stacked(m: Machine) {
    && HasRunning(m)
    && (forall j, k :: 0 <= j < k < |m.callStack| ==> m.callStack[j] != m.callStack[k])
    && (forall j :: 0 <= j < |m.callStack| ==> m.callStack[j] in m.cos)
  }

  /** Stack s has no occupant and holds the bytes, and d is suspended on it. */
  ghost predicate Open(m: Machine, s: StackId, bytes: seq<Byte>, d: CoId) {
    && Shape(m) && Stacked(m) && m.cos[Running(m)].stack != s && Suspended(m, s, d)
    && s in m.stacks && m.stacks[s].occupant == None && m.stacks[s].buffer == bytes
  }

  /** And d has left something else. */
  ghost predicate Vacant(m: Machine, i: Ideal, s: StackId, bytes: seq<Byte>, d: CoId, exact: bool) {
    && Open(m, s, bytes, d) && m.cos[d].sp <= |bytes|
    && i.callStack == m.callStack && d in i.left
    && !SameImage(bytes[m.cos[d].sp..], i.left[d], m.cos[d].sp, |bytes|, exact)
  }

  /** d does not find its bytes at the end of the run. */
  ghost predicate Misses(m: Machine, i: Ideal, es: seq<Event>, entry: seq<Byte>, exact: bool)
    requires |entry| == WORD
  {
    LegalRun(m, es, entry) && !Sees(Run(m, es, entry), RefRun(m, i, es, entry, exact), exact)
  }

  ghost function Here(m: Machine): seq<Byte>
    requires HasRunning(m)
  {
    BufferOf(m, Running(m))
  }

  lemma ExecuteHere(m: Machine)
    requires HasRunning(m)
    ensures CanExecute(m, Here(m)) && Execute(m, Here(m)) == m
  {
  }

  /** A switch to a coroutine on a vacant stack shows it what is there. */
  lemma SwitchToVacant(m: Machine, d: CoId)
    requires Ok(m, d) && m.cos[d].isShared && OccupantOf(m, d) == None
    ensures Ok(Swap(m, d, false), d) && Seen(Swap(m, d, false), d) == BufferOf(m, d)[m.cos[d].sp..]
    ensures Swap(m, d, false).callStack == m.callStack
  {
  }

  /** Resumed now, d sees the bytes on the stack. */
  lemma ResumeSees(m: Machine, s: StackId, bytes: seq<Byte>, d: CoId, entry: seq<Byte>)
    requires |entry| == WORD && Open(m, s, bytes, d) && d !in m.callStack
    ensures var e := OnResume(d, Here(m), 0);
      Legal(m, e) && SeesIn(Step(m, e, entry), m.callStack + [d], bytes, m.cos[d].sp)
  {
    ExecuteHere(m);
    assert CoShape(m, d);
    var m1 := WithSp(m, Running(m), 0).(callStack := m.callStack + [d]);
    SwitchToVacant(m1, d);
    assert Step(m, OnResume(d, Here(m), 0), entry) == Swap(m1, d, false);
  }

  ghost predicate SeesIn(m: Machine, callStack: seq<CoId>, bytes: seq<Byte>, sp: nat) {
    && m.callStack == callStack && HasRunning(m) && sp <= |bytes| && Seen(m, Running(m)) == bytes[sp..]
    && m.cos[Running(m)].sp == sp && |BufferOf(m, Running(m))| == |bytes|
  }

  lemma ResumeMisses(m: Machine, i: Ideal, s: StackId, bytes: seq<Byte>, d: CoId, entry: seq<Byte>, exact: bool)
    requires |entry| == WORD && Vacant(m, i, s, bytes, d, exact) && d !in m.callStack
    ensures Misses(m, i, [OnResume(d, Here(m), 0)], entry, exact)
  {
    var e := OnResume(d, Here(m), 0);
    ResumeSees(m, s, bytes, d, entry);
    assert IdealStep(i, e).left[d] == i.left[d];
    MissesNow(m, i, e, m.callStack + [d], bytes, m.cos[d].sp, entry, exact);
  }

  lemma MissesNow(m: Machine, i: Ideal, e: Event, callStack: seq<CoId>, bytes: seq<Byte>, sp: nat, entry: seq<Byte>,
                  exact: bool)
    requires |entry| == WORD && Legal(m, e) && !FirstStart(m, e) && |i.callStack| > 0 && |callStack| > 0
    requires SeesIn(Step(m, e, entry), callStack, bytes, sp)
    requires callStack[|callStack| - 1] in IdealStep(i, e).left
    requires !SameImage(bytes[sp..], IdealStep(i, e).left[callStack[|callStack| - 1]], sp, |bytes|, exact)
    ensures Misses(m, i, [e], entry, exact)
  {
    assert [e][1..] == [];
  }

  lemma MissesLater(m: Machine, i: Ideal, e: Event, rest: seq<Event>, entry: seq<Byte>, exact: bool)
    requires |entry| == WORD && Legal(m, e) && !FirstStart(m, e) && |i.callStack| > 0
    requires Misses(Step(m, e, entry), IdealStep(i, e), rest, entry, exact)
    ensures Misses(m, i, [e] + rest, entry, exact)
  {
    assert ([e] + rest)[1..] == rest;
  }

  // ----- a yield to a coroutine on another stack -----

  ghost predicate Apart(m: Machine, p: CoId, s: StackId) {
    Shape(m) && p in m.cos && m.cos[p].stack != s && s in m.stacks
  }

  lemma SwapKeepsShape(m: Machine, p: CoId)
    requires Shape(m) && p in m.cos
    ensures Ok(m, p) && OccupantOk(m, p) && Shape(Swap(m, p, false))
  {
    SwapOutKeepsShape(m, p);
    var out, m' := SwapOut(m, p), Swap(m, p, false);
    forall d | d in m'.cos ensures CoShape(m', d) { assert CoShape(out, d); }
    forall t | t in m'.stacks ensures StackShape(m', t) { assert StackShape(out, t); }
  }

  lemma SwapLeaves(m: Machine, p: CoId, s: StackId)
    requires Apart(m, p, s)
    ensures Ok(m, p) && OccupantOk(m, p)
    ensures s in Swap(m, p, false).stacks && Swap(m, p, false).stacks[s] == m.stacks[s]
    ensures Swap(m, p, false).callStack == m.callStack && Swap(m, p, false).cos.Keys == m.cos.Keys
  {
    ShapeOccupant(m, p);
  }

  lemma SwapLeavesCo(m: Machine, p: CoId, c: CoId)
    requires Shape(m) && p in m.cos && c in m.cos
    ensures Ok(m, p) && OccupantOk(m, p) && c in Swap(m, p, false).cos
    ensures Swap(m, p, false).cos[c].stack == m.cos[c].stack
    ensures m.cos[c].stack != m.cos[p].stack ==> Swap(m, p, false).cos[c] == m.cos[c]
  {
    ShapeOccupant(m, p);
  }

  /** What a yield gives control to. */
  ghost function Below(m: Machine): (p: CoId)
    requires |m.callStack| >= 2
  {
    m.callStack[|m.callStack| - 2]
  }

  ghost function Left(m: Machine): Machine
    requires HasRunning(m) && |m.callStack| >= 2
  {
    WithSp(m, Running(m), 0).(callStack := m.callStack[..|m.callStack| - 1])
  }

  lemma LeftShape(m: Machine)
    requires Shape(m) && HasRunning(m) && |m.callStack| >= 2 && Below(m) in m.cos
    ensures Shape(Left(m))
  {
    var m1 := Left(m);
    forall d | d in m1.cos ensures CoShape(m1, d) { assert CoShape(m, d); }
    forall t | t in m1.stacks ensures StackShape(m1, t) { assert StackShape(m, t); }
  }

  lemma LeftSwaps(m: Machine)
    requires Shape(m) && HasRunning(m) && |m.callStack| >= 2 && Below(m) in m.cos
    ensures CanYield(m, 0) && Ok(Left(m), Below(m)) && OccupantOk(Left(m), Below(m))
    ensures Yield(m, 0) == Swap(Left(m), Below(m), false)
  {
    ShapeOccupant(m, Below(m));
    YieldSwaps(m, 0);
  }

  ghost predicate Above(m: Machine, s: StackId, d: CoId, k: nat) {
    && k < |m.callStack| && m.callStack[k] == d
    && forall j :: k < j < |m.callStack| ==> m.callStack[j] in m.cos && m.cos[m.callStack[j]].stack != s
  }

  /** Control has gone to the coroutine below, and stack s and d have been left alone. */
  ghost predicate Returned(m: Machine, m': Machine, s: StackId, d: CoId) {
    && Shape(m') && |m.callStack| >= 2 && m'.callStack == m.callStack[..|m.callStack| - 1]
    && s in m.stacks && s in m'.stacks && m'.stacks[s] == m.stacks[s]
    && d in m.cos && d in m'.cos && m'.cos[d] == m.cos[d]
    && (forall c :: c in m.cos ==> c in m'.cos && m'.cos[c].stack == m.cos[c].stack)
  }

  lemma ReturnedKeeps(m: Machine, m': Machine, s: StackId, bytes: seq<Byte>, d: CoId, k: nat)
    requires Open(m, s, bytes, d) && Returned(m, m', s, d) && k < |m.callStack| - 2 && Above(m, s, d, k)
    ensures Open(m', s, bytes, d) && Above(m', s, d, k)
  {
    assert CoShape(m', Below(m));
  }

  lemma SwapReturns(m: Machine, m1: Machine, p: CoId, s: StackId, d: CoId)
    requires Apart(m1, p, s) && d in m1.cos && m1.cos[d].stack == s && d in m.cos && m1.cos[d] == m.cos[d]
    requires |m.callStack| >= 2 && m1.callStack == m.callStack[..|m.callStack| - 1]
    requires s in m.stacks && m1.stacks[s] == m.stacks[s]
    requires forall c :: c in m.cos ==> c in m1.cos && m1.cos[c].stack == m.cos[c].stack
    ensures Ok(m1, p) && OccupantOk(m1, p) && Returned(m, Swap(m1, p, false), s, d)
  {
    SwapKeepsShape(m1, p);
    SwapLeaves(m1, p, s);
    forall c | c in m.cos ensures c in Swap(m1, p, false).cos && Swap(m1, p, false).cos[c].stack == m.cos[c].stack {
      SwapLeavesCo(m1, p, c);
    }
    SwapLeavesCo(m1, p, d);
  }

  lemma YieldReturns(m: Machine, s: StackId, bytes: seq<Byte>, d: CoId, k: nat)
    requires Open(m, s, bytes, d) && k < |m.callStack| - 2 && Above(m, s, d, k)
    ensures CanYield(m, 0) && Returned(m, Yield(m, 0), s, d)
  {
    LeftShape(m);
    LeftSwaps(m);
    SwapReturns(m, Left(m), Below(m), s, d);
  }

  lemma YieldKeepsVacant(m: Machine, i: Ideal, s: StackId, bytes: seq<Byte>, d: CoId, k: nat, exact: bool)
    requires Vacant(m, i, s, bytes, d, exact) && k < |m.callStack| - 2 && Above(m, s, d, k)
    ensures CanYield(m, 0) && Vacant(Yield(m, 0), IdealStep(i, OnYield(Here(m), 0)), s, bytes, d, exact)
    ensures Above(Yield(m, 0), s, d, k) && Yield(m, 0).callStack == m.callStack[..|m.callStack| - 1]
  {
    YieldReturns(m, s, bytes, d, k);
    ReturnedKeeps(m, Yield(m, 0), s, bytes, d, k);
    YieldLeavesIdeal(m, i, d, k);
  }

  lemma YieldLeavesIdeal(m: Machine, i: Ideal, d: CoId, k: nat)
    requires HasRunning(m) && i.callStack == m.callStack && d in i.left && d != Running(m)
    ensures var i' := IdealStep(i, OnYield(Here(m), 0));
      i'.callStack == m.callStack[..|m.callStack| - 1] && d in i'.left && i'.left[d] == i.left[d]
  {
  }

  lemma YieldMisses(m: Machine, i: Ideal, s: StackId, bytes: seq<Byte>, d: CoId, entry: seq<Byte>, exact: bool)
    requires |entry| == WORD && Vacant(m, i, s, bytes, d, exact) && |m.callStack| >= 2 && Below(m) == d
    ensures Misses(m, i, [OnYield(Here(m), 0)], entry, exact)
  {
    var e := OnYield(Here(m), 0);
    YieldSees(m, s, bytes, d, entry);
    YieldLeavesIdeal(m, i, d, 0);
    MissesNow(m, i, e, m.callStack[..|m.callStack| - 1], bytes, m.cos[d].sp, entry, exact);
  }

  lemma YieldSees(m: Machine, s: StackId, bytes: seq<Byte>, d: CoId, entry: seq<Byte>)
    requires |entry| == WORD && Open(m, s, bytes, d) && |m.callStack| >= 2 && Below(m) == d
    ensures var e := OnYield(Here(m), 0);
      Legal(m, e) && SeesIn(Step(m, e, entry), m.callStack[..|m.callStack| - 1], bytes, m.cos[d].sp)
  {
    ExecuteHere(m);
    LeftSwaps(m);
    SwitchToVacant(Left(m), d);
  }

  /** If d is below the running coroutine on the call stack, yields lead back to it. */
  lemma {:induction false} YieldsMiss(m: Machine, i: Ideal, s: StackId, bytes: seq<Byte>, d: CoId, k: nat,
    entry: seq<Byte>, exact: bool)
    returns (es: seq<Event>)
    requires |entry| == WORD && Vacant(m, i, s, bytes, d, exact) && Above(m, s, d, k)
    ensures Misses(m, i, es, entry, exact)
    decreases |m.callStack|
  {
    var e := OnYield(Here(m), 0);
    ExecuteHere(m);
    if k == |m.callStack| - 2 {
      YieldMisses(m, i, s, bytes, d, entry, exact);
      es := [e];
    } else {
      YieldKeepsVacant(m, i, s, bytes, d, k, exact);
      assert Step(m, e, entry) == Yield(m, 0);
      var rest := YieldsMiss(Yield(m, 0), IdealStep(i, e), s, bytes, d, k, entry, exact);
      MissesLater(m, i, e, rest, entry, exact);
      es := [e] + rest;
    }
  }

  // ----- the condition -----

  ghost predicate Waits(m: Machine, c: CoId, d: CoId)
    requires Ok(m, c)
  {
    d in m.cos && d != c && m.cos[d].stack == m.cos[c].stack && Alive(m.cos[d])
  }

  lemma SomebodyWaits(m: Machine, c: CoId) returns (d: CoId)
    requires Occupies(m, c) && !NobodyElseSaved(m, c)
    ensures Waits(m, c, d)
  {
    d :| d in m.cos && d != c && m.cos[d].stack == m.cos[c].stack && Alive(m.cos[d]);
  }

  /** The topmost of them on the call stack, if any is there. */
  lemma {:induction false} Topmost(m: Machine, c: CoId, n: nat) returns (found: bool, k: nat)
    requires Occupies(m, c) && n <= |m.callStack|
    requires forall j :: n <= j < |m.callStack| ==>
      m.callStack[j] in m.cos && m.cos[m.callStack[j]].stack != m.cos[c].stack
    requires forall j :: 0 <= j < |m.callStack| ==> m.callStack[j] in m.cos
    ensures found ==>
      k < |m.callStack| && m.cos[m.callStack[k]].stack == m.cos[c].stack && Above(m, m.cos[c].stack, m.callStack[k], k)
    ensures !found ==> forall j :: 0 <= j < |m.callStack| ==> m.cos[m.callStack[j]].stack != m.cos[c].stack
  {
    if n == 0 {
      found, k := false, 0;
    } else if m.cos[m.callStack[n - 1]].stack == m.cos[c].stack {
      found, k := true, n - 1;
    } else {
      found, k := Topmost(m, c, n - 1);
    }
  }

  lemma OpenAfter(m: Machine, i: Ideal, c: CoId, bytes: seq<Byte>, d: CoId, m': Machine, exact: bool)
    requires Rel(m, i, exact) && Occupies(m, c) && Waits(m, c, d) && |bytes| == |BufferOf(m, c)|
    requires Gone(LeftBy(m, c, bytes), m', c)
    ensures Open(m', m.cos[c].stack, bytes, d) && m'.callStack == m.callStack
    ensures forall x :: x in m.cos && x != c ==> x in m'.cos && m'.cos[x] == m.cos[x]
  {
    LeftByKeeps(m, i, c, bytes, exact);
    GoneShape(LeftBy(m, c, bytes), c, m');
    WaiterSuspended(m, i, c, d, exact);
    StackedAfter(m, i, c, m', exact);
  }

  lemma WaiterSuspended(m: Machine, i: Ideal, c: CoId, d: CoId, exact: bool)
    requires Rel(m, i, exact) && Occupies(m, c) && Waits(m, c, d)
    ensures Suspended(m, m.cos[c].stack, d)
  {
    assert CoShape(m, c) && CoShape(m, d) && StackShape(m, m.cos[c].stack);
  }

  lemma StackedAfter(m: Machine, i: Ideal, c: CoId, m': Machine, exact: bool)
    requires Rel(m, i, exact) && Occupies(m, c) && Shape(m') && m'.callStack == m.callStack
    requires forall x :: x in m.cos && x != c ==> x in m'.cos && m'.cos[x] == m.cos[x]
    ensures Stacked(m') && m'.cos[Running(m')].stack != m.cos[c].stack
  {
    RunningElsewhere(m, i, c, exact);
    assert m.callStack[|m.callStack| - 1] == Running(m);
    assert CoShape(m', Running(m));
  }

  lemma GoneShape(m: Machine, c: CoId, m': Machine)
    requires Shape(m) && Occupies(m, c) && Gone(m, m', c)
    ensures Shape(m') && m'.callStack == m.callStack
    ensures m'.stacks == m.stacks[m.cos[c].stack := m.stacks[m.cos[c].stack].(occupant := None)]
    ensures forall x :: x in m.cos && x != c ==> x in m'.cos && m'.cos[x] == m.cos[x]
  {
    assert CoShape(m, c) && StackShape(m, m.cos[c].stack);
    forall d | d in m'.cos ensures CoShape(m', d) { assert CoShape(m, d); }
    forall t | t in m'.stacks ensures StackShape(m', t) { assert StackShape(m, t); }
  }

  lemma WaiterHasLeft(m: Machine, i: Ideal, c: CoId, d: CoId, exact: bool)
    requires Rel(m, i, exact) && Occupies(m, c) && Waits(m, c, d)
    ensures d in i.left && m.cos[d].sp <= EntrySlot(|BufferOf(m, c)|) && |i.left[d]| == |BufferOf(m, c)| - m.cos[d].sp
  {
    RunningElsewhere(m, i, c, exact);
    assert Placed(m, d, i.left[d], exact);
  }

  /** Bytes that are not those that d has left, whatever part of the stack it had; outside the entry word
      too, if there is anything above it. */
  lemma Unlike(left: seq<Byte>, size: nat, sp: nat, exact: bool) returns (bytes: seq<Byte>)
    requires size >= WORD && sp <= EntrySlot(size) && |left| == size - sp && (exact || size % 16 == 0)
    ensures |bytes| == size && !SameImage(bytes[sp..], left, sp, size, exact)
  {
    var last := |left| - 1;
    var other: Byte := if left[last] == 0 then 1 else 0;
    bytes := seq(size, _ => other);
    var above := EntrySlot(size) + WORD - sp;
    assert bytes[sp..][last] == other;
    if above <= last {
      assert bytes[sp..][above..][last - above] == other && left[above..][last - above] == left[last];
    }
  }

  /** Somebody who waits, the topmost on the call stack if there is one on it. */
  lemma ChooseWaiter(m: Machine, i: Ideal, c: CoId, exact: bool) returns (d: CoId, found: bool, k: nat)
    requires Rel(m, i, exact) && Occupies(m, c) && !NobodyElseSaved(m, c)
    ensures Waits(m, c, d) && if found then Above(m, m.cos[c].stack, d, k) else d !in m.callStack
  {
    found, k := Topmost(m, c, |m.callStack|);
    d := SomebodyWaits(m, c);
    if found {
      d := m.callStack[k];
    }
  }

  /** With c gone, having left bytes unlike those of d, the stack is vacant. */
  lemma VacantAfter(m: Machine, i: Ideal, c: CoId, d: CoId, exact: bool) returns (bytes: seq<Byte>)
    requires Rel(m, i, exact) && Occupies(m, c) && Waits(m, c, d) && (exact || |BufferOf(m, c)| % 16 == 0)
    ensures |bytes| == |BufferOf(m, c)|
    ensures var m' := Free(LeftBy(m, c, bytes), c);
      && Vacant(m', i.(left := i.left - {c}), m.cos[c].stack, bytes, d, exact) && m'.callStack == m.callStack
      && forall x :: x in m.cos && x != c ==> x in m'.cos && m'.cos[x] == m.cos[x]
  {
    WaiterHasLeft(m, i, c, d, exact);
    bytes := Unlike(i.left[d], |BufferOf(m, c)|, m.cos[d].sp, exact);
    OpenAfter(m, i, c, bytes, d, Free(LeftBy(m, c, bytes), c), exact);
  }

  lemma ReleaseMisses(m: Machine, i: Ideal, c: CoId, entry: seq<Byte>, exact: bool)
      returns (bytes: seq<Byte>, es: seq<Event>)
    requires |entry| == WORD && Rel(m, i, exact) && Occupies(m, c) && !NobodyElseSaved(m, c)
    requires exact || |BufferOf(m, c)| % 16 == 0
    ensures |bytes| == |BufferOf(m, c)|
    ensures Misses(Free(LeftBy(m, c, bytes), c), i.(left := i.left - {c}), es, entry, exact)
  {
    var d, found, k := ChooseWaiter(m, i, c, exact);
    bytes := VacantAfter(m, i, c, d, exact);
    es := VacantMisses(Free(LeftBy(m, c, bytes), c), i.(left := i.left - {c}), m.cos[c].stack, bytes, d, found, k,
                       entry, exact);
  }

  lemma VacantMisses(m: Machine, i: Ideal, s: StackId, bytes: seq<Byte>, d: CoId, found: bool, k: nat,
                     entry: seq<Byte>, exact: bool)
      returns (es: seq<Event>)
    requires |entry| == WORD && Vacant(m, i, s, bytes, d, exact)
    requires if found then Above(m, s, d, k) else d !in m.callStack
    ensures Misses(m, i, es, entry, exact)
  {
    if found {
      es := YieldsMiss(m, i, s, bytes, d, k, entry, exact);
    } else {
      ResumeMisses(m, i, s, bytes, d, entry, exact);
      es := [OnResume(d, Here(m), 0)];
    }
  }

  lemma ReleaseSafe(m: Machine, i: Ideal, c: CoId, entry: seq<Byte>, exact: bool)
    requires |entry| == WORD && Rel(m, i, exact) && MayRelease(m, c) && NobodyElseSaved(m, c)
    ensures Safe(Free(m, c), i.(left := i.left - {c}), entry, exact)
    ensures Safe(Reset(m, c), i.(left := i.left - {c}), entry, exact)
  {
    FreeKeepsRel(m, i, c, exact);
    ResetKeepsRel(m, i, c, exact);
    RelIsSafe(Free(m, c), i.(left := i.left - {c}), entry, exact);
    RelIsSafe(Reset(m, c), i.(left := i.left - {c}), entry, exact);
  }

  lemma MissesIsUnsafe(m: Machine, i: Ideal, es: seq<Event>, entry: seq<Byte>, exact: bool)
    requires |entry| == WORD && Misses(m, i, es, entry, exact)
    ensures !Safe(m, i, entry, exact)
  {
    assert LegalRun(m, es, entry);
  }

  /** Whatever bytes c has left, it may be released or reset. */
  ghost predicate SafeToLose(m: Machine, i: Ideal, c: CoId, entry: seq<Byte>, exact: bool)
    requires |entry| == WORD && Ok(m, c)
  {
    forall bytes, m' :: |bytes| == |BufferOf(m, c)| && Gone(LeftBy(m, c, bytes), m', c) ==>
      Safe(m', i.(left := i.left - {c}), entry, exact)
  }

  /** Releasing or resetting the occupant of a stack, whatever bytes it has left there, is safe for every
      continuation of the program if and only if no other coroutine waits to come back to that stack. This
      holds byte for byte, and also if only the bytes outside the entry word matter and there are some
      above it for everybody. */
  lemma ReleaseSafeIff(m: Machine, i: Ideal, c: CoId, entry: seq<Byte>, exact: bool)
    requires |entry| == WORD && Rel(m, i, exact) && Occupies(m, c) && (exact || |BufferOf(m, c)| % 16 == 0)
    ensures NobodyElseSaved(m, c) <==> SafeToLose(m, i, c, entry, exact)
  {
    if NobodyElseSaved(m, c) {
      forall bytes, m' | |bytes| == |BufferOf(m, c)| && Gone(LeftBy(m, c, bytes), m', c)
        ensures Safe(m', i.(left := i.left - {c}), entry, exact)
      {
        GoneKeepsRel(m, i, c, bytes, m', exact);
        RelIsSafe(m', i.(left := i.left - {c}), entry, exact);
      }
    } else {
      var bytes, es := ReleaseMisses(m, i, c, entry, exact);
      assert Gone(LeftBy(m, c, bytes), Free(LeftBy(m, c, bytes), c), c);
      MissesIsUnsafe(Free(LeftBy(m, c, bytes), c), i.(left := i.left - {c}), es, entry, exact);
    }
  }

  // ----- a run -----

  ghost function Yielded(m: Machine, content: seq<Byte>, sp: nat): Machine
    requires CanExecute(m, content)
  {
    Parked(m, content, sp).(callStack := m.callStack[..|m.callStack| - 1])
  }

  /** The running coroutine may yield to one on another stack. */
  ghost predicate YieldsAway(m: Machine, i: Ideal, content: seq<Byte>, sp: nat, exact: bool) {
    && Rel(m, i, exact) && Legal(m, OnYield(content, sp)) && m.cos[Running(m)].isShared
    && m.callStack[|m.callStack| - 2] in m.cos && m.cos[m.callStack[|m.callStack| - 2]].stack != m.cos[Running(m)].stack
  }

  lemma YieldAway(m: Machine, i: Ideal, content: seq<Byte>, sp: nat, entry: seq<Byte>, exact: bool)
    requires |entry| == WORD && YieldsAway(m, i, content, sp, exact)
    ensures var m0, p := Yielded(m, content, sp), m.callStack[|m.callStack| - 2];
      && Apart(m0, p, m.cos[Running(m)].stack) && Ok(m0, p) && OccupantOk(m0, p)
      && Step(m, OnYield(content, sp), entry) == Swap(m0, p, false)
  {
    var p, parked := m.callStack[|m.callStack| - 2], Parked(m, content, sp);
    YieldedShape(m, i, content, sp, exact);
    ShapeOccupant(parked, p);
    ShapeOccupant(Yielded(m, content, sp), p);
    YieldIsSwap(m, content, sp);
  }

  lemma YieldedShape(m: Machine, i: Ideal, content: seq<Byte>, sp: nat, exact: bool)
    requires YieldsAway(m, i, content, sp, exact)
    ensures Shape(Parked(m, content, sp)) && Shape(Yielded(m, content, sp))
  {
    ParkedKeepsImages(m, i.left, content, sp, exact);
    FrameImages(Parked(m, content, sp), Yielded(m, content, sp), i.left[Running(m) := content[sp..]], exact);
  }

  lemma OccupantParked(m: Machine, i: Ideal, content: seq<Byte>, sp: nat, exact: bool)
    requires YieldsAway(m, i, content, sp, exact)
    ensures var c, m0 := Running(m), Yielded(m, content, sp);
      && c !in m0.callStack && c in m0.cos && !m0.cos[c].isMain
        && m0.cos[c].stack == m.cos[c].stack && m0.cos[c].sp == sp
      && m0.stacks[m.cos[c].stack].occupant == Some(c) && m0.stacks[m.cos[c].stack].buffer == content
  {
    assert m.callStack[|m.callStack| - 1] == Running(m) && CoShape(m, Running(m));
  }

  lemma OccupantYields(m: Machine, i: Ideal, content: seq<Byte>, sp: nat, entry: seq<Byte>, exact: bool)
    requires |entry| == WORD && YieldsAway(m, i, content, sp, exact)
    ensures var c, m1 := Running(m), Step(m, OnYield(content, sp), entry);
      Occupies(m1, c) && BufferOf(m1, c) == content && m1.cos[c].stack == m.cos[c].stack
  {
    var c, p, m0 := Running(m), m.callStack[|m.callStack| - 2], Yielded(m, content, sp);
    YieldAway(m, i, content, sp, entry, exact);
    OccupantParked(m, i, content, sp, exact);
    SwapLeaves(m0, p, m.cos[c].stack);
    SwapLeavesCo(m0, p, c);
  }

  lemma OthersAsBefore(m: Machine, i: Ideal, content: seq<Byte>, sp: nat, entry: seq<Byte>, d: CoId, exact: bool)
    requires |entry| == WORD && YieldsAway(m, i, content, sp, exact)
    requires d in m.cos && d != Running(m) && m.cos[d].stack == m.cos[Running(m)].stack
    ensures d in Step(m, OnYield(content, sp), entry).cos && Step(m, OnYield(content, sp), entry).cos[d] == m.cos[d]
  {
    YieldAway(m, i, content, sp, entry, exact);
    SwapLeavesCo(Yielded(m, content, sp), m.callStack[|m.callStack| - 2], d);
  }

  /** c leaves `content` on its stack and yields, is released, and d, which was saved from that stack, is
      resumed while the stack is vacant: d sees what c has left. So it finds its own bytes only if c
      happens to have left the same. (Had another coroutine been switched in on the stack before, d
      would have got its image back, see RestoreIffOccupied.) */
  lemma ReleasedRun(m: Machine, i: Ideal, content: seq<Byte>, sp: nat, d: CoId, entry: seq<Byte>, exact: bool)
      returns (m1: Machine, m2: Machine, m3: Machine)
    requires |entry| == WORD && YieldsAway(m, i, content, sp, exact)
    requires d in m.cos && d != Running(m) && m.cos[d].stack == m.cos[Running(m)].stack && Alive(m.cos[d])
    requires d !in m.callStack
    ensures m1 == Step(m, OnYield(content, sp), entry) && MayRelease(m1, Running(m)) && m2 == Free(m1, Running(m))
    ensures HasRunning(m2) && Legal(m2, OnResume(d, Here(m2), 0)) && m3 == Step(m2, OnResume(d, Here(m2), 0), entry)
    ensures SeesIn(m3, m2.callStack + [d], content, m.cos[d].sp) && d in i.left
    ensures Running(m3) == d
    ensures Sees(m3, i, exact) <==> SameImage(content[m.cos[d].sp..], i.left[d], m.cos[d].sp, |content|, exact)
  {
    m1 := Step(m, OnYield(content, sp), entry);
    OccupantYields(m, i, content, sp, entry, exact);
    OthersAsBefore(m, i, content, sp, entry, d, exact);
    YieldKeepsRel(m, i, content, sp, exact);
    SameRel(Yield(Execute(m, content), sp), IdealStep(i, OnYield(content, sp)),
            m1, IdealStep(i, OnYield(content, sp)), exact);
    m2, m3 := ReleaseAndResume(m1, IdealStep(i, OnYield(content, sp)), Running(m), content, d, entry, exact);
    YieldStack(m, content, sp, entry);
  }

  lemma YieldStack(m: Machine, content: seq<Byte>, sp: nat, entry: seq<Byte>)
    requires |entry| == WORD && Legal(m, OnYield(content, sp))
    ensures Step(m, OnYield(content, sp), entry).callStack == m.callStack[..|m.callStack| - 1]
  {
  }

  lemma ReleaseAndResume(m: Machine, i: Ideal, c: CoId, content: seq<Byte>, d: CoId, entry: seq<Byte>, exact: bool)
      returns (m2: Machine, m3: Machine)
    requires |entry| == WORD && Rel(m, i, exact) && Occupies(m, c) && BufferOf(m, c) == content && Waits(m, c, d)
    requires d !in m.callStack
    ensures m2 == Free(m, c) && HasRunning(m2) && Legal(m2, OnResume(d, Here(m2), 0))
    ensures m3 == Step(m2, OnResume(d, Here(m2), 0), entry) && SeesIn(m3, m2.callStack + [d], content, m.cos[d].sp)
  {
    m2 := Free(m, c);
    assert LeftBy(m, c, content) == m;
    OpenAfter(m, i, c, content, d, m2, exact);
    ResumeSees(m2, m.cos[c].stack, content, d, entry);
    m3 := Step(m2, OnResume(d, Here(m2), 0), entry);
  }
}
