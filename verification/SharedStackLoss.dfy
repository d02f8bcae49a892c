/** Sharing, its undoing by a release, and the condition for a safe release, in runs from the start. */
module SharedStackLoss {
  import opened Basics
  import opened SharedStack
  import opened SharedStackProof
  import opened SharedStackTheorems
  import opened SharedStackRelease

  ghost function Start(m0: Machine): Ideal {
    Ideal(m0.callStack, map[])
  }

  lemma RunRel(m0: Machine, es: seq<Event>, entry: seq<Byte>, exact: bool)
    requires |entry| == WORD && Initial(m0) && LegalRun(m0, es, entry)
    ensures Rel(Run(m0, es, entry), RefRun(m0, Start(m0), es, entry, exact), exact)
  {
    InitialRel(m0);
    RunKeepsRel(m0, Start(m0), es, entry, exact);
  }

  /** The condition for a safe release, after any run from the start. */
  lemma ReleaseSafeInRuns(m0: Machine, es: seq<Event>, c: CoId, entry: seq<Byte>, exact: bool)
    requires |entry| == WORD && Initial(m0) && LegalRun(m0, es, entry)
    requires Occupies(Run(m0, es, entry), c) && (exact || |BufferOf(Run(m0, es, entry), c)| % 16 == 0)
    ensures NobodyElseSaved(Run(m0, es, entry), c) <==>
      SafeToLose(Run(m0, es, entry), RefRun(m0, Start(m0), es, entry, exact), c, entry, exact)
  {
    RunRel(m0, es, entry, exact);
    ReleaseSafeIff(Run(m0, es, entry), RefRun(m0, Start(m0), es, entry, exact), c, entry, exact);
  }

  // ----- two coroutines on one stack -----

  /** What a coroutine is, apart from its bytes. */
  ghost function Kind(co: CoState): CoState {
    co.(sp := 0, save := None)
  }

  ghost function OnStackOf(s: StackId, started: bool): CoState {
    Created(s, true).(started := started)
  }

  lemma SwapKind(m: Machine, p: CoId, first: bool, x: CoId)
    requires Ok(m, p) && OccupantOk(m, p) && x in m.cos
    ensures x in Swap(m, p, first).cos && Kind(Swap(m, p, first).cos[x]) == Kind(m.cos[x])
    ensures Swap(m, p, first).callStack == m.callStack
  {
  }

  ghost predicate HasSize(m: Machine, s: StackId, size: nat) {
    s in m.stacks && |m.stacks[s].buffer| == size
  }

  lemma SwapSize(m: Machine, p: CoId, first: bool, s: StackId, size: nat)
    requires Ok(m, p) && OccupantOk(m, p) && HasSize(m, s, size)
    ensures HasSize(Swap(m, p, first), s, size)
  {
  }

  lemma ResumeSize(m: Machine, c: CoId, sp: nat, entry: seq<Byte>, s: StackId, size: nat)
    requires CanResume(m, c, sp) && |entry| == WORD && HasSize(m, s, size)
    ensures HasSize(Resume(m, c, sp, entry), s, size)
  {
    var m1 := if m.cos[c].started then m else CoMake(m, c, entry);
    SwapSize(WithSp(m1, Running(m), sp).(callStack := m.callStack + [c]), c, !m.cos[c].started, s, size);
  }

  lemma YieldSize(m: Machine, sp: nat, s: StackId, size: nat)
    requires CanYield(m, sp) && HasSize(m, s, size)
    ensures HasSize(Yield(m, sp), s, size)
  {
    YieldSwaps(m, sp);
    SwapSize(Departed(m, sp), m.callStack[|m.callStack| - 2], false, s, size);
  }

  lemma ResumeKind(m: Machine, c: CoId, sp: nat, entry: seq<Byte>, x: CoId)
    requires CanResume(m, c, sp) && |entry| == WORD && x in m.cos
    ensures x in Resume(m, c, sp, entry).cos
    ensures Kind(Resume(m, c, sp, entry).cos[x]) == Kind(m.cos[x]).(started := m.cos[x].started || x == c)
    ensures Resume(m, c, sp, entry).callStack == m.callStack + [c]
  {
    var m1 := if m.cos[c].started then m else CoMake(m, c, entry);
    SwapKind(WithSp(m1, Running(m), sp).(callStack := m.callStack + [c]), c, !m.cos[c].started, x);
  }

  lemma YieldKind(m: Machine, sp: nat, x: CoId)
    requires CanYield(m, sp) && x in m.cos
    ensures x in Yield(m, sp).cos && Kind(Yield(m, sp).cos[x]) == Kind(m.cos[x])
    ensures Yield(m, sp).callStack == m.callStack[..|m.callStack| - 1]
  {
    YieldSwaps(m, sp);
    SwapKind(Departed(m, sp), m.callStack[|m.callStack| - 2], false, x);
  }

  /** x and y are on stack s, main is not. */
  ghost predicate Trio(m: Machine, main: CoId, s: StackId, x: CoId, startedX: bool, y: CoId, startedY: bool) {
    && x != y && x != main && y != main && main in m.cos && m.cos[main].stack != s
    && x in m.cos && Kind(m.cos[x]) == OnStackOf(s, startedX)
    && y in m.cos && Kind(m.cos[y]) == OnStackOf(s, startedY)
  }

  lemma FirstTurn(m: Machine, i: Ideal, main: CoId, s: StackId, x: CoId, y: CoId, startedY: bool, size: nat,
                  entry: seq<Byte>, exact: bool)
    requires |entry| == WORD && Rel(m, i, exact) && m.callStack == [main] && HasSize(m, s, size)
    requires Trio(m, main, s, x, false, y, startedY)
    ensures var e := OnResume(x, Here(m), 0);
      && Legal(m, e) && Step(m, e, entry).callStack == [main, x] && HasSize(Step(m, e, entry), s, size)
      && Trio(Step(m, e, entry), main, s, x, true, y, startedY)
  {
    ExecuteHere(m);
    ShapeOccupant(m, x);
    ResumeSize(m, x, 0, entry, s, size);
    ResumeKind(m, x, 0, entry, x);
    ResumeKind(m, x, 0, entry, y);
    ResumeKind(m, x, 0, entry, main);
  }

  lemma BackTurn(m: Machine, i: Ideal, main: CoId, s: StackId, x: CoId, y: CoId, startedY: bool, size: nat,
                 entry: seq<Byte>, exact: bool)
    requires |entry| == WORD && Rel(m, i, exact) && m.callStack == [main, x] && HasSize(m, s, size)
    requires Trio(m, main, s, x, true, y, startedY)
    ensures var e := OnYield(Here(m), 0);
      && Legal(m, e) && Step(m, e, entry).callStack == [main] && HasSize(Step(m, e, entry), s, size)
      && Trio(Step(m, e, entry), main, s, x, true, y, startedY)
  {
    ExecuteHere(m);
    ShapeOccupant(m, main);
    YieldSize(m, 0, s, size);
    YieldKind(m, 0, x);
    YieldKind(m, 0, y);
    YieldKind(m, 0, main);
  }

  // ----- a run that loses bytes -----

  /** c may be released now, and if d is resumed then it does not see the bytes it left. */
  ghost predicate LostNow(m: Machine, i: Ideal, c: CoId, d: CoId, entry: seq<Byte>, exact: bool)
    requires |entry| == WORD
  {
    && MayRelease(m, c)
    && var m2 := Free(m, c);
      && HasRunning(m2) && Legal(m2, OnResume(d, Here(m2), 0))
      && !Sees(Step(m2, OnResume(d, Here(m2), 0), entry), i, exact)
  }

  ghost predicate Loses(m: Machine, i: Ideal, es: seq<Event>, c: CoId, d: CoId, entry: seq<Byte>, exact: bool)
    requires |entry| == WORD
  {
    LegalRun(m, es, entry) && LostNow(Run(m, es, entry), RefRun(m, i, es, entry, exact), c, d, entry, exact)
  }

  lemma LosesLater(m: Machine, i: Ideal, e: Event, rest: seq<Event>, c: CoId, d: CoId, entry: seq<Byte>, exact: bool)
    requires |entry| == WORD && Rel(m, i, exact) && Legal(m, e)
    requires Loses(Step(m, e, entry), RefStep(m, i, e, entry, exact), rest, c, d, entry, exact)
    ensures Loses(m, i, [e] + rest, c, d, entry, exact)
  {
    assert ([e] + rest)[1..] == rest;
  }

  lemma LosesAtOnce(m: Machine, i: Ideal, e: Event, c: CoId, d: CoId, entry: seq<Byte>, exact: bool)
    requires |entry| == WORD && Rel(m, i, exact) && Legal(m, e)
    requires LostNow(Step(m, e, entry), RefStep(m, i, e, entry, exact), c, d, entry, exact)
    ensures Loses(m, i, [e], c, d, entry, exact)
  {
    assert [e][1..] == [];
  }

  /** c runs on the stack from which d was saved. */
  ghost predicate BothOn(m: Machine, main: CoId, s: StackId, c: CoId, d: CoId) {
    m.callStack == [main, c] && Trio(m, main, s, c, true, d, true)
  }

  lemma BothYieldsAway(m: Machine, i: Ideal, main: CoId, s: StackId, c: CoId, d: CoId, content: seq<Byte>, exact: bool)
    requires Rel(m, i, exact) && BothOn(m, main, s, c, d) && |content| == |BufferOf(m, c)|
    ensures YieldsAway(m, i, content, 0, exact)
  {
    ShapeOccupant(m, main);
  }

  lemma BothLose(m: Machine, i: Ideal, main: CoId, s: StackId, c: CoId, d: CoId, entry: seq<Byte>, exact: bool)
      returns (e: Event)
    requires |entry| == WORD && Rel(m, i, exact) && BothOn(m, main, s, c, d)
    requires exact || |BufferOf(m, c)| % 16 == 0
    ensures Legal(m, e) && LostNow(Step(m, e, entry), RefStep(m, i, e, entry, exact), c, d, entry, exact)
  {
    assert Placed(m, d, i.left[d], exact);
    var content := Unlike(i.left[d], |BufferOf(m, d)|, m.cos[d].sp, exact);
    e := OnYield(content, 0);
    BothYieldsAway(m, i, main, s, c, d, content, exact);
    var m1, m2, m3 := ReleasedRun(m, i, content, 0, d, entry, exact);
    assert RefStep(m, i, e, entry, exact).left[d] == i.left[d];
  }

  // From the last turn of the run to the first.

  lemma SecondLoses(m: Machine, i: Ideal, main: CoId, s: StackId, c: CoId, d: CoId, size: nat, entry: seq<Byte>,
                    exact: bool)
      returns (es: seq<Event>)
    requires |entry| == WORD && Rel(m, i, exact) && m.callStack == [main] && HasSize(m, s, size)
    requires Trio(m, main, s, c, false, d, true) && (exact || size % 16 == 0)
    ensures Loses(m, i, es, c, d, entry, exact)
  {
    var e := OnResume(c, Here(m), 0);
    FirstTurn(m, i, main, s, c, d, true, size, entry, exact);
    StepKeepsRel(m, i, e, entry, exact);
    var m', i' := Step(m, e, entry), RefStep(m, i, e, entry, exact);
    assert CoShape(m', c);
    var last := BothLose(m', i', main, s, c, d, entry, exact);
    LosesAtOnce(m', i', last, c, d, entry, exact);
    LosesLater(m, i, e, [last], c, d, entry, exact);
    es := [e] + [last];
  }

  lemma BackLoses(m: Machine, i: Ideal, main: CoId, s: StackId, c: CoId, d: CoId, size: nat, entry: seq<Byte>,
                  exact: bool)
      returns (es: seq<Event>)
    requires |entry| == WORD && Rel(m, i, exact) && m.callStack == [main, d] && HasSize(m, s, size)
    requires Trio(m, main, s, d, true, c, false) && (exact || size % 16 == 0)
    ensures Loses(m, i, es, c, d, entry, exact)
  {
    var e := OnYield(Here(m), 0);
    BackTurn(m, i, main, s, d, c, false, size, entry, exact);
    StepKeepsRel(m, i, e, entry, exact);
    var rest := SecondLoses(Step(m, e, entry), RefStep(m, i, e, entry, exact), main, s, c, d, size, entry, exact);
    LosesLater(m, i, e, rest, c, d, entry, exact);
    es := [e] + rest;
  }

  lemma TwoLose(m: Machine, i: Ideal, main: CoId, s: StackId, c: CoId, d: CoId, size: nat, entry: seq<Byte>,
                exact: bool)
      returns (es: seq<Event>)
    requires |entry| == WORD && Rel(m, i, exact) && m.callStack == [main] && HasSize(m, s, size)
    requires Trio(m, main, s, d, false, c, false) && (exact || size % 16 == 0)
    ensures Loses(m, i, es, c, d, entry, exact)
  {
    var e := OnResume(d, Here(m), 0);
    FirstTurn(m, i, main, s, d, c, false, size, entry, exact);
    StepKeepsRel(m, i, e, entry, exact);
    var rest := BackLoses(Step(m, e, entry), RefStep(m, i, e, entry, exact), main, s, c, d, size, entry, exact);
    LosesLater(m, i, e, rest, c, d, entry, exact);
    es := [e] + rest;
  }

  lemma BothCreated(m0: Machine, main: CoId, s: StackId, c: CoId, d: CoId, entry: seq<Byte>)
    requires |entry| == WORD && Initial(m0) && m0.callStack == [main] && c != d && c !in m0.cos && d !in m0.cos
    requires s in m0.stacks && m0.stacks[s].owner == None && |m0.stacks[s].buffer| >= WORD
    ensures var e1, e2 := OnCreateShared(d, s), OnCreateShared(c, s);
      && Legal(m0, e1) && Legal(Step(m0, e1, entry), e2)
      && var m := Step(Step(m0, e1, entry), e2, entry);
        && m.callStack == [main] && HasSize(m, s, |m0.stacks[s].buffer|)
        && Trio(m, main, s, d, false, c, false)
  {
  }

  /** From every initial state with an unused stack in a share group: two coroutines are created on it,
      one runs and yields, the other runs and yields, and is released; resumed then, the first one does not
      see the bytes it left. */
  lemma ReleaseCanLose(m0: Machine, s: StackId, c: CoId, d: CoId, entry: seq<Byte>, exact: bool)
      returns (es: seq<Event>)
    requires |entry| == WORD && Initial(m0) && c != d && c !in m0.cos && d !in m0.cos
    requires s in m0.stacks && m0.stacks[s].owner == None && |m0.stacks[s].buffer| >= WORD
    requires exact || |m0.stacks[s].buffer| % 16 == 0
    ensures Loses(m0, Start(m0), es, c, d, entry, exact)
  {
    var main, e1, e2 := m0.callStack[0], OnCreateShared(d, s), OnCreateShared(c, s);
    var m1, i := Step(m0, e1, entry), Start(m0);
    BothCreated(m0, main, s, c, d, entry);
    InitialRel(m0);
    StepKeepsRel(m0, i, e1, entry, exact);
    StepKeepsRel(m1, i, e2, entry, exact);
    var rest := TwoLose(Step(m1, e2, entry), i, main, s, c, d, |m0.stacks[s].buffer|, entry, exact);
    LosesLater(m1, i, e2, rest, c, d, entry, exact);
    LosesLater(m0, i, e1, [e2] + rest, c, d, entry, exact);
    es := [e1] + ([e2] + rest);
  }
}
