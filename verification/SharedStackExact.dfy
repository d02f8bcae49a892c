/** Byte for byte what a coroutine gets back: what it left, except for the entry word when the first
    start of another coroutine has written over it. */
module SharedStackExact {
  import opened Basics
  import opened SharedStack
  import opened SharedStackProof
  import opened SharedStackTheorems

  /** e writes the entry word over the bytes of d: the first start of another coroutine on the stack that
      d occupies. */
  ghost predicate Stamps(m: Machine, e: Event, d: CoId) {
    FirstStart(m, e) && e.c != d && Ok(m, e.c) && OccupantOf(m, e.c) == Some(d)
  }

  /** d loses control and so leaves new bytes. */
  ghost predicate Leaves(m: Machine, e: Event, d: CoId) {
    HasRunning(m) && Running(m) == d && (e.OnResume? || e.OnYield? || e.OnFinish?)
  }

  ghost predicate NeverLeaves(m: Machine, es: seq<Event>, entry: seq<Byte>, d: CoId)
    requires |entry| == WORD && LegalRun(m, es, entry)
    decreases |es|
  {
    es == [] || (!Leaves(m, es[0], d) && NeverLeaves(Step(m, es[0], entry), es[1..], entry, d))
  }

  /** At some turn of the run the entry word was written over the bytes of d, which has not lost control
      since, though it may have done so in that very turn, before the word was written. */
  ghost predicate WasStamped(m: Machine, es: seq<Event>, entry: seq<Byte>, d: CoId)
    requires |entry| == WORD && LegalRun(m, es, entry)
    decreases |es|
  {
    es != [] &&
    var m' := Step(m, es[0], entry);
    WasStamped(m', es[1..], entry, d) || (Stamps(m, es[0], d) && NeverLeaves(m', es[1..], entry, d))
  }

  /** Whose bytes carry the entry word, after one more turn. */
  ghost function MarkStep(m: Machine, marks: set<CoId>, e: Event): set<CoId> {
    (set d | d in marks && !Leaves(m, e, d)) + (set d | d in m.cos && Stamps(m, e, d))
  }

  ghost function MarksRun(m: Machine, marks: set<CoId>, es: seq<Event>, entry: seq<Byte>): set<CoId>
    requires |entry| == WORD && LegalRun(m, es, entry)
    decreases |es|
  {
    if es == [] then marks else MarksRun(Step(m, es[0], entry), MarkStep(m, marks, es[0]), es[1..], entry)
  }

  lemma {:induction false} MarkedIff(m: Machine, i: Ideal, marks: set<CoId>, es: seq<Event>, entry: seq<Byte>, d: CoId)
    requires |entry| == WORD && Rel(m, i, false) && LegalRun(m, es, entry)
    ensures d in MarksRun(m, marks, es, entry) <==>
      WasStamped(m, es, entry, d) || (d in marks && NeverLeaves(m, es, entry, d))
    decreases |es|
  {
    if es != [] {
      StepKeepsRel(m, i, es[0], entry, false);
      var i' := RefStep(m, i, es[0], entry, false);
      MarkedIff(Step(m, es[0], entry), i', MarkStep(m, marks, es[0]), es[1..], entry, d);
      if Stamps(m, es[0], d) { ShapeOccupant(m, es[0].c); }
    }
  }

  ghost function ShownImage(m: Machine, d: CoId, image: seq<Byte>, marked: bool, entry: seq<Byte>): seq<Byte>
    requires |entry| == WORD
  {
    if marked && d in m.cos then StampImage(image, m.cos[d].sp, entry) else image
  }

  /** What was left, with the entry word written over the bytes of the marked ones. */
  ghost function Shown(m: Machine, i: Ideal, marks: set<CoId>, entry: seq<Byte>): Ideal
    requires |entry| == WORD
  {
    i.(left := map d | d in i.left :: ShownImage(m, d, i.left[d], d in marks, entry))
  }

  lemma StampTwice(image: seq<Byte>, sp: nat, entry: seq<Byte>)
    requires |entry| == WORD
    ensures StampImage(StampImage(image, sp, entry), sp, entry) == StampImage(image, sp, entry)
  {
  }

  lemma SwapKeepsSp(m: Machine, p: CoId, first: bool, d: CoId)
    requires Ok(m, p) && OccupantOk(m, p) && d in m.cos
    ensures d in Swap(m, p, first).cos && Swap(m, p, first).cos[d].sp == m.cos[d].sp
  {
  }

  lemma ResumeSp(m: Machine, c: CoId, sp: nat, entry: seq<Byte>, d: CoId)
    requires CanResume(m, c, sp) && |entry| == WORD && d in m.cos
    ensures d in Resume(m, c, sp, entry).cos
    ensures Resume(m, c, sp, entry).cos[d].sp == if d == Running(m) then sp else m.cos[d].sp
  {
    var m1 := if m.cos[c].started then m else CoMake(m, c, entry);
    SwapKeepsSp(WithSp(m1, Running(m), sp).(callStack := m.callStack + [c]), c, !m.cos[c].started, d);
  }

  lemma YieldSp(m: Machine, sp: nat, d: CoId)
    requires CanYield(m, sp) && d in m.cos
    ensures d in Yield(m, sp).cos && Yield(m, sp).cos[d].sp == if d == Running(m) then sp else m.cos[d].sp
  {
    YieldSwaps(m, sp);
    SwapKeepsSp(Departed(m, sp), m.callStack[|m.callStack| - 2], false, d);
  }

  /** A coroutine that does not lose control keeps its stack pointer; one that does stays around. */
  ghost predicate SpAfter(m: Machine, e: Event, entry: seq<Byte>, d: CoId)
    requires |entry| == WORD && Legal(m, e)
  {
    d in m.cos && d in Step(m, e, entry).cos ==>
      Step(m, e, entry).cos[d].sp == if Leaves(m, e, d) then e.sp else m.cos[d].sp
  }

  lemma ResumeTurnSp(m: Machine, e: Event, entry: seq<Byte>, d: CoId)
    requires |entry| == WORD && HasRunning(m) && Legal(m, e) && e.OnResume?
    ensures SpAfter(m, e, entry, d)
  {
    if d in m.cos { ResumeSp(Execute(m, e.content), e.c, e.sp, entry, d); }
  }

  lemma YieldTurnSp(m: Machine, e: Event, entry: seq<Byte>, d: CoId)
    requires |entry| == WORD && HasRunning(m) && Legal(m, e) && e.OnYield?
    ensures SpAfter(m, e, entry, d)
  {
    if d in m.cos { YieldSp(Execute(m, e.content), e.sp, d); }
  }

  lemma FinishTurnSp(m: Machine, e: Event, entry: seq<Byte>, d: CoId)
    requires |entry| == WORD && HasRunning(m) && Legal(m, e) && e.OnFinish?
    ensures SpAfter(m, e, entry, d)
  {
    if d in m.cos {
      var m1 := WithEnded(Execute(m, e.content), Running(m));
      assert CanYield(m1, e.sp) && Running(m1) == Running(m);
      YieldSp(m1, e.sp, d);
    }
  }

  lemma QuietTurnSp(m: Machine, e: Event, entry: seq<Byte>, d: CoId)
    requires |entry| == WORD && HasRunning(m) && Legal(m, e) && !e.OnResume? && !e.OnYield? && !e.OnFinish?
    ensures SpAfter(m, e, entry, d)
  {
  }

  lemma SpKept(m: Machine, e: Event, entry: seq<Byte>, d: CoId)
    requires |entry| == WORD && HasRunning(m) && Legal(m, e)
    ensures SpAfter(m, e, entry, d)
  {
    if e.OnResume? {
      ResumeTurnSp(m, e, entry, d);
    } else if e.OnYield? {
      YieldTurnSp(m, e, entry, d);
    } else if e.OnFinish? {
      FinishTurnSp(m, e, entry, d);
    } else {
      QuietTurnSp(m, e, entry, d);
    }
  }

  lemma IdealLeftAt(m: Machine, i: Ideal, e: Event, d: CoId)
    requires HasRunning(m) && i.callStack == m.callStack && d in IdealStep(i, e).left
    ensures Leaves(m, e, d) ==> IdealStep(i, e).left[d] == LeftBehind(e.content, e.sp)
    ensures !Leaves(m, e, d) ==> d in i.left && IdealStep(i, e).left[d] == i.left[d]
  {
  }

  lemma IdealLeftKeys(m: Machine, i: Ideal, j: Ideal, e: Event)
    requires HasRunning(m) && i.callStack == m.callStack == j.callStack && i.left.Keys == j.left.Keys
    ensures IdealStep(i, e).left.Keys == IdealStep(j, e).left.Keys
    ensures IdealStep(i, e).callStack == IdealStep(j, e).callStack
  {
  }

  lemma RefKeys(m: Machine, i: Ideal, e: Event, entry: seq<Byte>)
    requires |entry| == WORD && HasRunning(m) && Legal(m, e) && i.callStack == m.callStack
    ensures RefStep(m, i, e, entry, true).left.Keys == IdealStep(i, e).left.Keys
    ensures RefStep(m, i, e, entry, true).callStack == IdealStep(i, e).callStack
  {
  }

  /** What the exact reference has for d after a turn. */
  lemma RefLeftAt(m: Machine, i: Ideal, e: Event, entry: seq<Byte>, d: CoId)
    requires |entry| == WORD && HasRunning(m) && Legal(m, e) && i.callStack == m.callStack
    requires d in IdealStep(i, e).left && d in m.cos && d in Step(m, e, entry).cos
    requires FirstStart(m, e) ==> e.c != d
    ensures d in RefStep(m, i, e, entry, true).left
    ensures RefStep(m, i, e, entry, true).left[d] ==
      ShownImage(Step(m, e, entry), d, IdealStep(i, e).left[d], Stamps(m, e, d), entry)
  {
    SpKept(m, e, entry, d);
    RefKeys(m, i, e, entry);
    if FirstStart(m, e) {
      ParkedFor(m, e, d);
    }
  }

  lemma ParkedFor(m: Machine, e: Event, d: CoId)
    requires HasRunning(m) && Legal(m, e) && FirstStart(m, e) && d in m.cos && e.c != d
    ensures var parked := Parked(m, e.content, e.sp);
      && Ok(parked, e.c) && (OccupantOf(parked, e.c) == Some(d) <==> Stamps(m, e, d))
      && d in parked.cos && parked.cos[d].sp == if Leaves(m, e, d) then e.sp else m.cos[d].sp
  {
  }
  lemma StepShowsOne(m: Machine, i: Ideal, marks: set<CoId>, e: Event, entry: seq<Byte>, d: CoId)
    requires |entry| == WORD && HasRunning(m) && Legal(m, e) && i.callStack == m.callStack
    requires d in IdealStep(i, e).left && d in m.cos && d in Step(m, e, entry).cos
    requires FirstStart(m, e) ==> e.c != d
    ensures var r := RefStep(m, Shown(m, i, marks, entry), e, entry, true);
      && d in r.left
      && r.left[d] ==
        ShownImage(Step(m, e, entry), d, IdealStep(i, e).left[d], d in MarkStep(m, marks, e), entry)
  {
    var j := Shown(m, i, marks, entry);
    IdealLeftKeys(m, i, j, e);
    IdealLeftAt(m, i, e, d);
    IdealLeftAt(m, j, e, d);
    RefLeftAt(m, j, e, entry, d);
    SpKept(m, e, entry, d);
    StampTwice(IdealStep(i, e).left[d], Step(m, e, entry).cos[d].sp, entry);
  }

  lemma IsShown(r: Ideal, m: Machine, i: Ideal, marks: set<CoId>, entry: seq<Byte>)
    requires |entry| == WORD && r.callStack == i.callStack && r.left.Keys == i.left.Keys
    requires forall d :: d in i.left ==> r.left[d] == ShownImage(m, d, i.left[d], d in marks, entry)
    ensures r == Shown(m, i, marks, entry)
  {
    assert r.left == Shown(m, i, marks, entry).left;
  }

  /** One turn, seen through the marks: the exact reference is what was left, with the entry word. */
  lemma StepShows(m: Machine, i: Ideal, marks: set<CoId>, e: Event, entry: seq<Byte>)
    requires |entry| == WORD && Rel(m, Shown(m, i, marks, entry), true) && Legal(m, e)
    ensures RefStep(m, Shown(m, i, marks, entry), e, entry, true) ==
      Shown(Step(m, e, entry), IdealStep(i, e), MarkStep(m, marks, e), entry)
  {
    var j := Shown(m, i, marks, entry);
    IdealLeftKeys(m, i, j, e);
    RefKeys(m, j, e, entry);
    forall d | d in IdealStep(i, e).left
      ensures RefStep(m, j, e, entry, true).left[d] ==
        ShownImage(Step(m, e, entry), d, IdealStep(i, e).left[d], d in MarkStep(m, marks, e), entry)
    {
      StillThere(m, j, e, entry, d);
      StepShowsOne(m, i, marks, e, entry, d);
    }
    IsShown(RefStep(m, j, e, entry, true), Step(m, e, entry), IdealStep(i, e), MarkStep(m, marks, e), entry);
  }

  lemma StillThere(m: Machine, i: Ideal, e: Event, entry: seq<Byte>, d: CoId)
    requires |entry| == WORD && Rel(m, i, true) && Legal(m, e) && d in IdealStep(i, e).left
    ensures d in m.cos && d in Step(m, e, entry).cos && (FirstStart(m, e) ==> e.c != d)
  {
    RefKeys(m, i, e, entry);
    StepKeepsRel(m, i, e, entry, true);
    assert Placed(Step(m, e, entry), d, RefStep(m, i, e, entry, true).left[d], true);
    if d in i.left {
      assert Placed(m, d, i.left[d], true);
    }
    if FirstStart(m, e) {
      assert m.callStack[|m.callStack| - 1] == Running(m);
    }
  }

  lemma {:induction false} RunShows(m: Machine, i: Ideal, marks: set<CoId>, es: seq<Event>, entry: seq<Byte>)
    requires |entry| == WORD && Rel(m, Shown(m, i, marks, entry), true) && LegalRun(m, es, entry)
    ensures RefRun(m, Shown(m, i, marks, entry), es, entry, true) ==
      Shown(Run(m, es, entry), IdealRun(i, es), MarksRun(m, marks, es, entry), entry)
    decreases |es|
  {
    if es != [] {
      StepShows(m, i, marks, es[0], entry);
      StepKeepsRel(m, Shown(m, i, marks, entry), es[0], entry, true);
      RunShows(Step(m, es[0], entry), IdealStep(i, es[0]), MarkStep(m, marks, es[0]), es[1..], entry);
    }
  }

  /** Over every schedule, a coroutine that has control back sees exactly what it left, with the entry
      word written over if and only if another coroutine has been first started on its stack while it was
      the occupant. */
  lemma SharedStacksLookPrivateExactly(m0: Machine, es: seq<Event>, entry: seq<Byte>)
    requires |entry| == WORD && Initial(m0) && LegalRun(m0, es, entry)
    ensures var m, i := Run(m0, es, entry), IdealRun(Ideal(m0.callStack, map[]), es);
      && m.callStack == i.callStack && HasRunning(m)
      && var me := Running(m);
        me in i.left ==>
          Seen(m, me) ==
            if WasStamped(m0, es, entry, me) then StampImage(i.left[me], m.cos[me].sp, entry) else i.left[me]
  {
    var i0, m := Ideal(m0.callStack, map[]), Run(m0, es, entry);
    InitialRel(m0);
    assert Shown(m0, i0, {}, entry) == i0;
    RunKeepsRel(m0, i0, es, entry, true);
    RunShows(m0, i0, {}, es, entry);
    var j := Shown(m, IdealRun(i0, es), MarksRun(m0, {}, es, entry), entry);
    RunningSeesLeft(m, j, true);
    MarkedIff(m0, i0, {}, es, entry, Running(m));
  }
}
