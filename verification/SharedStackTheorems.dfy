/** What the simulation of module SharedStackProof means for whole schedules, and exactly when the
    two ways of spoiling an image do so. */
module SharedStackTheorems {
  import opened Basics
  import opened SharedStack
  import opened SharedStackProof

  /** Only the main coroutine exists; every other stack belongs to a share-stack pool and is unused. */
  ghost predicate Initial(m: Machine) {
    && |m.callStack| == 1 && m.cos.Keys == {m.callStack[0]} && Ok(m, m.callStack[0])
    && var main := m.callStack[0];
      && m.cos[main].isMain && !m.cos[main].isShared && !m.cos[main].ended
      && m.stacks[m.cos[main].stack].owner == Some(main)
      && forall s :: s in m.stacks ==> m.stacks[s].occupant == None
  }

  ghost predicate LegalRun(m: Machine, es: seq<Event>, entry: seq<Byte>)
    requires |entry| == WORD
    decreases |es|
  {
    es == [] || (Legal(m, es[0]) && LegalRun(Step(m, es[0], entry), es[1..], entry))
  }

  ghost function Run(m: Machine, es: seq<Event>, entry: seq<Byte>): Machine
    requires |entry| == WORD && LegalRun(m, es, entry)
    decreases |es|
  {
    if es == [] then m else Run(Step(m, es[0], entry), es[1..], entry)
  }

  /** The reference for a whole schedule, defined without stacks. */
  ghost function IdealRun(i: Ideal, es: seq<Event>): Ideal
    decreases |es|
  {
    if es == [] || i.callStack == [] then i else IdealRun(IdealStep(i, es[0]), es[1..])
  }

  /** The same with what first starts write over, if that is wanted. */
  ghost function RefRun(m: Machine, i: Ideal, es: seq<Event>, entry: seq<Byte>, exact: bool): Ideal
    requires |entry| == WORD && LegalRun(m, es, entry)
    decreases |es|
  {
    if es == [] || i.callStack == [] then i
    else RefRun(Step(m, es[0], entry), RefStep(m, i, es[0], entry, exact), es[1..], entry, exact)
  }

  lemma {:induction false} RefRunIsIdeal(m: Machine, i: Ideal, es: seq<Event>, entry: seq<Byte>)
    requires |entry| == WORD && LegalRun(m, es, entry)
    ensures RefRun(m, i, es, entry, false) == IdealRun(i, es)
    decreases |es|
  {
    if es != [] && i.callStack != [] {
      RefRunIsIdeal(Step(m, es[0], entry), IdealStep(i, es[0]), es[1..], entry);
    }
  }

  lemma {:induction false} RunKeepsRel(m: Machine, i: Ideal, es: seq<Event>, entry: seq<Byte>, exact: bool)
    requires |entry| == WORD && Rel(m, i, exact) && LegalRun(m, es, entry)
    ensures Rel(Run(m, es, entry), RefRun(m, i, es, entry, exact), exact)
    decreases |es|
  {
    if es != [] {
      StepKeepsRel(m, i, es[0], entry, exact);
      RunKeepsRel(Step(m, es[0], entry), RefStep(m, i, es[0], entry, exact), es[1..], entry, exact);
    }
  }

  lemma InitialRel(m: Machine)
    requires Initial(m)
    ensures Rel(m, Ideal(m.callStack, map[]), true) && Rel(m, Ideal(m.callStack, map[]), false)
  {
  }

  /** Over every schedule of creates, resumes (nested or not), yields, ends, and resets and releases
      that respect the side condition: the same coroutine is running as in the reference machine, and
      when it has control back it sees the bytes it left, outside the entry word. */
  lemma SharedStacksLookPrivate(m0: Machine, es: seq<Event>, entry: seq<Byte>)
    requires |entry| == WORD && Initial(m0) && LegalRun(m0, es, entry)
    ensures var m, i := Run(m0, es, entry), IdealRun(Ideal(m0.callStack, map[]), es);
      && m.callStack == i.callStack && HasRunning(m)
      && var me := Running(m);
        me in i.left ==> SameImage(Seen(m, me), i.left[me], m.cos[me].sp, |BufferOf(m, me)|, false)
  {
    InitialRel(m0);
    RunKeepsRel(m0, Ideal(m0.callStack, map[]), es, entry, false);
    RefRunIsIdeal(m0, Ideal(m0.callStack, map[]), es, entry);
    RunningSeesLeft(Run(m0, es, entry), IdealRun(Ideal(m0.callStack, map[]), es), false);
  }

  lemma RunningSeesLeft(m: Machine, i: Ideal, exact: bool)
    requires Rel(m, i, exact)
    ensures Running(m) in i.left ==>
      SameImage(Seen(m, Running(m)), i.left[Running(m)], m.cos[Running(m)].sp, |BufferOf(m, Running(m))|, exact)
  {
    if Running(m) in i.left {
      assert Placed(m, Running(m), i.left[Running(m)], exact);
    }
  }

  /** The topmost 16-aligned word of 8 bytes that fits below the end of a stack. */
  predicate TopWord(slot: nat, size: nat) {
    slot % 16 == 0 && slot + 8 <= size < slot + 24
  }

  lemma TopWordIsEntrySlot(slot: nat, size: nat)
    requires TopWord(slot, size)
    ensures size >= WORD && slot == EntrySlot(size)
  {
  }

  /** coctx_make writes the entry address there, and nothing else. */
  lemma MakeWritesTopWord(m: Machine, c: CoId, entry: seq<Byte>, slot: nat)
    requires Ok(m, c) && |entry| == WORD && TopWord(slot, |BufferOf(m, c)|)
    ensures |entry| == 8
    ensures var b, m' := BufferOf(m, c), CoMake(m, c, entry);
      && Ok(m', c) && |BufferOf(m', c)| == |b| && BufferOf(m', c)[slot..slot + 8] == entry
      && forall k :: 0 <= k < |b| && !(slot <= k < slot + 8) ==> BufferOf(m', c)[k] == b[k]
  {
    TopWordIsEntrySlot(slot, |BufferOf(m, c)|);
  }

  /** The first start of c on a stack with an occupant: what is saved for the occupant is what it had
      there with the topmost aligned word overwritten, so it is exactly what it had if and only if that word
      already held the entry address. The occupant may be the coroutine that starts c. */
  lemma FirstStartStampsOccupant(m: Machine, c: CoId, sp: nat, entry: seq<Byte>, slot: nat)
    requires |entry| == WORD && CanResume(m, c, sp) && !m.cos[c].started && m.cos[c].isShared
    requires OccupantOf(m, c).Some? && OccupantOf(m, c).value != c && TopWord(slot, |BufferOf(m, c)|)
    requires m.cos[OccupantOf(m, c).value].stack == m.cos[c].stack
    ensures var o, m' := OccupantOf(m, c).value, Resume(m, c, sp, entry);
      var from, b := if o == Running(m) then sp else m.cos[o].sp, BufferOf(m, o);
      && from <= slot && m'.cos[o].save == Some((b[..slot] + entry + b[slot + WORD..])[from..])
      && (m'.cos[o].save == Some(b[from..]) <==> b[slot..slot + WORD] == entry)
  {
    var o := OccupantOf(m, c).value;
    TopWordIsEntrySlot(slot, |BufferOf(m, o)|);
    OverwriteChanges(BufferOf(m, o), entry, slot, if o == Running(m) then sp else m.cos[o].sp);
  }

  lemma OverwriteChanges(b: seq<Byte>, entry: seq<Byte>, slot: nat, from: nat)
    requires |entry| == WORD && from <= slot && slot + WORD <= |b|
    ensures (b[..slot] + entry + b[slot + WORD..])[from..] == b[from..] <==> b[slot..slot + WORD] == entry
  {
    var r := b[..slot] + entry + b[slot + WORD..];
    if b[slot..slot + WORD] == entry {
      assert r == b;
    } else {
      var k :| 0 <= k < WORD && b[slot..slot + WORD][k] != entry[k];
      assert r[from..][slot - from + k] == entry[k] && b[from..][slot - from + k] == b[slot..slot + WORD][k];
    }
  }

  // ----- creation, reset and release undo each other -----

  /** A coroutine that is created and released again has left no trace, on a shared or a private stack. */
  lemma CreateThenFree(m: Machine, c: CoId, s: StackId, buffer: seq<Byte>)
    requires c !in m.cos && |buffer| >= WORD
    ensures s in m.stacks && |m.stacks[s].buffer| >= WORD && m.stacks[s].occupant != Some(c) ==>
      Free(CreateShared(m, c, s), c) == m
    ensures s !in m.stacks ==> Free(CreatePrivate(m, c, s, buffer), c) == m
  {
    if s in m.stacks {
      assert CreateShared(m, c, s).cos - {c} == m.cos;
    } else {
      assert CreatePrivate(m, c, s, buffer).cos - {c} == m.cos;
      assert CreatePrivate(m, c, s, buffer).stacks - {s} == m.stacks;
    }
  }

  /** A reset puts a coroutine that was started back to what it was when it was created, so that it can be
      resumed from the start again, ended or not; it leaves main and one that was not started alone. */
  lemma ResetIsNew(m: Machine, c: CoId, sp: nat)
    requires Ok(m, c)
    ensures m.cos[c].isMain || !m.cos[c].started ==> Reset(m, c) == m
    ensures !m.cos[c].isMain && m.cos[c].started ==>
      var m', co := Reset(m, c), m.cos[c];
      && c in m'.cos && m'.cos[c] == CoState(co.stack, co.isShared, false, false, false, co.sp, None)
      && (forall d :: d in m.cos && d != c ==> d in m'.cos && m'.cos[d] == m.cos[d])
      && m'.stacks.Keys == m.stacks.Keys
      && (forall s :: s in m.stacks && s != co.stack ==> m'.stacks[s] == m.stacks[s])
      && m'.stacks[co.stack].buffer == BufferOf(m, c)
      && m'.stacks[co.stack].occupant == (if OccupantOf(m, c) == Some(c) then None else OccupantOf(m, c))
      && (RoomFor(m, sp) && Shape(m) && c !in m.callStack ==> CanResume(m', c, sp))
  {
    if !m.cos[c].isMain && m.cos[c].started && RoomFor(m, sp) && Shape(m) && c !in m.callStack {
      ShapeOccupant(m, c);
    }
  }

  // ----- the side condition on reset and release -----

  /** A coroutine whose image is in its save buffer gets it back whatever is on the stack, if and only
      if the stack has an occupant at that moment. */
  lemma RestoreIffOccupied(m: Machine, p: CoId)
    requires Ok(m, p) && OccupantOk(m, p) && m.cos[p].isShared && OccupantOf(m, p) != Some(p)
    requires m.cos[p].save.Some? && |m.cos[p].save.value| == |BufferOf(m, p)| - m.cos[p].sp
    ensures OccupantOf(m, p) != None <==>
      forall junk: seq<Byte> :: |junk| == |BufferOf(m, p)| ==> GetsBack(m, p, junk)
  {
    var size, image := |BufferOf(m, p)|, m.cos[p].save.value;
    if OccupantOf(m, p) != None {
      forall junk: seq<Byte> | |junk| == size ensures GetsBack(m, p, junk) {
        var m1 := WithBuffer(m, m.cos[p].stack, junk);
        assert Seen(Swap(m1, p, false), p) == image;
      }
    } else {
      var other: Byte := if image[0] == 0 then 1 else 0;
      var junk := seq(size, _ => other);
      assert Seen(Swap(WithBuffer(m, m.cos[p].stack, junk), p, false), p)[0] == other;
      assert !GetsBack(m, p, junk);
    }
  }

  /** With `junk` on its stack, p would find its saved image after a switch to it. */
  ghost predicate GetsBack(m: Machine, p: CoId, junk: seq<Byte>)
    requires Ok(m, p) && OccupantOk(m, p) && |junk| == |BufferOf(m, p)|
  {
    var m' := Swap(WithBuffer(m, m.cos[p].stack, junk), p, false);
    Ok(m', p) && m.cos[p].save == Some(Seen(m', p))
  }
}
