/** Coroutines that share stack buffers behave as if every one had its own.

    The reference machine is Ideal: it has no stacks, no occupants and no save buffers, it just
    remembers the bytes each coroutine left when it lost control. */
module SharedStackProof {
  import opened Basics
  import opened SharedStack

  datatype Ideal = Ideal(callStack: seq<CoId>, left: map<CoId, seq<Byte>>)

  /** One turn of a schedule. `content` is what the stack buffer of the running coroutine holds when
      it gives control away, and `sp` its stack pointer then; both are arbitrary. */
  datatype Event =
    | OnCreateShared(c: CoId, s: StackId)
    | OnCreatePrivate(c: CoId, s: StackId, content: seq<Byte>)
    | OnResume(c: CoId, content: seq<Byte>, sp: nat)
    | OnYield(content: seq<Byte>, sp: nat)
    | OnFinish(content: seq<Byte>, sp: nat)
    | OnReset(c: CoId)
    | OnFree(c: CoId)

  /** A coroutine that has a suspended computation worth coming back to. */
  ghost predicate Alive(co: CoState) {
    (co.started || co.isMain) && !co.ended
  }

  /** The side condition: the occupant of a stack may only be reset or released when no other
      coroutine has its image saved from that stack. */
  ghost predicate NobodyElseSaved(m: Machine, c: CoId)
    requires Ok(m, c)
  {
    OccupantOf(m, c) == Some(c) ==>
      forall d :: d in m.cos && d != c && m.cos[d].stack == m.cos[c].stack ==> !Alive(m.cos[d])
  }

  ghost predicate CanRelease(m: Machine, c: CoId) {
    Ok(m, c) && !m.cos[c].isMain && c !in m.callStack && NobodyElseSaved(m, c)
  }

  ghost predicate Legal(m: Machine, e: Event) {
    match e
    case OnCreateShared(c, s) =>
      c !in m.cos && s in m.stacks && |m.stacks[s].buffer| >= WORD && m.stacks[s].owner == None
    case OnCreatePrivate(c, s, content) => c !in m.cos && s !in m.stacks && |content| >= WORD
    case OnResume(c, content, sp) => CanExecute(m, content) && CanResume(Execute(m, content), c, sp)
    case OnYield(content, sp) => CanExecute(m, content) && CanYield(Execute(m, content), sp)
    case OnFinish(content, sp) => CanExecute(m, content) && CanYield(Execute(m, content), sp)
    case OnReset(c) => CanRelease(m, c)
    case OnFree(c) => CanRelease(m, c)
  }

  ghost function Step(m: Machine, e: Event, entry: seq<Byte>): Machine
    requires Legal(m, e) && |entry| == WORD
  {
    match e
    case OnCreateShared(c, s) => CreateShared(m, c, s)
    case OnCreatePrivate(c, s, content) => CreatePrivate(m, c, s, content)
    case OnResume(c, content, sp) => Resume(Execute(m, content), c, sp, entry)
    case OnYield(content, sp) => Yield(Execute(m, content), sp)
    case OnFinish(content, sp) => Finish(Execute(m, content), sp)
    case OnReset(c) => Reset(m, c)
    case OnFree(c) => Free(m, c)
  }

  ghost function LeftBehind(content: seq<Byte>, sp: nat): seq<Byte> {
    if sp <= |content| then content[sp..] else []
  }

  ghost function IdealStep(i: Ideal, e: Event): Ideal
    requires |i.callStack| > 0
  {
    var n := |i.callStack|;
    var me := i.callStack[n - 1];
    match e
    case OnResume(c, content, sp) => Ideal(i.callStack + [c], i.left[me := LeftBehind(content, sp)])
    case OnYield(content, sp) => Ideal(i.callStack[..n - 1], i.left[me := LeftBehind(content, sp)])
    case OnFinish(content, sp) => Ideal(i.callStack[..n - 1], i.left - {me})
    case OnReset(c) => i.(left := i.left - {c})
    case OnFree(c) => i.(left := i.left - {c})
    case _ => i
  }

  function WriteWord(image: seq<Byte>, k: nat, entry: seq<Byte>): (r: seq<Byte>)
    requires |entry| == WORD && k + WORD <= |image|
    ensures |r| == |image| && r[..k] == image[..k] && r[k + WORD..] == image[k + WORD..]
  {
    image[..k] + entry + image[k + WORD..]
  }

  /** An image of the bytes from sp up, with the entry word overwritten. */
  ghost function StampImage(image: seq<Byte>, sp: nat, entry: seq<Byte>): (r: seq<Byte>)
    requires |entry| == WORD
    ensures |r| == |image|
  {
    var size := sp + |image|;
    if size < WORD || sp > EntrySlot(size) then image
    else WriteWord(image, EntrySlot(size) - sp, entry)
  }

  /** The first start of c writes over the entry word of whoever occupies its stack. */
  ghost function LeftStamped(m: Machine, left: map<CoId, seq<Byte>>, c: CoId, entry: seq<Byte>): map<CoId, seq<Byte>>
    requires Ok(m, c) && |entry| == WORD
  {
    match OccupantOf(m, c)
    case Some(o) => if o in left && o in m.cos then left[o := StampImage(left[o], m.cos[o].sp, entry)] else left
    case None => left
  }

  ghost predicate FirstStart(m: Machine, e: Event) {
    e.OnResume? && e.c in m.cos && !m.cos[e.c].started
  }

  /** The reference step: what was left, as far as the bytes outside the entry word go, or exactly, with
      the entry word that first starts write over. */
  ghost function RefStep(m: Machine, i: Ideal, e: Event, entry: seq<Byte>, exact: bool): Ideal
    requires |i.callStack| > 0 && Legal(m, e) && |entry| == WORD
  {
    var i' := IdealStep(i, e);
    if exact && FirstStart(m, e)
    then i'.(left := LeftStamped(Parked(m, e.content, e.sp), i'.left, e.c, entry))
    else i'
  }

  // ----- the simulation relation -----

  /** Two images of the bytes from sp up to the end of a stack are the same, except possibly in the
      entry word; `exact` asks for that word too. */
  ghost predicate SameImage(a: seq<Byte>, b: seq<Byte>, sp: nat, size: nat, exact: bool) {
    && size >= WORD && sp <= EntrySlot(size)
    && |a| == |b| == size - sp
    && (exact ==> a == b)
    && a[..EntrySlot(size) - sp] == b[..EntrySlot(size) - sp]
    && a[EntrySlot(size) + WORD - sp..] == b[EntrySlot(size) + WORD - sp..]
  }

  ghost predicate OnStack(m: Machine, c: CoId)
    requires Ok(m, c)
  {
    !m.cos[c].isShared || OccupantOf(m, c) == Some(c)
  }

  /** Where the bytes c left are now: on its stack, or in its save buffer while somebody else
      occupies the stack. */
  ghost predicate Placed(m: Machine, c: CoId, image: seq<Byte>, exact: bool) {
    && Ok(m, c) && Alive(m.cos[c])
    && if OnStack(m, c)
       then SameImage(Seen(m, c), image, m.cos[c].sp, |BufferOf(m, c)|, exact)
       else
         && OccupantOf(m, c).Some? && m.cos[c].save.Some?
         && SameImage(m.cos[c].save.value, image, m.cos[c].sp, |BufferOf(m, c)|, exact)
  }

  ghost predicate CoShape(m: Machine, c: CoId) {
    && Ok(m, c)
    && m.stacks[m.cos[c].stack].owner == (if m.cos[c].isShared then None else Some(c))
    && (m.cos[c].isMain ==> !m.cos[c].isShared)
  }

  ghost predicate StackShape(m: Machine, s: StackId)
    requires s in m.stacks
  {
    m.stacks[s].occupant.Some? ==>
      m.stacks[s].owner == None && m.stacks[s].occupant.value in m.cos && m.cos[m.stacks[s].occupant.value].stack == s
  }

  ghost predicate Shape(m: Machine) {
    && (forall c :: c in m.cos ==> CoShape(m, c))
    && (forall s :: s in m.stacks ==> StackShape(m, s))
  }

  ghost predicate Images(m: Machine, left: map<CoId, seq<Byte>>, exact: bool) {
    Shape(m) && forall c :: c in left ==> Placed(m, c, left[c], exact)
  }

  ghost predicate Control(m: Machine) {
    && HasRunning(m) && OnStack(m, Running(m))
    && (forall j, k :: 0 <= j < k < |m.callStack| ==> m.callStack[j] != m.callStack[k])
    && (forall j :: 0 <= j < |m.callStack| ==> m.callStack[j] in m.cos && Alive(m.cos[m.callStack[j]]))
  }

  ghost predicate Rel(m: Machine, i: Ideal, exact: bool) {
    && Control(m) && Images(m, i.left, exact)
    && i.callStack == m.callStack
    && (forall c :: c in m.cos && Alive(m.cos[c]) && c != Running(m) ==> c in i.left)
  }

  lemma SameRel(m: Machine, i: Ideal, m': Machine, i': Ideal, exact: bool)
    requires Rel(m, i, exact) && m' == m && i' == i
    ensures Rel(m', i', exact)
  {
  }

  // ----- the pieces of a turn -----

  lemma ShapeOccupant(m: Machine, c: CoId)
    requires Shape(m) && c in m.cos
    ensures Ok(m, c) && OccupantOk(m, c)
    ensures OccupantOf(m, c).Some? ==> m.cos[OccupantOf(m, c).value].stack == m.cos[c].stack && m.cos[c].isShared
  {
    assert CoShape(m, c);
    assert StackShape(m, m.cos[c].stack);
    if OccupantOf(m, c).Some? {
      assert CoShape(m, OccupantOf(m, c).value);
    }
  }

  /** The running coroutine leaves `content` at `sp`. */
  ghost function Parked(m: Machine, content: seq<Byte>, sp: nat): Machine
    requires CanExecute(m, content)
  {
    WithSp(Execute(m, content), Running(m), sp)
  }

  /** The running coroutine has noted its stack pointer and left the call stack. */
  ghost function Departed(m: Machine, sp: nat): Machine
    requires CanYield(m, sp)
  {
    WithSp(m, m.callStack[|m.callStack| - 1], sp).(callStack := m.callStack[..|m.callStack| - 1])
  }

  lemma DepartedOk(m: Machine, sp: nat, c: CoId)
    requires CanYield(m, sp) && Ok(m, c)
    ensures Ok(Departed(m, sp), c) && OccupantOf(Departed(m, sp), c) == OccupantOf(m, c)
  {
  }

  lemma YieldSwaps(m: Machine, sp: nat)
    requires CanYield(m, sp)
    ensures var m1, p := Departed(m, sp), m.callStack[|m.callStack| - 2];
      Ok(m1, p) && OccupantOk(m1, p) && Yield(m, sp) == Swap(m1, p, false)
  {
    var p := m.callStack[|m.callStack| - 2];
    DepartedOk(m, sp, p);
    if OccupantOf(m, p).Some? { DepartedOk(m, sp, OccupantOf(m, p).value); }
  }

  lemma ParkedKeepsImages(m: Machine, left: map<CoId, seq<Byte>>, content: seq<Byte>, sp: nat, exact: bool)
    requires Images(m, left, exact) && Control(m) && CanExecute(m, content) && sp <= EntrySlot(|content|)
    ensures Images(Parked(m, content, sp), left[Running(m) := content[sp..]], exact)
  {
    var me, m' := Running(m), Parked(m, content, sp);
    var left' := left[me := content[sp..]];
    forall c | c in m'.cos ensures CoShape(m', c) { assert CoShape(m, c); }
    forall s | s in m'.stacks ensures StackShape(m', s) { assert StackShape(m, s); }
    assert CoShape(m, me);
    forall c | c in left' ensures Placed(m', c, left'[c], exact) {
      if c != me {
        assert Placed(m, c, left[c], exact);
        assert CoShape(m, c);
      } else {
        assert m.callStack[|m.callStack| - 1] == me;
      }
    }
  }

  ghost function LeftAfterStart(m: Machine, left: map<CoId, seq<Byte>>, c: CoId, entry: seq<Byte>, exact: bool):
      map<CoId, seq<Byte>>
    requires Ok(m, c) && |entry| == WORD
  {
    if exact then LeftStamped(m, left, c, entry) else left
  }

  /** A first start on the stack of a suspended coroutine. */
  lemma StampKeepsImages(m: Machine, left: map<CoId, seq<Byte>>, c: CoId, entry: seq<Byte>, exact: bool)
    requires Images(m, left, exact) && Ok(m, c) && c !in left && |entry| == WORD
    ensures Images(CoMake(m, c, entry), LeftAfterStart(m, left, c, entry, exact), exact)
  {
    var m', left' := CoMake(m, c, entry), LeftAfterStart(m, left, c, entry, exact);
    forall d | d in m'.cos ensures CoShape(m', d) { assert CoShape(m, d); }
    forall s | s in m'.stacks ensures StackShape(m', s) { assert StackShape(m, s); }
    assert CoShape(m, c);
    forall d | d in left' ensures Placed(m', d, left'[d], exact) {
      StampPlaces(m, left, c, entry, exact, d);
    }
  }

  lemma StampPlaces(m: Machine, left: map<CoId, seq<Byte>>, c: CoId, entry: seq<Byte>, exact: bool, d: CoId)
    requires Shape(m) && d in left && Placed(m, d, left[d], exact) && Ok(m, c) && c !in left && |entry| == WORD
    ensures Placed(CoMake(m, c, entry), d, LeftAfterStart(m, left, c, entry, exact)[d], exact)
  {
    assert CoShape(m, d) && CoShape(m, c);
    if m.cos[d].stack == m.cos[c].stack && OnStack(m, d) {
      assert OccupantOf(m, c) == Some(d);
      if exact {
        StampIs(BufferOf(m, c), entry, m.cos[d].sp);
      } else {
        StampKeepsImage(BufferOf(m, c), entry, m.cos[d].sp, left[d]);
      }
    }
  }

  lemma StampIs(buffer: seq<Byte>, entry: seq<Byte>, sp: nat)
    requires |buffer| >= WORD == |entry| && sp <= EntrySlot(|buffer|)
    ensures Stamped(buffer, entry)[sp..] == StampImage(buffer[sp..], sp, entry)
  {
    var slot := EntrySlot(|buffer|);
    assert sp + |buffer[sp..]| == |buffer|;
    assert buffer[..slot][sp..] == buffer[sp..][..slot - sp];
    assert buffer[slot + WORD..] == buffer[sp..][slot + WORD - sp..];
  }

  lemma StampKeepsImage(buffer: seq<Byte>, entry: seq<Byte>, sp: nat, image: seq<Byte>)
    requires |buffer| >= WORD == |entry| && sp <= |buffer| && SameImage(buffer[sp..], image, sp, |buffer|, false)
    ensures SameImage(Stamped(buffer, entry)[sp..], image, sp, |buffer|, false)
  {
    var r, slot := Stamped(buffer, entry), EntrySlot(|buffer|);
    assert r[sp..][..slot - sp] == r[..slot][sp..] == buffer[..slot][sp..] == buffer[sp..][..slot - sp];
    assert r[sp..][slot + WORD - sp..] == r[slot + WORD..] == buffer[slot + WORD..] == buffer[sp..][slot + WORD - sp..];
  }

  lemma SwapOutKeepsShape(m: Machine, p: CoId)
    requires Shape(m) && p in m.cos
    ensures Ok(m, p) && OccupantOk(m, p) && Shape(SwapOut(m, p))
    ensures SwapOut(m, p).callStack == m.callStack && OnStack(SwapOut(m, p), p)
  {
    ShapeOccupant(m, p);
    var m' := SwapOut(m, p);
    forall d | d in m'.cos ensures CoShape(m', d) { assert CoShape(m, d); }
    forall s | s in m'.stacks ensures StackShape(m', s) { assert StackShape(m, s); }
  }

  lemma SwapOutKeepsImage(m: Machine, p: CoId, c: CoId, image: seq<Byte>, exact: bool)
    requires Shape(m) && p in m.cos && c != p && Placed(m, c, image, exact)
    ensures Ok(m, p) && OccupantOk(m, p) && Placed(SwapOut(m, p), c, image, exact)
  {
    ShapeOccupant(m, p);
    assert CoShape(m, c) && CoShape(m, p);
  }

  /** The switch loses nobody's image, and the coroutine that gets control finds its own on the
      stack. */
  lemma SwapKeepsImages(m: Machine, left: map<CoId, seq<Byte>>, p: CoId, first: bool, exact: bool)
    requires Images(m, left, exact) && p in m.cos && (first <==> p !in left)
    ensures Ok(m, p) && OccupantOk(m, p)
    ensures Images(Swap(m, p, first), left, exact) && Ok(Swap(m, p, first), p) && OnStack(Swap(m, p, first), p)
  {
    SwapOutKeepsShape(m, p);
    var out := SwapOut(m, p);
    forall c | c in left && c != p ensures Placed(out, c, left[c], exact) {
      SwapOutKeepsImage(m, p, c, left[c], exact);
    }
    if !first {
      assert Placed(m, p, left[p], exact);
      var m' := SwapIn(out);
      assert CoShape(m, p);
      if OnStack(m, p) {
        assert m' == out;
      } else {
        SwapInKeepsImages(out, left, p, exact);
      }
    }
  }

  /** The restore: the incoming image goes to the stack, over bytes that belong to nobody any more. */
  lemma SwapInKeepsImages(out: Machine, left: map<CoId, seq<Byte>>, p: CoId, exact: bool)
    requires Shape(out) && p in left && Ok(out, p) && Alive(out.cos[p]) && out.cos[p].isShared
    requires OccupantOf(out, p) == Some(p)
    requires forall c :: c in left && c != p ==> Placed(out, c, left[c], exact)
    requires out.pending == Some(p) && out.occupy.Some? && out.occupy != out.pending && out.cos[p].save.Some?
    requires SameImage(out.cos[p].save.value, left[p], out.cos[p].sp, |BufferOf(out, p)|, exact)
    ensures Images(SwapIn(out), left, exact) && Ok(SwapIn(out), p) && OnStack(SwapIn(out), p)
  {
    var m' := SwapIn(out);
    RestoreIs(out, p);
    forall d | d in m'.cos ensures CoShape(m', d) { assert CoShape(out, d); }
    forall s | s in m'.stacks ensures StackShape(m', s) { assert StackShape(out, s); }
    forall c | c in left ensures Placed(m', c, left[c], exact) {
      if c != p {
        RestoreKeepsOther(out, p, c, left[c], exact);
      }
    }
  }

  /** The saved image, where it belongs. */
  ghost function Restored(m: Machine, p: CoId): Machine
    requires Ok(m, p) && m.cos[p].save.Some? && m.cos[p].sp + |m.cos[p].save.value| == |BufferOf(m, p)|
  {
    WithBuffer(m, m.cos[p].stack, BufferOf(m, p)[..m.cos[p].sp] + m.cos[p].save.value)
  }

  lemma RestoreIs(out: Machine, p: CoId)
    requires Ok(out, p) && out.pending == Some(p) && out.occupy.Some? && out.occupy != out.pending
    requires out.cos[p].save.Some?
    requires out.cos[p].sp + |out.cos[p].save.value| == |BufferOf(out, p)| && |out.cos[p].save.value| > 0
    ensures SwapIn(out) == Restored(out, p) && Seen(SwapIn(out), p) == out.cos[p].save.value
  {
    var b, save := BufferOf(out, p)[..out.cos[p].sp], out.cos[p].save.value;
    assert BufferOf(out, p)[out.cos[p].sp + |save|..] == [];
    assert b + save + [] == b + save && (b + save)[out.cos[p].sp..] == save;
  }

  lemma RestoreKeepsOther(out: Machine, p: CoId, c: CoId, image: seq<Byte>, exact: bool)
    requires Shape(out) && Ok(out, p) && out.cos[p].isShared && OccupantOf(out, p) == Some(p) && out.cos[p].save.Some?
    requires out.cos[p].sp + |out.cos[p].save.value| == |BufferOf(out, p)| && c != p && Placed(out, c, image, exact)
    ensures Placed(Restored(out, p), c, image, exact)
  {
    assert CoShape(out, c) && CoShape(out, p);
  }

  // ----- whole turns -----

  /** The coroutine that is losing control has been parked with its image in `left`, and control goes
      to p. */
  lemma TurnKeepsRel(m: Machine, left: map<CoId, seq<Byte>>, callStack: seq<CoId>, p: CoId, first: bool, exact: bool)
    requires Images(m, left, exact) && p in m.cos && (first <==> p !in left) && Alive(m.cos[p])
    requires |callStack| > 0 && callStack[|callStack| - 1] == p
    requires forall j, k :: 0 <= j < k < |callStack| ==> callStack[j] != callStack[k]
    requires forall j :: 0 <= j < |callStack| ==> callStack[j] in m.cos && Alive(m.cos[callStack[j]])
    requires forall c :: c in m.cos && Alive(m.cos[c]) && c != p ==> c in left
    ensures var m1 := m.(callStack := callStack);
      Ok(m1, p) && OccupantOk(m1, p) && Rel(Swap(m1, p, first), Ideal(callStack, left), exact)
  {
    var m1 := m.(callStack := callStack);
    FrameImages(m, m1, left, exact);
    SwapKeepsImages(m1, left, p, first, exact);
    SwapFrame(m1, p, first);
  }

  lemma SwapFrame(m: Machine, p: CoId, first: bool)
    requires Ok(m, p) && OccupantOk(m, p)
    ensures var m' := Swap(m, p, first); m'.callStack == m.callStack && m'.cos.Keys == m.cos.Keys
    ensures forall c :: c in m.cos ==> Alive(Swap(m, p, first).cos[c]) == Alive(m.cos[c])
  {
  }

  lemma FrameImages(m: Machine, m': Machine, left: map<CoId, seq<Byte>>, exact: bool)
    requires Images(m, left, exact) && m'.stacks == m.stacks && m'.cos.Keys == m.cos.Keys
    requires forall c :: c in m.cos ==> m'.cos[c] == m.cos[c].(ended := m'.cos[c].ended)
    requires forall c :: c in left ==> m'.cos[c] == m.cos[c]
    ensures Images(m', left, exact)
  {
    forall d | d in m'.cos ensures CoShape(m', d) { assert CoShape(m, d); }
    forall s | s in m'.stacks ensures StackShape(m', s) { assert StackShape(m, s); }
    forall c | c in left ensures Placed(m', c, left[c], exact) { assert Placed(m, c, left[c], exact); }
  }

  /** The call stack after a resume, as TurnKeepsRel wants it. */
  lemma Pushed(m: Machine, m': Machine, c: CoId)
    requires Control(m) && c !in m.callStack && c in m'.cos && Alive(m'.cos[c])
    requires forall d :: d in m.cos && Alive(m.cos[d]) ==> d in m'.cos && Alive(m'.cos[d])
    ensures var cs := m.callStack + [c];
      && (forall j, k :: 0 <= j < k < |cs| ==> cs[j] != cs[k])
      && (forall j :: 0 <= j < |cs| ==> cs[j] in m'.cos && Alive(m'.cos[cs[j]]))
  {
  }

  /** The parked state, with the entry word stamped for a first start. */
  ghost function Prepared(m: Machine, c: CoId, content: seq<Byte>, sp: nat, entry: seq<Byte>): Machine
    requires CanExecute(m, content) && CanResume(Execute(m, content), c, sp) && |entry| == WORD
  {
    if m.cos[c].started then Parked(m, content, sp) else CoMake(Parked(m, content, sp), c, entry)
  }

  lemma ResumeIsSwap(m: Machine, c: CoId, content: seq<Byte>, sp: nat, entry: seq<Byte>)
    requires CanExecute(m, content) && CanResume(Execute(m, content), c, sp) && |entry| == WORD
    ensures var m1 := Prepared(m, c, content, sp, entry).(callStack := m.callStack + [c]);
      Ok(m1, c) && OccupantOk(m1, c) && Resume(Execute(m, content), c, sp, entry) == Swap(m1, c, !m.cos[c].started)
  {
    if !m.cos[c].started { PreparedMakes(m, c, content, sp, entry); }
  }

  /** Noting the stack pointer and making c do not get in each other's way. */
  lemma PreparedMakes(m: Machine, c: CoId, content: seq<Byte>, sp: nat, entry: seq<Byte>)
    requires CanExecute(m, content) && CanResume(Execute(m, content), c, sp) && |entry| == WORD && !m.cos[c].started
    ensures Prepared(m, c, content, sp, entry) == WithSp(CoMake(Execute(m, content), c, entry), Running(m), sp)
  {
    assert m.callStack[|m.callStack| - 1] == Running(m) != c;
    assert Prepared(m, c, content, sp, entry).cos == WithSp(CoMake(Execute(m, content), c, entry), Running(m), sp).cos;
  }

  lemma PreparedAlive(m: Machine, c: CoId, content: seq<Byte>, sp: nat, entry: seq<Byte>)
    requires CanExecute(m, content) && CanResume(Execute(m, content), c, sp) && |entry| == WORD
    ensures var made := Prepared(m, c, content, sp, entry);
      && made.cos.Keys == m.cos.Keys && Alive(made.cos[c])
      && forall d :: d in m.cos && d != c ==> Alive(made.cos[d]) == Alive(m.cos[d])
  {
  }

  lemma ResumePrepared(m: Machine, made: Machine, left: map<CoId, seq<Byte>>, c: CoId, first: bool, exact: bool)
    requires Control(m) && c !in m.callStack && Images(made, left, exact) && (first <==> c !in left)
    requires made.cos.Keys == m.cos.Keys && c in m.cos && Alive(made.cos[c])
    requires forall d :: d in m.cos && d != c ==> Alive(made.cos[d]) == Alive(m.cos[d])
    requires forall d :: d in m.cos && Alive(m.cos[d]) ==> d in left
    ensures var m1 := made.(callStack := m.callStack + [c]);
      Ok(m1, c) && OccupantOk(m1, c) && Rel(Swap(m1, c, first), Ideal(m.callStack + [c], left), exact)
  {
    Pushed(m, made, c);
    TurnKeepsRel(made, left, m.callStack + [c], c, first, exact);
  }

  /** What is left when c is resumed. */
  ghost function ResumeLeft(m: Machine, left: map<CoId, seq<Byte>>, c: CoId, content: seq<Byte>, sp: nat,
                            entry: seq<Byte>, exact: bool): map<CoId, seq<Byte>>
    requires CanExecute(m, content) && CanResume(Execute(m, content), c, sp) && |entry| == WORD
  {
    var left' := left[Running(m) := content[sp..]];
    if m.cos[c].started then left' else LeftAfterStart(Parked(m, content, sp), left', c, entry, exact)
  }

  lemma PreparedKeepsImages(m: Machine, left: map<CoId, seq<Byte>>, c: CoId, content: seq<Byte>, sp: nat,
                            entry: seq<Byte>, exact: bool)
    requires Control(m) && Images(m, left, exact)
    requires CanExecute(m, content) && CanResume(Execute(m, content), c, sp) && |entry| == WORD
    requires !m.cos[c].started ==> c !in left
    ensures Images(Prepared(m, c, content, sp, entry), ResumeLeft(m, left, c, content, sp, entry, exact), exact)
  {
    ParkedKeepsImages(m, left, content, sp, exact);
    if !m.cos[c].started {
      ParkedElsewhere(m, c, content, sp);
      StampKeepsImages(Parked(m, content, sp), left[Running(m) := content[sp..]], c, entry, exact);
    }
  }

  lemma ParkedElsewhere(m: Machine, c: CoId, content: seq<Byte>, sp: nat)
    requires CanExecute(m, content) && CanResume(Execute(m, content), c, sp)
    ensures c != Running(m) && Ok(Parked(m, content, sp), c)
  {
    assert m.callStack[|m.callStack| - 1] == Running(m);
  }

  lemma ResumeLeftKeys(m: Machine, left: map<CoId, seq<Byte>>, c: CoId, content: seq<Byte>, sp: nat,
                       entry: seq<Byte>, exact: bool)
    requires CanExecute(m, content) && CanResume(Execute(m, content), c, sp) && |entry| == WORD
    ensures ResumeLeft(m, left, c, content, sp, entry, exact).Keys == left.Keys + {Running(m)}
  {
  }

  lemma RefResume(m: Machine, i: Ideal, c: CoId, content: seq<Byte>, sp: nat, entry: seq<Byte>, exact: bool)
    requires i.callStack == m.callStack && Legal(m, OnResume(c, content, sp)) && |entry| == WORD
    ensures RefStep(m, i, OnResume(c, content, sp), entry, exact) ==
      Ideal(m.callStack + [c], ResumeLeft(m, i.left, c, content, sp, entry, exact))
  {
  }

  /** c has an image exactly if it was started. */
  lemma StartedIffLeft(m: Machine, i: Ideal, c: CoId, exact: bool)
    requires Rel(m, i, exact) && c in m.cos && c !in m.callStack && !m.cos[c].isMain && !m.cos[c].ended
    ensures c != Running(m) && (m.cos[c].started <==> c in i.left)
  {
    assert m.callStack[|m.callStack| - 1] == Running(m);
    if c in i.left { assert Placed(m, c, i.left[c], exact); }
  }

  lemma ResumeKeepsRel(m: Machine, i: Ideal, c: CoId, content: seq<Byte>, sp: nat, entry: seq<Byte>, exact: bool)
    requires Rel(m, i, exact) && Legal(m, OnResume(c, content, sp)) && |entry| == WORD
    ensures Rel(Resume(Execute(m, content), c, sp, entry),
                RefStep(m, i, OnResume(c, content, sp), entry, exact), exact)
  {
    StartedIffLeft(m, i, c, exact);
    PreparedKeepsImages(m, i.left, c, content, sp, entry, exact);
    ResumeLeftKeys(m, i.left, c, content, sp, entry, exact);
    ResumeIsSwap(m, c, content, sp, entry);
    PreparedAlive(m, c, content, sp, entry);
    RefResume(m, i, c, content, sp, entry, exact);
    ResumePrepared(m, Prepared(m, c, content, sp, entry), ResumeLeft(m, i.left, c, content, sp, entry, exact), c,
                   !m.cos[c].started, exact);
  }

  /** The swap of a yield, after the yielding coroutine has been parked. */
  ghost function Back(m: Machine, made: Machine): Machine
    requires |m.callStack| >= 2 && Ok(made, m.callStack[|m.callStack| - 2])
    requires OccupantOk(made, m.callStack[|m.callStack| - 2])
  {
    Swap(made.(callStack := m.callStack[..|m.callStack| - 1]), m.callStack[|m.callStack| - 2], false)
  }

  lemma BackKeepsRel(m: Machine, made: Machine, left: map<CoId, seq<Byte>>, exact: bool)
    requires Control(m) && |m.callStack| >= 2 && Images(made, left, exact) && made.cos.Keys == m.cos.Keys
    requires forall d :: d in m.cos && d != Running(m) ==> Alive(made.cos[d]) == Alive(m.cos[d])
    requires forall d :: d in made.cos && Alive(made.cos[d]) ==> d in left
    ensures Ok(made, m.callStack[|m.callStack| - 2]) && OccupantOk(made, m.callStack[|m.callStack| - 2])
    ensures Rel(Back(m, made), Ideal(m.callStack[..|m.callStack| - 1], left), exact)
  {
    var n := |m.callStack|;
    ShapeOccupant(made, m.callStack[n - 2]);
    Popped(m, made);
    TurnKeepsRel(made, left, m.callStack[..n - 1], m.callStack[n - 2], false, exact);
  }

  lemma YieldIsSwap(m: Machine, content: seq<Byte>, sp: nat)
    requires Legal(m, OnYield(content, sp))
    requires Ok(Parked(m, content, sp), m.callStack[|m.callStack| - 2])
    requires OccupantOk(Parked(m, content, sp), m.callStack[|m.callStack| - 2])
    ensures Yield(Execute(m, content), sp) == Back(m, Parked(m, content, sp))
  {
  }

  lemma ParkedAlive(m: Machine, content: seq<Byte>, sp: nat)
    requires CanExecute(m, content)
    ensures var made := Parked(m, content, sp);
      made.cos.Keys == m.cos.Keys && forall d :: d in m.cos ==> Alive(made.cos[d]) == Alive(m.cos[d])
  {
  }

  lemma EndedAlive(m: Machine, content: seq<Byte>, sp: nat)
    requires CanExecute(m, content)
    ensures var made := EndedAt(m, content, sp);
      && made.cos.Keys == m.cos.Keys && !Alive(made.cos[Running(m)])
      && forall d :: d in m.cos && d != Running(m) ==> Alive(made.cos[d]) == Alive(m.cos[d])
  {
  }

  lemma IdealBack(m: Machine, i: Ideal, content: seq<Byte>, sp: nat)
    requires HasRunning(m) && i.callStack == m.callStack && sp <= |content|
    ensures var cs := m.callStack[..|m.callStack| - 1];
      && IdealStep(i, OnYield(content, sp)) == Ideal(cs, i.left[Running(m) := content[sp..]])
      && IdealStep(i, OnFinish(content, sp)) == Ideal(cs, i.left - {Running(m)})
  {
  }

  lemma YieldKeepsRel(m: Machine, i: Ideal, content: seq<Byte>, sp: nat, exact: bool)
    requires Rel(m, i, exact) && Legal(m, OnYield(content, sp))
    ensures Rel(Yield(Execute(m, content), sp), IdealStep(i, OnYield(content, sp)), exact)
  {
    var left := i.left[Running(m) := content[sp..]];
    ParkedKeepsImages(m, i.left, content, sp, exact);
    ParkedAlive(m, content, sp);
    BackKeepsRel(m, Parked(m, content, sp), left, exact);
    YieldIsSwap(m, content, sp);
    IdealBack(m, i, content, sp);
    SameRel(Back(m, Parked(m, content, sp)), Ideal(m.callStack[..|m.callStack| - 1], left),
            Yield(Execute(m, content), sp), IdealStep(i, OnYield(content, sp)), exact);
  }

  lemma FinishKeepsImages(m: Machine, left: map<CoId, seq<Byte>>, content: seq<Byte>, sp: nat, exact: bool)
    requires Control(m) && Images(m, left, exact) && Legal(m, OnFinish(content, sp))
    ensures Images(EndedAt(m, content, sp), left - {Running(m)}, exact)
  {
    var me, parked := Running(m), Parked(m, content, sp);
    ParkedKeepsImages(m, left, content, sp, exact);
    forall c | c in left - {me} ensures Placed(parked, c, left[c], exact) {
      assert Placed(parked, c, left[me := content[sp..]][c], exact);
    }
    FrameImages(parked, EndedAt(m, content, sp), left - {me}, exact);
  }

  lemma Popped(m: Machine, m': Machine)
    requires Control(m) && |m.callStack| >= 2
    requires forall d :: d in m.cos && Alive(m.cos[d]) && d != Running(m) ==> d in m'.cos && Alive(m'.cos[d])
    ensures var cs := m.callStack[..|m.callStack| - 1];
      && (forall j, k :: 0 <= j < k < |cs| ==> cs[j] != cs[k])
      && (forall j :: 0 <= j < |cs| ==> cs[j] in m'.cos && Alive(m'.cos[cs[j]]))
      && Running(m) !in cs
  {
  }

  ghost function EndedAt(m: Machine, content: seq<Byte>, sp: nat): Machine
    requires CanExecute(m, content)
  {
    WithSp(WithEnded(Execute(m, content), Running(m)), Running(m), sp)
  }

  lemma FinishIsSwap(m: Machine, content: seq<Byte>, sp: nat)
    requires Legal(m, OnFinish(content, sp))
    requires var made := EndedAt(m, content, sp);
      Ok(made, m.callStack[|m.callStack| - 2]) && OccupantOk(made, m.callStack[|m.callStack| - 2])
    ensures Finish(Execute(m, content), sp) == Back(m, EndedAt(m, content, sp))
  {
  }

  lemma FinishKeepsRel(m: Machine, i: Ideal, content: seq<Byte>, sp: nat, exact: bool)
    requires Rel(m, i, exact) && Legal(m, OnFinish(content, sp))
    ensures Rel(Finish(Execute(m, content), sp), IdealStep(i, OnFinish(content, sp)), exact)
  {
    FinishKeepsImages(m, i.left, content, sp, exact);
    EndedAlive(m, content, sp);
    BackKeepsRel(m, EndedAt(m, content, sp), i.left - {Running(m)}, exact);
    FinishIsSwap(m, content, sp);
    IdealBack(m, i, content, sp);
    SameRel(Back(m, EndedAt(m, content, sp)), Ideal(m.callStack[..|m.callStack| - 1], i.left - {Running(m)}),
            Finish(Execute(m, content), sp), IdealStep(i, OnFinish(content, sp)), exact);
  }

  /** Control stays where it is, and the coroutines on the call stack and the stack of the running
      one are left alone. */
  lemma FrameControl(m: Machine, m': Machine)
    requires Control(m) && Shape(m) && m'.callStack == m.callStack
    requires forall j :: 0 <= j < |m.callStack| ==>
      m.callStack[j] in m'.cos && m'.cos[m.callStack[j]] == m.cos[m.callStack[j]]
    requires m.cos[Running(m)].stack in m'.stacks
    requires m'.stacks[m.cos[Running(m)].stack] == m.stacks[m.cos[Running(m)].stack]
    ensures Control(m')
  {
  }

  lemma ResetKeepsImages(m: Machine, left: map<CoId, seq<Byte>>, c: CoId, exact: bool)
    requires Images(m, left, exact) && CanRelease(m, c)
    ensures Images(Reset(m, c), left - {c}, exact)
  {
    var m' := Reset(m, c);
    assert CoShape(m, c);
    forall d | d in m'.cos ensures CoShape(m', d) { assert CoShape(m, d); }
    forall s | s in m'.stacks ensures StackShape(m', s) { assert StackShape(m, s); }
    forall d | d in left - {c} ensures Placed(m', d, left[d], exact) {
      assert Placed(m, d, left[d], exact);
      assert CoShape(m, d);
    }
  }

  lemma FreeKeepsImages(m: Machine, left: map<CoId, seq<Byte>>, c: CoId, exact: bool)
    requires Images(m, left, exact) && CanRelease(m, c)
    ensures Images(Free(m, c), left - {c}, exact)
  {
    var m' := Free(m, c);
    assert CoShape(m, c);
    forall d | d in m'.cos ensures CoShape(m', d) { assert CoShape(m, d); }
    forall s | s in m'.stacks ensures StackShape(m', s) { assert StackShape(m, s); }
    forall d | d in left - {c} ensures Placed(m', d, left[d], exact) {
      assert Placed(m, d, left[d], exact);
      assert CoShape(m, d);
    }
  }

  lemma CreateKeepsImages(m: Machine, left: map<CoId, seq<Byte>>, e: Event, entry: seq<Byte>, exact: bool)
    requires Images(m, left, exact) && Legal(m, e) && |entry| == WORD && (e.OnCreateShared? || e.OnCreatePrivate?)
    ensures Images(Step(m, e, entry), left, exact)
  {
    var m' := Step(m, e, entry);
    forall d | d in m'.cos ensures CoShape(m', d) {
      if d != e.c { assert CoShape(m, d); }
    }
    forall s | s in m'.stacks ensures StackShape(m', s) {
      if s in m.stacks { assert StackShape(m, s); }
    }
    forall d | d in left ensures Placed(m', d, left[d], exact) {
      assert Placed(m, d, left[d], exact);
    }
  }

  lemma ResetFrame(m: Machine, c: CoId)
    requires Control(m) && Shape(m) && CanRelease(m, c)
    ensures Control(Reset(m, c))
  {
    assert CoShape(m, Running(m)) && CoShape(m, c);
    assert m.callStack[|m.callStack| - 1] == Running(m);
    FrameControl(m, Reset(m, c));
  }

  lemma FreeFrame(m: Machine, c: CoId)
    requires Control(m) && Shape(m) && CanRelease(m, c)
    ensures Control(Free(m, c))
  {
    assert CoShape(m, Running(m)) && CoShape(m, c);
    assert m.callStack[|m.callStack| - 1] == Running(m);
    FrameControl(m, Free(m, c));
  }

  lemma CreateFrame(m: Machine, e: Event, entry: seq<Byte>)
    requires Control(m) && Shape(m) && Legal(m, e) && |entry| == WORD && (e.OnCreateShared? || e.OnCreatePrivate?)
    ensures Control(Step(m, e, entry))
  {
    assert CoShape(m, Running(m));
    FrameControl(m, Step(m, e, entry));
  }

  /** Reset, release and create leave the running coroutine where it is. */
  lemma ResetAlive(m: Machine, c: CoId)
    requires Ok(m, c) && !m.cos[c].isMain
    ensures Reset(m, c).callStack == m.callStack && Reset(m, c).cos.Keys == m.cos.Keys
    ensures forall d :: d in Reset(m, c).cos && Alive(Reset(m, c).cos[d]) ==> d in m.cos && Alive(m.cos[d]) && d != c
  {
  }

  lemma QuietRel(m: Machine, i: Ideal, m': Machine, c: CoId, exact: bool)
    requires Rel(m, i, exact) && Control(m') && Images(m', i.left - {c}, exact) && m'.callStack == m.callStack
    requires forall d :: d in m'.cos && Alive(m'.cos[d]) ==> d in m.cos && Alive(m.cos[d]) && d != c
    ensures Rel(m', i.(left := i.left - {c}), exact)
  {
  }

  lemma ResetKeepsRel(m: Machine, i: Ideal, c: CoId, exact: bool)
    requires Rel(m, i, exact) && CanRelease(m, c)
    ensures Rel(Reset(m, c), i.(left := i.left - {c}), exact)
  {
    ResetKeepsImages(m, i.left, c, exact);
    ResetFrame(m, c);
    ResetAlive(m, c);
    QuietRel(m, i, Reset(m, c), c, exact);
  }

  lemma FreeKeepsRel(m: Machine, i: Ideal, c: CoId, exact: bool)
    requires Rel(m, i, exact) && CanRelease(m, c)
    ensures Rel(Free(m, c), i.(left := i.left - {c}), exact)
  {
    FreeKeepsImages(m, i.left, c, exact);
    FreeFrame(m, c);
    QuietRel(m, i, Free(m, c), c, exact);
  }

  lemma CreateKeepsRel(m: Machine, i: Ideal, e: Event, entry: seq<Byte>, exact: bool)
    requires Rel(m, i, exact) && Legal(m, e) && |entry| == WORD && (e.OnCreateShared? || e.OnCreatePrivate?)
    ensures Rel(Step(m, e, entry), IdealStep(i, e), exact)
  {
    CreateKeepsImages(m, i.left, e, entry, exact);
    CreateFrame(m, e, entry);
    CreateAlive(m, e, entry);
    CreateRel(m, i, Step(m, e, entry), exact);
  }

  lemma CreateAlive(m: Machine, e: Event, entry: seq<Byte>)
    requires Legal(m, e) && |entry| == WORD && (e.OnCreateShared? || e.OnCreatePrivate?)
    ensures var m' := Step(m, e, entry);
      m'.callStack == m.callStack && forall d :: d in m'.cos && Alive(m'.cos[d]) ==> d in m.cos && Alive(m.cos[d])
  {
  }

  lemma CreateRel(m: Machine, i: Ideal, m': Machine, exact: bool)
    requires Rel(m, i, exact) && Control(m') && Images(m', i.left, exact) && m'.callStack == m.callStack
    requires forall d :: d in m'.cos && Alive(m'.cos[d]) ==> d in m.cos && Alive(m.cos[d])
    ensures Rel(m', i, exact)
  {
  }

  lemma StepKeepsRel(m: Machine, i: Ideal, e: Event, entry: seq<Byte>, exact: bool)
    requires Rel(m, i, exact) && Legal(m, e) && |entry| == WORD
    ensures Rel(Step(m, e, entry), RefStep(m, i, e, entry, exact), exact)
  {
    match e
    case OnResume(c, content, sp) => ResumeKeepsRel(m, i, c, content, sp, entry, exact);
    case OnYield(content, sp) => YieldKeepsRel(m, i, content, sp, exact);
    case OnFinish(content, sp) => FinishKeepsRel(m, i, content, sp, exact);
    case OnReset(c) => ResetKeepsRel(m, i, c, exact);
    case OnFree(c) => FreeKeepsRel(m, i, c, exact);
    case _ => CreateKeepsRel(m, i, e, entry, exact);
  }
}
