/** The switch on heap objects: coroutines, stacks with their buffers, and the per-thread environment,
    updated in place. Every method is a function of module SharedStack on the values they stand for. */
module CoSwitch {
  import opened Basics
  import opened SharedStack
  import opened SharedStackTheorems

  class Stack {
    const buffer: array<Byte>
    const owner: Option<CoId>
    var occupyCo: Option<CoId>

    constructor (buffer: array<Byte>, owner: Option<CoId>)
      ensures this.buffer == buffer && this.owner == owner && occupyCo == None
    {
      this.buffer, this.owner, occupyCo := buffer, owner, None;
    }

    ghost function Abs(): StackMem
      reads this, buffer
    {
      StackMem(buffer[..], owner, occupyCo)
    }
  }

  const PAGE := 0x1000
  const DEFAULT_STACK := 128 * 1024
  const LARGEST_STACK := 8 * 1024 * 1024

  /** The size of a private stack: the default, or the size asked for up to a limit, in whole pages. */
  function StackSize(size: int): (r: nat)
    ensures r % 0x1000 == 0 && 0x1000 <= r <= 0x80_0000
    ensures size <= 0 ==> r == 0x2_0000
    ensures size > 0x80_0000 ==> r == 0x80_0000
    ensures 0 < size <= 0x80_0000 ==> size <= r < size + 0x1000
  {
    var n := if size <= 0 then DEFAULT_STACK else if size > LARGEST_STACK then LARGEST_STACK else size;
    if n % PAGE == 0 then n else n - n % PAGE + PAGE
  }

  /** A group of stacks that is handed out round robin; the counter is an unsigned int. */
  class ShareStack {
    const stackArray: seq<StackId>
    var allocIdx: nat

    constructor (stackArray: seq<StackId>)
      ensures this.stackArray == stackArray && allocIdx == 0
    {
      this.stackArray, allocIdx := stackArray, 0;
    }

    method GetStackMem() returns (s: StackId)
      requires stackArray != [] && allocIdx < TWO32
      modifies this
      ensures s == stackArray[old(allocIdx) % |stackArray|] && allocIdx == (old(allocIdx) + 1) % TWO32
    {
      s := stackArray[allocIdx % |stackArray|];
      allocIdx := if allocIdx + 1 == TWO32 then 0 else allocIdx + 1;
    }
  }

  /** As long as the counter does not wrap, as many calls in a row as there are stacks use each once. */
  lemma RoundRobin(stackArray: seq<StackId>, a: nat, b: nat)
    requires stackArray != [] && a < b < a + |stackArray|
    requires forall i, j :: 0 <= i < j < |stackArray| ==> stackArray[i] != stackArray[j]
    ensures stackArray[a % |stackArray|] != stackArray[b % |stackArray|]
  {
    ModDiffers(|stackArray|, a, b);
  }

  class CoRoutine {
    const stack: StackId
    const isShareStack: bool
    var isMain: bool
    var start: bool
    var end: bool
    var stackSp: nat
    var saveBuffer: Option<seq<Byte>>

    constructor (stack: StackId, isShareStack: bool)
      ensures Abs() == Created(stack, isShareStack)
    {
      this.stack, this.isShareStack, isMain := stack, isShareStack, false;
      start, end, stackSp, saveBuffer := false, false, 0, None;
    }

    ghost function Abs(): CoState
      reads this
    {
      CoState(stack, isShareStack, isMain, start, end, stackSp, saveBuffer)
    }
  }

  ghost function Occupied(m: Machine, p: CoId): Machine
    requires Ok(m, p)
  {
    var s := m.cos[p].stack;
    m.(stacks := m.stacks[s := m.stacks[s].(occupant := Some(p))], pending := Some(p), occupy := OccupantOf(m, p))
  }

  /** The bytes of the previous occupant are saved. */
  ghost function Saved(m: Machine, p: CoId): Machine
    requires m.occupy.Some? ==> Ok(m, m.occupy.value)
  {
    if m.occupy.Some? && m.occupy.value != p then SaveStackBuffer(m, m.occupy.value) else m
  }

  /** A new stack that belongs to nobody. */
  ghost function WithPoolStack(m: Machine, s: StackId, buffer: seq<Byte>): Machine {
    m.(stacks := m.stacks[s := StackMem(buffer, None, None)])
  }

  /** The main coroutine on its own stack. */
  ghost function Alone(main: CoId, s: StackId, buffer: seq<Byte>): Machine {
    Machine(map[main := Created(s, false).(isMain := true)],
            map[s := StackMem(buffer, Some(main), None)], [main], None, None)
  }

  lemma AloneIsInitial(main: CoId, s: StackId, buffer: seq<Byte>)
    requires |buffer| >= WORD
    ensures Initial(Alone(main, s, buffer))
  {
  }

  lemma PoolKeepsInitial(m: Machine, s: StackId, buffer: seq<Byte>)
    requires Initial(m) && s !in m.stacks
    ensures Initial(WithPoolStack(m, s, buffer))
  {
    assert Ok(WithPoolStack(m, s, buffer), m.callStack[0]);
  }

  lemma SwapOutIs(m: Machine, p: CoId)
    requires Ok(m, p) && OccupantOk(m, p)
    ensures Occupied(m, p).occupy.Some? ==> Ok(Occupied(m, p), Occupied(m, p).occupy.value)
    ensures SwapOut(m, p) ==
      if !m.cos[p].isShared then m.(pending := None, occupy := None) else Saved(Occupied(m, p), p)
  {
  }

  /** When the saved bytes of the coroutine that is switched to are copied back, they fit its stack. */
  ghost predicate Fits(m: Machine) {
    m.occupy.Some? && m.pending.Some? && m.occupy != m.pending ==>
      && Ok(m, m.pending.value)
      && (m.cos[m.pending.value].save.Some? ==>
        m.cos[m.pending.value].sp + |m.cos[m.pending.value].save.value| <= |BufferOf(m, m.pending.value)|)
  }

  ghost predicate CanSwap(m: Machine, p: CoId, first: bool) {
    Ok(m, p) && OccupantOk(m, p) && (!first ==> Fits(SwapOut(m, p)))
  }

  ghost function Yielding(m: Machine, sp: nat): Machine
    requires CanYield(m, sp)
  {
    WithSp(m, m.callStack[|m.callStack| - 1], sp).(callStack := m.callStack[..|m.callStack| - 1])
  }

  ghost predicate MayYield(m: Machine, sp: nat) {
    CanYield(m, sp) && CanSwap(Yielding(m, sp), m.callStack[|m.callStack| - 2], false)
  }

  lemma YieldIs(m: Machine, sp: nat)
    requires MayYield(m, sp)
    ensures m.callStack[|m.callStack| - 1] in m.cos && CanSwap(Yielding(m, sp), m.callStack[|m.callStack| - 2], false)
    ensures var n := |m.callStack|;
      Yielding(m, sp) == WithSp(m.(callStack := m.callStack[..n - 1]), m.callStack[n - 1], sp)
    ensures Yield(m, sp) == Swap(Yielding(m, sp), m.callStack[|m.callStack| - 2], false)
  {
  }

  lemma FinishIs(m: Machine, sp: nat)
    requires HasRunning(m) && MayYield(WithEnded(m, Running(m)), sp)
    ensures CanYield(m, sp) && Running(m) in m.cos && m.callStack[|m.callStack| - 1] == Running(m)
    ensures Finish(m, sp) == Yield(WithEnded(m, Running(m)), sp)
  {
  }

  ghost function Cleared(m: Machine, c: CoId): Machine
    requires c in m.cos
  {
    m.(cos := m.cos[c := m.cos[c].(started := false, ended := false, save := None)])
  }

  lemma ResetIs(m: Machine, c: CoId)
    requires Ok(m, c)
    ensures Ok(Cleared(m, c), c)
    ensures Reset(m, c) == if !m.cos[c].started || m.cos[c].isMain then m else Vacated(Cleared(m, c), c)
  {
  }

  ghost function Made(m: Machine, c: CoId, entry: seq<Byte>): Machine
    requires Ok(m, c) && |entry| == WORD
  {
    if m.cos[c].started then m else CoMake(m, c, entry)
  }

  ghost function Resuming(m: Machine, c: CoId, sp: nat, entry: seq<Byte>): Machine
    requires CanResume(m, c, sp) && |entry| == WORD
  {
    WithSp(Made(m, c, entry), Running(m), sp).(callStack := m.callStack + [c])
  }

  ghost predicate MayResume(m: Machine, c: CoId, sp: nat, entry: seq<Byte>) {
    |entry| == WORD && CanResume(m, c, sp) && CanSwap(Resuming(m, c, sp, entry), c, !m.cos[c].started)
  }

  lemma ResumeIs(m: Machine, c: CoId, sp: nat, entry: seq<Byte>)
    requires MayResume(m, c, sp, entry)
    ensures Running(m) in m.cos && CanSwap(Resuming(m, c, sp, entry), c, !m.cos[c].started)
    ensures Resuming(m, c, sp, entry) == WithSp(Made(m, c, entry).(callStack := m.callStack + [c]), Running(m), sp)
    ensures Resume(m, c, sp, entry) == Swap(Resuming(m, c, sp, entry), c, !m.cos[c].started)
  {
  }

  class Environment {
    var cos: map<CoId, CoRoutine>
    var stacks: map<StackId, Stack>
    var callStack: seq<CoId>
    var pendingCo: Option<CoId>
    var occupyCo: Option<CoId>

    ghost function Buffers(): set<array<Byte>>
      reads this`stacks
    {
      set s | s in stacks.Values :: s.buffer
    }

    /** Different names are different objects. */
    ghost predicate Valid()
      reads this`cos, this`stacks
    {
      && (forall c, d :: c in cos && d in cos && c != d ==> cos[c] != cos[d])
      && (forall s, t :: s in stacks && t in stacks && s != t ==>
          stacks[s] != stacks[t] && stacks[s].buffer != stacks[t].buffer)
    }

    ghost function Cos(): map<CoId, CoState>
      reads this`cos, cos.Values
    {
      map c | c in cos :: cos[c].Abs()
    }

    ghost function Stacks(): map<StackId, StackMem>
      reads this`stacks, stacks.Values, Buffers()
    {
      map s | s in stacks :: stacks[s].Abs()
    }

    ghost function Abs(): Machine
      reads this, cos.Values, stacks.Values, Buffers()
    {
      Machine(Cos(), Stacks(), callStack, pendingCo, occupyCo)
    }

    /** co_init_curr_thread_env: the main coroutine is the only one and runs. */
    constructor (main: CoId, s: StackId)
      ensures Valid() && Initial(Abs()) && callStack == [main] && stacks.Keys == {s}
      ensures fresh(cos.Values) && fresh(stacks.Values) && fresh(Buffers())
    {
      var buffer := new Byte[StackSize(0)];
      var stack := new Stack(buffer, Some(main));
      var self := new CoRoutine(s, false);
      self.isMain := true;
      cos, stacks, callStack := map[main := self], map[s := stack], [main];
      pendingCo, occupyCo := None, None;
      new;
      AloneIsInitial(main, s, buffer[..]);
      assert Cos() == Alone(main, s, buffer[..]).cos && Stacks() == Alone(main, s, buffer[..]).stacks;
    }

    /** co_alloc_stackmem for a share group; what the buffer holds is arbitrary. */
    method AllocStackMem(s: StackId, size: nat) returns (ghost content: seq<Byte>)
      requires Valid() && s !in stacks
      modifies this`stacks
      ensures Valid() && |content| == size && Abs() == WithPoolStack(old(Abs()), s, content)
    {
      content := AddNewStack(s, size, None);
    }

    method AddNewStack(s: StackId, size: nat, owner: Option<CoId>) returns (ghost content: seq<Byte>)
      requires Valid() && s !in stacks
      modifies this`stacks
      ensures Valid() && |content| == size && stacks.Keys == old(stacks).Keys + {s}
      ensures Abs() == old(Abs()).(stacks := old(Abs()).stacks[s := StackMem(content, owner, None)])
    {
      ghost var m := Abs();
      var buffer := new Byte[size];
      content := buffer[..];
      var stack := new Stack(buffer, owner);
      assert Abs() == m && stack.Abs() == StackMem(content, owner, None);
      AddStack(s, stack);
    }

    // ----- single assignments -----

    method SetSp(c: CoId, sp: nat)
      requires Valid() && c in cos
      modifies cos[c]
      ensures Cos() == old(Cos())[c := old(Cos())[c].(sp := sp)]
    {
      cos[c].stackSp := sp;
    }

    method SetOccupant(s: StackId, o: Option<CoId>)
      requires Valid() && s in stacks
      modifies stacks[s]
      ensures Stacks() == old(Stacks())[s := old(Stacks())[s].(occupant := o)]
    {
      stacks[s].occupyCo := o;
    }

    /** memcpy into the buffer of stack s. */
    method CopyIn(s: StackId, at: nat, data: seq<Byte>)
      requires Valid() && s in stacks && at + |data| <= stacks[s].buffer.Length
      modifies stacks[s].buffer
      ensures var old_ := old(stacks[s].buffer[..]);
        Stacks() == old(Stacks())[s := old(Stacks())[s].(buffer := old_[..at] + data + old_[at + |data|..])]
    {
      var buffer := stacks[s].buffer;
      for i := 0 to |data|
        invariant buffer[..] == old(buffer[..at]) + data[..i] + old(buffer[at + i..])
      {
        buffer[at + i] := data[i];
      }
      assert data[..|data|] == data;
    }

    // ----- the switch -----

    method SaveStackBuffer(o: CoId)
      requires Valid() && Ok(Abs(), o)
      modifies cos[o]
      ensures Abs() == SharedStack.SaveStackBuffer(old(Abs()), o)
    {
      var buffer := stacks[cos[o].stack].buffer;
      var bytes := buffer[cos[o].stackSp..];
      assert bytes == Seen(Abs(), o);
      SetSave(o, Some(bytes));
    }

    method SetSave(o: CoId, save: Option<seq<Byte>>)
      requires Valid() && o in cos
      modifies cos[o]
      ensures Cos() == old(Cos())[o := old(Cos())[o].(save := save)]
    {
      cos[o].saveBuffer := save;
    }

    /** p becomes the occupant of its shared stack; the previous one is noted. */
    method Occupy(p: CoId)
      requires Valid() && p in cos && cos[p].stack in stacks
      modifies this`pendingCo, this`occupyCo, stacks[cos[p].stack]
      ensures Stacks() == old(Stacks())[cos[p].stack := old(Stacks())[cos[p].stack].(occupant := Some(p))]
      ensures pendingCo == Some(p) && occupyCo == old(stacks[cos[p].stack].occupyCo)
    {
      pendingCo := Some(p);
      occupyCo := stacks[cos[p].stack].occupyCo;
      SetOccupant(cos[p].stack, Some(p));
    }

    method TakeOver(p: CoId)
      requires Valid() && Ok(Abs(), p)
      modifies this`pendingCo, this`occupyCo, stacks[cos[p].stack]
      ensures Abs() == Occupied(old(Abs()), p)
    {
      Occupy(p);
    }

    method SavePrevious(p: CoId)
      requires Valid() && (occupyCo.Some? ==> Ok(Abs(), occupyCo.value))
      modifies cos.Values
      ensures Abs() == Saved(old(Abs()), p)
    {
      if occupyCo.Some? && occupyCo.value != p {
        SaveStackBuffer(occupyCo.value);
      }
    }

    /** co_swap before coctx_swap. */
    method SwapOut(p: CoId)
      requires Valid() && Ok(Abs(), p) && OccupantOk(Abs(), p)
      modifies this`pendingCo, this`occupyCo, cos.Values, stacks.Values
      ensures Abs() == SharedStack.SwapOut(old(Abs()), p)
    {
      ghost var m := Abs();
      if cos[p].isShareStack {
        SwapOutShared(p, m);
      } else {
        pendingCo, occupyCo := None, None;
      }
    }

    method SwapOutShared(p: CoId, ghost m: Machine)
      requires Valid() && m == Abs() && Ok(m, p) && OccupantOk(m, p) && m.cos[p].isShared
      modifies this`pendingCo, this`occupyCo, cos.Values, stacks.Values
      ensures Abs() == SharedStack.SwapOut(m, p)
    {
      SwapOutIs(m, p);
      TakeOver(p);
      SavePrevious(p);
    }

    /** co_swap after coctx_swap. */
    method SwapIn()
      requires Valid()
      requires Fits(Abs())
      modifies Buffers()
      ensures Abs() == SharedStack.SwapIn(old(Abs()))
    {
      if occupyCo.Some? && pendingCo.Some? && occupyCo != pendingCo {
        var p := cos[pendingCo.value];
        if p.saveBuffer.Some? && |p.saveBuffer.value| > 0 {
          CopyIn(p.stack, p.stackSp, p.saveBuffer.value);
        }
      }
    }

    /** co_swap: curr has stored its stack pointer, and the context switch enters p. Unless p is entered
        for the first time, it continues in its own call of co_swap, behind the switch. */
    method CoSwap(curr: CoId, sp: nat, p: CoId, first: bool, ghost m: Machine)
      requires Valid() && curr in cos && m == WithSp(Abs(), curr, sp)
      requires CanSwap(m, p, first)
      modifies this`pendingCo, this`occupyCo, cos.Values, stacks.Values, Buffers()
      ensures Abs() == Swap(m, p, first)
    {
      SetSp(curr, sp);
      assert Abs() == m;
      SwapOut(p);
      if !first {
        SwapIn();
      }
    }

    // ----- calls of the running coroutine -----

    /** The running coroutine runs: its stack ends up with any content at all. */
    method Execute(content: seq<Byte>)
      requires Valid() && CanExecute(Abs(), content)
      modifies Buffers()
      ensures Abs() == SharedStack.Execute(old(Abs()), content)
    {
      var s := cos[callStack[|callStack| - 1]].stack;
      assert Running(Abs()) == callStack[|callStack| - 1];
      ghost var before := stacks[s].buffer[..];
      CopyIn(s, 0, content);
      assert before[..0] + content + before[|content|..] == content;
    }

    /** coctx_make as far as memory is concerned. */
    method Stamp(c: CoId, entry: seq<Byte>)
      requires Valid() && Ok(Abs(), c) && |entry| == WORD
      modifies Buffers()
      ensures Abs() == WithBuffer(old(Abs()), cos[c].stack, Stamped(BufferOf(old(Abs()), c), entry))
    {
      var s := cos[c].stack;
      CopyIn(s, (stacks[s].buffer.Length - WORD) / 16 * 16, entry);
    }

    method SetStart(c: CoId)
      requires Valid() && c in cos
      modifies cos[c]
      ensures Cos() == old(Cos())[c := old(Cos())[c].(started := true)]
    {
      cos[c].start := true;
    }

    method CoMake(c: CoId, entry: seq<Byte>)
      requires Valid() && Ok(Abs(), c) && |entry| == WORD
      modifies cos.Values, Buffers()
      ensures Abs() == SharedStack.CoMake(old(Abs()), c, entry)
    {
      Stamp(c, entry);
      SetStart(c);
    }

    method SetCallStack(cs: seq<CoId>)
      requires Valid()
      modifies this`callStack
      ensures Abs() == old(Abs()).(callStack := cs)
    {
      callStack := cs;
    }

    /** co_resume, called with the stack pointer at sp. */
    method CoResume(c: CoId, sp: nat, entry: seq<Byte>)
      requires Valid() && MayResume(Abs(), c, sp, entry)
      modifies this`callStack, this`pendingCo, this`occupyCo, cos.Values, stacks.Values, Buffers()
      ensures Abs() == Resume(old(Abs()), c, sp, entry)
    {
      ghost var m := Abs();
      ResumeIs(m, c, sp, entry);
      var curr := callStack[|callStack| - 1];
      var first := !cos[c].start;
      if first {
        CoMake(c, entry);
      }
      SetCallStack(callStack + [c]);
      CoSwap(curr, sp, c, first, Resuming(m, c, sp, entry));
    }

    /** co_yield_env, called with the stack pointer at sp. */
    method CoYield(sp: nat)
      requires Valid() && MayYield(Abs(), sp)
      modifies this`callStack, this`pendingCo, this`occupyCo, cos.Values, stacks.Values, Buffers()
      ensures Abs() == Yield(old(Abs()), sp)
    {
      ghost var m := Abs();
      YieldIs(m, sp);
      var n := |callStack|;
      var last, curr := callStack[n - 2], callStack[n - 1];
      SetCallStack(callStack[..n - 1]);
      assert last == m.callStack[|m.callStack| - 2];
      CoSwap(curr, sp, last, false, Yielding(m, sp));
      assert Abs() == Yield(m, sp);
    }

    /** CoRoutineFunc after the user function has returned. */
    method CoFinish(sp: nat)
      requires Valid() && HasRunning(Abs()) && MayYield(WithEnded(Abs(), Running(Abs())), sp)
      modifies this`callStack, this`pendingCo, this`occupyCo, cos.Values, stacks.Values, Buffers()
      ensures HasRunning(old(Abs())) && CanYield(old(Abs()), sp) && Abs() == Finish(old(Abs()), sp)
    {
      FinishIs(Abs(), sp);
      SetEnd(callStack[|callStack| - 1]);
      CoYield(sp);
    }

    method SetEnd(c: CoId)
      requires Valid() && c in cos
      modifies cos[c]
      ensures Abs() == WithEnded(old(Abs()), c)
    {
      cos[c].end := true;
      assert Cos() == WithEnded(old(Abs()), c).cos;
    }

    method Vacate(c: CoId)
      requires Valid() && Ok(Abs(), c)
      modifies stacks.Values
      ensures Abs() == Vacated(old(Abs()), c)
    {
      if stacks[cos[c].stack].occupyCo == Some(c) {
        SetOccupant(cos[c].stack, None);
      }
    }

    method ClearFlags(c: CoId)
      requires Valid() && c in cos
      modifies cos[c]
      ensures Cos() == old(Cos())[c := old(Cos())[c].(started := false, ended := false, save := None)]
    {
      cos[c].start, cos[c].end, cos[c].saveBuffer := false, false, None;
    }

    /** co_reset. */
    method CoReset(c: CoId)
      requires Valid() && Ok(Abs(), c)
      modifies cos.Values, stacks.Values
      ensures Abs() == Reset(old(Abs()), c)
    {
      ResetIs(Abs(), c);
      if !cos[c].start || cos[c].isMain { return; }
      ClearFlags(c);
      assert Abs() == Cleared(old(Abs()), c);
      Vacate(c);
    }

    method DropCo(c: CoId)
      requires Valid() && c in cos
      modifies this`cos
      ensures Valid() && Abs() == old(Abs()).(cos := old(Abs()).cos - {c})
    {
      cos := cos - {c};
      assert Cos() == old(Cos()) - {c};
    }

    method DropStack(s: StackId)
      requires Valid() && s in stacks
      modifies this`stacks
      ensures Valid() && Abs() == old(Abs()).(stacks := old(Abs()).stacks - {s})
    {
      stacks := stacks - {s};
      assert Stacks() == old(Stacks()) - {s};
    }

    /** co_release. */
    method CoFree(c: CoId)
      requires Valid() && Ok(Abs(), c)
      modifies this`cos, this`stacks, stacks.Values
      ensures Valid() && Abs() == Free(old(Abs()), c)
    {
      if !cos[c].isShareStack {
        DropStack(cos[c].stack);
      } else {
        Vacate(c);
      }
      DropCo(c);
    }

    method AddCo(c: CoId, co: CoRoutine)
      requires Valid() && c !in cos && co !in cos.Values
      modifies this`cos
      ensures Valid() && cos == old(cos)[c := co] && Abs() == old(Abs()).(cos := old(Abs()).cos[c := co.Abs()])
    {
      cos := cos[c := co];
      assert Cos() == old(Cos())[c := co.Abs()];
    }

    method AddStack(s: StackId, stack: Stack)
      requires Valid() && s !in stacks && stack !in stacks.Values && stack.buffer !in Buffers()
      modifies this`stacks
      ensures Valid() && stacks == old(stacks)[s := stack]
      ensures Abs() == old(Abs()).(stacks := old(Abs()).stacks[s := stack.Abs()])
    {
      stacks := stacks[s := stack];
      assert Stacks() == old(Stacks())[s := stack.Abs()];
    }

    /** co_create on the next stack of a share group. */
    method CreateInGroup(c: CoId, group: ShareStack)
      requires Valid() && c !in cos && group.stackArray != [] && group.allocIdx < TWO32
      requires forall s :: s in group.stackArray ==> s in stacks
      modifies this`cos, group
      ensures Valid() && group.allocIdx == (old(group.allocIdx) + 1) % TWO32
      ensures Abs() ==
        SharedStack.CreateShared(old(Abs()), c, group.stackArray[old(group.allocIdx) % |group.stackArray|])
    {
      ghost var m := Abs();
      var s := group.GetStackMem();
      assert Abs() == m;
      CreateShared(c, s);
    }

    method CreateShared(c: CoId, s: StackId)
      requires Valid() && c !in cos && s in stacks
      modifies this`cos
      ensures Valid() && Abs() == SharedStack.CreateShared(old(Abs()), c, s)
    {
      var co := new CoRoutine(s, true);
      AddCo(c, co);
    }

    /** co_create on a stack of its own; what the buffer holds is arbitrary. */
    method CreatePrivate(c: CoId, s: StackId, size: int) returns (ghost content: seq<Byte>)
      requires Valid() && c !in cos && s !in stacks
      modifies this`cos, this`stacks
      ensures Valid() && |content| == StackSize(size)
      ensures Abs() == SharedStack.CreatePrivate(old(Abs()), c, s, content)
    {
      content := AddNewStack(s, StackSize(size), Some(c));
      ghost var m := Abs();
      var co := new CoRoutine(s, false);
      assert Abs() == m;
      AddCo(c, co);
    }
  }
}
