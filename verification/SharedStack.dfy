/** The values the shared-stack switch works on, and the switch itself as functions.

    Coroutines and stack memories are named by numbers instead of pointers. Addresses are offsets
    into the stack's buffer: stack_buffer is 0, stack_bp is the length of the buffer. */
module SharedStack {
  import opened Basics

  type CoId = nat
  type StackId = nat

  /** stStackMem_t: the buffer, the coroutine it was allocated for when it is a private stack, and
      the last coroutine that was switched in on it when it is a shared one (occupy_co). */
  datatype StackMem = StackMem(buffer: seq<Byte>, owner: Option<CoId>, occupant: Option<CoId>)

  /** The fields of stCoRoutine_t that switching touches. */
  datatype CoState = CoState(
    stack: StackId,
    isShared: bool,
    isMain: bool,
    started: bool,
    ended: bool,
    sp: nat,
    save: Option<seq<Byte>>)

  /** stCoRoutineEnv_t together with every live coroutine and stack. */
  datatype Machine = Machine(
    cos: map<CoId, CoState>,
    stacks: map<StackId, StackMem>,
    callStack: seq<CoId>,
    pending: Option<CoId>,
    occupy: Option<CoId>)

  const WORD := 8

  /** Where coctx_make puts the address of the entry function: the topmost 16-aligned word that
      still fits below stack_bp (the buffer itself is 16-aligned). */
  function EntrySlot(size: nat): (slot: nat)
    requires size >= WORD
    ensures slot + WORD <= size
  {
    (size - WORD) / 16 * 16
  }

  function Stamped(buffer: seq<Byte>, entry: seq<Byte>): (r: seq<Byte>)
    requires |buffer| >= WORD == |entry|
    ensures |r| == |buffer|
    ensures r[..EntrySlot(|buffer|)] == buffer[..EntrySlot(|buffer|)]
    ensures r[EntrySlot(|buffer|) + WORD..] == buffer[EntrySlot(|buffer|) + WORD..]
  {
    buffer[..EntrySlot(|buffer|)] + entry + buffer[EntrySlot(|buffer|) + WORD..]
  }

  /** c is a coroutine of m, on a stack of m that has room for its frames. */
  ghost predicate Ok(m: Machine, c: CoId) {
    && c in m.cos && m.cos[c].stack in m.stacks
    && |m.stacks[m.cos[c].stack].buffer| >= WORD
    && m.cos[c].sp <= EntrySlot(|m.stacks[m.cos[c].stack].buffer|)
  }

  ghost function BufferOf(m: Machine, c: CoId): seq<Byte>
    requires Ok(m, c)
  {
    m.stacks[m.cos[c].stack].buffer
  }

  ghost function OccupantOf(m: Machine, c: CoId): Option<CoId>
    requires Ok(m, c)
  {
    m.stacks[m.cos[c].stack].occupant
  }

  /** What a coroutine reads at and above its stack pointer. */
  ghost function Seen(m: Machine, c: CoId): seq<Byte>
    requires Ok(m, c)
  {
    BufferOf(m, c)[m.cos[c].sp..]
  }

  ghost predicate HasRunning(m: Machine) {
    |m.callStack| > 0 && Ok(m, m.callStack[|m.callStack| - 1])
  }

  ghost function Running(m: Machine): CoId
    requires HasRunning(m)
  {
    m.callStack[|m.callStack| - 1]
  }

  ghost function WithBuffer(m: Machine, s: StackId, buffer: seq<Byte>): Machine
    requires s in m.stacks
  {
    m.(stacks := m.stacks[s := m.stacks[s].(buffer := buffer)])
  }

  ghost function WithSp(m: Machine, c: CoId, sp: nat): Machine
    requires c in m.cos
  {
    m.(cos := m.cos[c := m.cos[c].(sp := sp)])
  }

  ghost predicate CanExecute(m: Machine, content: seq<Byte>) {
    HasRunning(m) && |content| == |BufferOf(m, Running(m))|
  }

  /** The running coroutine runs: its stack ends up with any content at all. */
  ghost function Execute(m: Machine, content: seq<Byte>): Machine
    requires CanExecute(m, content)
  {
    WithBuffer(m, m.cos[Running(m)].stack, content)
  }

  ghost function SaveStackBuffer(m: Machine, o: CoId): Machine
    requires Ok(m, o)
  {
    m.(cos := m.cos[o := m.cos[o].(save := Some(Seen(m, o)))])
  }

  ghost predicate OccupantOk(m: Machine, c: CoId)
    requires Ok(m, c)
  {
    OccupantOf(m, c).Some? ==> Ok(m, OccupantOf(m, c).value)
  }

  /** co_swap from the point where the stack pointer of the current coroutine has been noted, up to
      coctx_swap. */
  ghost function SwapOut(m: Machine, p: CoId): Machine
    requires Ok(m, p) && OccupantOk(m, p)
  {
    if !m.cos[p].isShared then
      m.(pending := None, occupy := None)
    else
      var s := m.cos[p].stack;
      var occupant := OccupantOf(m, p);
      var m1 := m.(stacks := m.stacks[s := m.stacks[s].(occupant := Some(p))], pending := Some(p), occupy := occupant);
      if occupant.Some? && occupant.value != p then SaveStackBuffer(m1, occupant.value) else m1
  }

  /** co_swap after coctx_swap, run by the coroutine that gets control back. */
  ghost function SwapIn(m: Machine): Machine {
    if m.occupy.Some? && m.pending.Some? && m.occupy != m.pending && Ok(m, m.pending.value) then
      var p := m.cos[m.pending.value];
      if p.save.Some? && 0 < |p.save.value| <= |BufferOf(m, m.pending.value)| - p.sp then
        var buffer := BufferOf(m, m.pending.value);
        WithBuffer(m, p.stack, buffer[..p.sp] + p.save.value + buffer[p.sp + |p.save.value|..])
      else m
    else m
  }

  /** Control goes to p. A coroutine that is entered for the first time starts in its entry
      function; one that was switched out before continues inside its own co_swap. */
  ghost function Swap(m: Machine, p: CoId, first: bool): Machine
    requires Ok(m, p) && OccupantOk(m, p)
  {
    if first then SwapOut(m, p) else SwapIn(SwapOut(m, p))
  }

  /** coctx_make, as far as memory is concerned, and the cStart flag set after it. */
  ghost function CoMake(m: Machine, c: CoId, entry: seq<Byte>): Machine
    requires Ok(m, c) && |entry| == WORD
  {
    var m1 := WithBuffer(m, m.cos[c].stack, Stamped(BufferOf(m, c), entry));
    m1.(cos := m1.cos[c := m1.cos[c].(started := true)])
  }

  ghost predicate RoomFor(m: Machine, sp: nat) {
    HasRunning(m) && sp <= EntrySlot(|BufferOf(m, Running(m))|)
  }

  ghost predicate CanResume(m: Machine, c: CoId, sp: nat) {
    && RoomFor(m, sp)
    && Ok(m, c) && OccupantOk(m, c) && !m.cos[c].isMain && !m.cos[c].ended && c !in m.callStack
  }

  ghost function Resume(m: Machine, c: CoId, sp: nat, entry: seq<Byte>): Machine
    requires CanResume(m, c, sp) && |entry| == WORD
  {
    var m1 := if m.cos[c].started then m else CoMake(m, c, entry);
    Swap(WithSp(m1, Running(m), sp).(callStack := m.callStack + [c]), c, !m.cos[c].started)
  }

  ghost predicate CanYield(m: Machine, sp: nat) {
    && RoomFor(m, sp)
    && |m.callStack| >= 2 && Ok(m, m.callStack[|m.callStack| - 2]) && OccupantOk(m, m.callStack[|m.callStack| - 2])
  }

  ghost function Yield(m: Machine, sp: nat): Machine
    requires CanYield(m, sp)
  {
    var n := |m.callStack|;
    Swap(WithSp(m, m.callStack[n - 1], sp).(callStack := m.callStack[..n - 1]), m.callStack[n - 2], false)
  }

  ghost function WithEnded(m: Machine, c: CoId): Machine
    requires c in m.cos
  {
    m.(cos := m.cos[c := m.cos[c].(ended := true)])
  }

  /** CoRoutineFunc after the user function returned. */
  ghost function Finish(m: Machine, sp: nat): Machine
    requires CanYield(m, sp)
  {
    Yield(WithEnded(m, Running(m)), sp)
  }

  ghost function Vacated(m: Machine, c: CoId): Machine
    requires Ok(m, c)
  {
    var s := m.cos[c].stack;
    if m.stacks[s].occupant == Some(c)
    then m.(stacks := m.stacks[s := m.stacks[s].(occupant := None)])
    else m
  }

  ghost function Reset(m: Machine, c: CoId): Machine
    requires Ok(m, c)
  {
    if !m.cos[c].started || m.cos[c].isMain then m
    else Vacated(m.(cos := m.cos[c := m.cos[c].(started := false, ended := false, save := None)]), c)
  }

  /** co_free. A private stack goes away with its coroutine. */
  ghost function Free(m: Machine, c: CoId): Machine
    requires Ok(m, c)
  {
    if m.cos[c].isShared
    then Vacated(m, c).(cos := m.cos - {c})
    else m.(cos := m.cos - {c}, stacks := m.stacks - {m.cos[c].stack})
  }

  ghost function Created(s: StackId, isShared: bool): CoState {
    CoState(s, isShared, false, false, false, 0, None)
  }

  ghost function CreateShared(m: Machine, c: CoId, s: StackId): Machine {
    m.(cos := m.cos[c := Created(s, true)])
  }

  ghost function CreatePrivate(m: Machine, c: CoId, s: StackId, buffer: seq<Byte>): Machine {
    m.(cos := m.cos[c := Created(s, false)], stacks := m.stacks[s := StackMem(buffer, Some(c), None)])
  }
}
