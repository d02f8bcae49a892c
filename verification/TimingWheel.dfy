/** The hierarchical timing wheel: one wheel of 256 lists and four of 64, as functions.

    The program keeps the low 32 bits of the tick count in m_time and of a timer's due tick in m_expire,
    and every decision below is taken on those. `ticks` and `due` are the unwrapped values, carried
    along for the statements. Shifts and masks by powers of two are written as divisions and
    remainders. */
module TimingWheel {
  import opened Basics

  const NEAR := 256
  const LEVEL := 64

  function Wrap(t: int): nat {
    t % TWO32
  }

  /** A queued timer: its address, m_expire, and the tick it is due. */
  datatype Node = Node(id: nat, expire: nat, due: nat)

  datatype Slot = Near(i: nat) | Level(k: nat, i: nat)

  predicate ValidSlot(s: Slot) {
    match s
    case Near(i) => i < NEAR
    case Level(k, i) => k < 4 && i < LEVEL
  }

  /** A call of a timer's function, at an absolute tick. */
  datatype Firing = Firing(id: nat, tick: nat)

  datatype Wheel = Wheel(time: nat, ticks: nat, at: imap<Slot, seq<Node>>, cancelled: set<nat>, fired: seq<Firing>)

  /** Ticks covered by one list of level k. */
  function Unit(k: nat): (u: nat)
    requires k < 4
    ensures u > 0
  {
    if k == 0 then 0x100 else if k == 1 then 0x4000 else if k == 2 then 0x10_0000 else 0x400_0000
  }

  /** The list add_node chooses, from the 32-bit expiry and the 32-bit current time. */
  function Place(expire: nat, time: nat): (s: Slot)
    ensures ValidSlot(s)
  {
    var msec := Wrap(expire - time);
    if msec < NEAR then Near(expire % NEAR)
    else if msec < 0x4000 then Level(0, expire / 0x100 % LEVEL)
    else if msec < 0x10_0000 then Level(1, expire / 0x4000 % LEVEL)
    else if msec < 0x400_0000 then Level(2, expire / 0x10_0000 % LEVEL)
    else Level(3, expire / 0x400_0000 % LEVEL)
  }

  ghost predicate Shaped(w: Wheel) {
    forall s :: ValidSlot(s) <==> s in w.at
  }

  ghost function EmptyWheel(): (w: Wheel)
    ensures Shaped(w)
  {
    Wheel(0, 0, imap s | ValidSlot(s) :: [], {}, [])
  }

  ghost function AddNode(w: Wheel, n: Node): (w': Wheel)
    requires Shaped(w)
    ensures Shaped(w')
  {
    var s := Place(n.expire, w.time);
    w.(at := w.at[s := w.at[s] + [n]])
  }

  ghost function Queued(w: Wheel, id: nat, delay: int): Node
    requires delay > 0
  {
    Node(id, Wrap(w.time + delay), w.ticks + delay)
  }

  /** add_timer: a delay that is not positive runs at once. */
  ghost function AddTimer(w: Wheel, id: nat, delay: int): (w': Wheel)
    requires Shaped(w)
    ensures Shaped(w')
  {
    if delay <= 0 then w.(fired := w.fired + [Firing(id, w.ticks)])
    else AddNode(w, Queued(w, id, delay))
  }

  ghost function Cancel(w: Wheel, id: nat): Wheel {
    w.(cancelled := w.cancelled + {id})
  }

  ghost function Relink(w: Wheel, list: seq<Node>): (w': Wheel)
    requires Shaped(w)
    ensures Shaped(w')
    ensures w'.time == w.time && w'.ticks == w.ticks && w'.cancelled == w.cancelled && w'.fired == w.fired
    decreases |list|
  {
    if list == [] then w else Relink(AddNode(w, list[0]), list[1..])
  }

  ghost function MoveList(w: Wheel, s: Slot): (w': Wheel)
    requires Shaped(w) && ValidSlot(s)
    ensures Shaped(w')
    ensures w'.time == w.time && w'.ticks == w.ticks && w'.cancelled == w.cancelled && w'.fired == w.fired
  {
    Relink(w.(at := w.at[s := []]), w.at[s])
  }

  /** The list timer_shift cascades when the 32-bit time has become ct: for a nonzero ct the first
      level, from k up, whose index is not 0, provided ct is a multiple of that level's unit. */
  function Drained(ct: nat): (r: seq<Slot>)
    ensures |r| <= 1 && (r != [] ==> ValidSlot(r[0]) && r[0].Level?)
  {
    if ct == 0 then [Level(3, 0)] else DrainedFrom(ct, 0)
  }

  function DrainedFrom(ct: nat, k: nat): (r: seq<Slot>)
    requires k <= 4
    ensures |r| <= 1 && (r != [] ==> ValidSlot(r[0]) && r[0].Level?)
    decreases 4 - k
  {
    if k == 4 || ct % Unit(k) != 0 then []
    else if ct / Unit(k) % LEVEL != 0 then [Level(k, ct / Unit(k) % LEVEL)]
    else DrainedFrom(ct, k + 1)
  }

  ghost function Tick(w: Wheel): Wheel {
    w.(time := if w.time + 1 == TWO32 then 0 else w.time + 1, ticks := w.ticks + 1)
  }

  ghost function Shift(w: Wheel): (w': Wheel)
    requires Shaped(w)
    ensures Shaped(w')
    ensures w'.time == Tick(w).time && w'.ticks == w.ticks + 1 && w'.cancelled == w.cancelled && w'.fired == w.fired
  {
    var w1 := Tick(w);
    var d := Drained(w1.time);
    if d == [] then w1 else MoveList(w1, d[0])
  }

  /** Calls made while dispatching a list: cancelled timers are dropped. */
  ghost function Calls(list: seq<Node>, cancelled: set<nat>, tick: nat): seq<Firing>
    decreases |list|
  {
    if list == [] then []
    else (if list[0].id in cancelled then [] else [Firing(list[0].id, tick)]) + Calls(list[1..], cancelled, tick)
  }

  ghost function Execute(w: Wheel): (w': Wheel)
    requires Shaped(w)
    ensures Shaped(w')
  {
    var s := Near(w.time % NEAR);
    w.(at := w.at[s := []], fired := w.fired + Calls(w.at[s], w.cancelled, w.ticks))
  }

  ghost function Update(w: Wheel): (w': Wheel)
    requires Shaped(w)
    ensures Shaped(w')
  {
    Execute(Shift(Execute(w)))
  }

  // ----- where a timer may be -----

  /** A list that timer_shift never cascades. */
  predicate Dead(s: Slot) {
    s.Level? && s.k < 3 && s.i == 0
  }

  /** The tick at which a list of level k that holds a timer due at `due` is cascaded. */
  function CascadeTick(k: nat, due: nat): nat
    requires k < 4
  {
    due / Unit(k) * Unit(k)
  }

  /** A timer due at `due` is in list s at tick t, `t` being past its last cascade. */
  predicate SlotOk(s: Slot, due: nat, t: nat) {
    match s
    case Near(i) => i == due % NEAR && t <= due < t + NEAR
    case Level(k, i) =>
      k < 4 && i == due / Unit(k) % LEVEL && (Dead(s) || t < CascadeTick(k, due) < t + LEVEL * Unit(k))
  }

  ghost predicate ListOk(s: Slot, list: seq<Node>, t: nat) {
    forall j :: 0 <= j < |list| ==> list[j].expire == Wrap(list[j].due) && SlotOk(s, list[j].due, t)
  }

  ghost predicate Clocked(w: Wheel) {
    w.time == Wrap(w.ticks)
  }

  ghost predicate WheelOk(w: Wheel) {
    Shaped(w) && Clocked(w) && forall s :: s in w.at ==> ListOk(s, w.at[s], w.ticks)
  }

  // ----- arithmetic -----

  lemma TickClocked(w: Wheel)
    requires Clocked(w)
    ensures Clocked(Tick(w))
  {
    WrapNext(w.ticks);
  }

  lemma WrapNext(t: nat)
    ensures Wrap(t + 1) == if Wrap(t) + 1 == TWO32 then 0 else Wrap(t) + 1
  {
  }

  lemma WrapSum(a: nat, b: nat)
    ensures Wrap(Wrap(a) + b) == Wrap(a + b)
  {
  }

  lemma WrapDifference(due: nat, t: nat)
    requires t <= due < t + TWO32
    ensures Wrap(Wrap(due) - Wrap(t)) == due - t
  {
  }

  lemma WrapIndex(t: nat, k: nat)
    requires k < 4
    ensures Wrap(t) / Unit(k) % LEVEL == t / Unit(k) % LEVEL
    ensures Wrap(t) % Unit(k) == 0 <==> t % Unit(k) == 0
    ensures Wrap(t) % NEAR == t % NEAR
  {
    WrapUnit(t, 0x100, 0x4_0000);
    if k == 1 { WrapUnit(t, 0x4000, 0x1000); }
    if k == 2 { WrapUnit(t, 0x10_0000, 0x40); }
    if k == 3 { WrapUnit(t, 0x400_0000, 1); }
  }

  lemma WrapUnit(t: nat, unit: nat, m: nat)
    requires unit > 0 && unit * LEVEL * m == TWO32
    ensures Wrap(t) / unit % LEVEL == t / unit % LEVEL
    ensures Wrap(t) % unit == t % unit
  {
    var q, r := t / TWO32, Wrap(t);
    var c := q * m * LEVEL;
    assert t == q * (unit * LEVEL * m) + r == c * unit + r;
    DivModAdd(c, r, unit);
    DivModAdd(q * m, r / unit, LEVEL);
  }

  lemma DivModAdd(c: nat, r: nat, u: nat)
    requires u > 0
    ensures (c * u + r) / u == c + r / u && (c * u + r) % u == r % u
  {
    var x := c * u + r;
    assert x == (c + r / u) * u + r % u;
    DivModUnique(x, u, c + r / u, r % u);
  }

  lemma DivModUnique(x: nat, u: nat, q: nat, r: nat)
    requires u > 0 && x == q * u + r && r < u
    ensures x / u == q && x % u == r
  {
    var d := x / u - q;
    MulSize(d, u);
    assert d * u == r - x % u;
  }

  lemma MulSize(d: int, u: nat)
    ensures d >= 1 ==> d * u >= u
    ensures d <= -1 ==> d * u <= 0 - u
  {
    if d >= 1 { assert (d - 1) * u >= 0; }
    if d <= -1 { assert (-1 - d) * u >= 0; }
  }

  /** add_node puts a timer where SlotOk wants it. */
  lemma PlaceOk(due: nat, t: nat)
    requires t <= due < t + TWO32
    ensures SlotOk(Place(Wrap(due), Wrap(t)), due, t)
  {
    WrapDifference(due, t);
    var s := Place(Wrap(due), Wrap(t));
    if s.Near? {
      WrapIndex(due, 0);
    } else {
      WrapIndex(due, s.k);
    }
  }
}
