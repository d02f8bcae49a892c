/** The timing wheel as the program keeps it: a 32-bit clock and arrays of lists, updated in place. */
module TimeWheelClass {
  import opened Basics
  import opened TimingWheel
  import opened TimingWheelProof
  import opened TimingWheelTheorems

  // ----- the whole wheel stays in order -----

  ghost predicate NowEmpty(w: Wheel)
    requires Shaped(w)
  {
    w.at[Near(w.time % NEAR)] == []
  }

  /** The clock moves: every list is still in order, except the one about to be cascaded, all of whose
      timers have their cascade tick now. */
  lemma TickOk(w: Wheel, s: Slot)
    requires InOrder(w) && ValidSlot(s)
    ensures Clocked(Tick(w))
    ensures Drained(Tick(w).time) != [s] ==> ListOk(s, w.at[s], w.ticks + 1)
    ensures Drained(Tick(w).time) == [s] ==> s.Level? && Cascading(w.at[s], s.k, w.ticks + 1)
  {
    TickClocked(w);
    assert ListOk(s, w.at[s], w.ticks);
    forall j | 0 <= j < |w.at[s]|
      ensures if Drained(Wrap(w.ticks + 1)) == [s] then s.Level? && CascadeTick(s.k, w.at[s][j].due) == w.ticks + 1
              else SlotOk(s, w.at[s][j].due, w.ticks + 1)
    {
      var due := w.at[s][j].due;
      if s.Near? { NearIsNow(due, w.ticks); }
      ShiftedOk(s, due, w.ticks + 1);
      if s.Level? {
        if Dead(s) {
          if Wrap(w.ticks + 1) != 0 { DrainedIndex(Wrap(w.ticks + 1), 0); }
        } else {
          DrainedExactly(w.ticks + 1, s, due);
        }
      }
    }
  }

  ghost predicate Timely(n: Node, t: nat) {
    n.expire == Wrap(n.due) && t <= n.due < t + TWO32
  }

  lemma AddNodeOk(w: Wheel, n: Node)
    requires WheelOk(w) && Timely(n, w.ticks)
    ensures WheelOk(AddNode(w, n))
  {
    PlaceOk(n.due, w.ticks);
    var w' := AddNode(w, n);
    forall s | s in w'.at ensures ListOk(s, w'.at[s], w'.ticks) {
      assert ListOk(s, w.at[s], w.ticks);
    }
  }

  /** The wheel between two updates: every timer is where it should be, and none is due now. */
  ghost predicate InOrder(w: Wheel) {
    WheelOk(w) && NowEmpty(w)
  }

  lemma AddQueuedOk(w: Wheel, n: Node)
    requires InOrder(w) && Timely(n, w.ticks) && w.ticks < n.due
    ensures InOrder(AddNode(w, n))
  {
    AddNodeOk(w, n);
    PlaceOk(n.due, w.ticks);
    if Place(n.expire, w.time).Near? { NearIsNow(n.due, w.ticks); }
  }

  /** Every timer of the list has its cascade tick now. */
  ghost predicate Cascading(list: seq<Node>, k: nat, t: nat)
    requires k < 4
  {
    forall j :: 0 <= j < |list| ==> list[j].expire == Wrap(list[j].due) && CascadeTick(k, list[j].due) == t
  }

  /** The list of a level that is being cascaded. */
  ghost predicate Draining(w: Wheel, s: Slot) {
    Shaped(w) && Clocked(w) && ValidSlot(s) && s.Level? && Cascading(w.at[s], s.k, w.ticks)
  }

  /** One round of the loop of move_list, on values. */
  ghost function MovedHead(w: Wheel, s: Slot): Wheel
    requires Draining(w, s) && w.at[s] != []
  {
    AddNode(w.(at := w.at[s := w.at[s][1..]]), w.at[s][0])
  }

  lemma MoveHead(w: Wheel, s: Slot)
    requires Draining(w, s) && w.at[s] != []
    ensures var w' := MovedHead(w, s);
      Draining(w', s) && w'.at[s] == w.at[s][1..] && TimingWheel.MoveList(w', s) == TimingWheel.MoveList(w, s)
  {
    CascadeLowers(s.k, w.at[s][0].due, w.ticks);
    var w' := MovedHead(w, s);
    assert w'.at[s := []] == AddNode(w.(at := w.at[s := []]), w.at[s][0]).at;
  }

  lemma MoveNothing(w: Wheel, s: Slot)
    requires Shaped(w) && ValidSlot(s) && w.at[s] == []
    ensures TimingWheel.MoveList(w, s) == w
  {
    assert w.at[s := []] == w.at;
  }

  lemma {:induction false} RelinkOk(w: Wheel, list: seq<Node>)
    requires WheelOk(w) && forall j :: 0 <= j < |list| ==> Timely(list[j], w.ticks)
    ensures WheelOk(Relink(w, list))
    decreases |list|
  {
    if list != [] {
      AddNodeOk(w, list[0]);
      RelinkOk(AddNode(w, list[0]), list[1..]);
    }
  }

  lemma ShiftOk(w: Wheel)
    requires InOrder(w)
    ensures WheelOk(Shift(w))
  {
    var w1 := Tick(w);
    var d := Drained(w1.time);
    forall s | s in w1.at && d != [s] ensures ListOk(s, w1.at[s], w1.ticks) { TickOk(w, s); }
    TickOk(w, Near(0));
    if d != [] {
      var s := d[0];
      TickOk(w, s);
      forall j | 0 <= j < |w.at[s]| ensures Timely(w.at[s][j], w1.ticks) {
        CascadeBlock(s.k, w.at[s][j].due);
      }
      RelinkOk(w1.(at := w1.at[s := []]), w1.at[s]);
    }
  }

  lemma CascadeBlock(k: nat, due: nat)
    requires k < 4
    ensures CascadeTick(k, due) <= due < CascadeTick(k, due) + Unit(k) <= CascadeTick(k, due) + TWO32
  {
  }

  lemma ExecuteOk(w: Wheel)
    requires WheelOk(w)
    ensures InOrder(Execute(w))
  {
    var w' := Execute(w);
    forall s | s in w'.at ensures ListOk(s, w'.at[s], w'.ticks) {
      assert ListOk(s, w.at[s], w.ticks);
    }
  }

  /** Every operation of the program keeps the wheel in order. */
  lemma UpdateKeepsOrder(w: Wheel)
    requires InOrder(w)
    ensures InOrder(Update(w))
  {
    ExecuteOk(w);
    ShiftOk(Execute(w));
    ExecuteOk(Shift(Execute(w)));
  }

  lemma AddTimerKeepsOrder(w: Wheel, id: nat, delay: int)
    requires InOrder(w) && delay <= MAX_DELAY
    ensures InOrder(TimingWheel.AddTimer(w, id, delay))
  {
    if delay > 0 {
      WrapSum(w.ticks, delay);
      AddQueuedOk(w, Queued(w, id, delay));
    } else {
      forall s | s in w.at ensures ListOk(s, w.at[s], w.ticks) { }
    }
  }

  lemma CancelKeepsOrder(w: Wheel, id: nat)
    requires InOrder(w)
    ensures InOrder(Cancel(w, id))
  {
    forall s | s in w.at ensures ListOk(s, w.at[s], w.ticks) { }
  }

  /** w' is w some ticks later: still in order, and every timer has the fate it should have. */
  ghost predicate Later(w: Wheel, w': Wheel, n: nat) {
    && InOrder(w') && w'.ticks == w.ticks + n && w'.cancelled == w.cancelled
    && forall node, first :: Fate(w, node, first) && Consistent(node, first) ==> Fate(w', node, first)
  }

  ghost predicate Consistent(n: Node, first: Slot) {
    Dead(first) ==> first.i == n.due / Unit(first.k) % LEVEL
  }

  lemma LaterByOne(w: Wheel, v: Wheel, n: nat)
    requires Later(w, v, n)
    ensures Later(w, Update(v), n + 1)
  {
    UpdateKeepsOrder(v);
    forall node, first | Fate(w, node, first) && Consistent(node, first) ensures Fate(Update(v), node, first) {
      UpdateKeepsFate(v, node, first);
    }
  }

  lemma LaterSame(w: Wheel)
    requires InOrder(w)
    ensures Later(w, w, 0)
  {
  }

  lemma ExecuteNothing(w: Wheel)
    requires Shaped(w) && NowEmpty(w)
    ensures Execute(w) == w
  {
    assert w.at[Near(w.time % NEAR) := []] == w.at;
  }

  /** One round of the loop of dispatch_list, on values. */
  lemma ExecuteHead(w: Wheel, w': Wheel, s: Slot)
    requires Shaped(w) && s == Near(w.time % NEAR) && w.at[s] != []
    requires w' == w.(at := w.at[s := w.at[s][1..]],
                      fired := if w.at[s][0].id in w.cancelled then w.fired
                          else w.fired + [Firing(w.at[s][0].id, w.ticks)])
    ensures Execute(w') == Execute(w)
  {
    assert w'.at[s := []] == w.at[s := []];
  }

  /** One round of the loop of timer_shift that does not stop. */
  lemma NextLevel(ct: nat, i: nat)
    requires 0 < ct < TWO32 && i < 4 && ct % Unit(i) == 0 && ct / Unit(i) % LEVEL == 0
    ensures i < 3 && DrainedFrom(ct, i) == DrainedFrom(ct, i + 1)
    ensures ct / Unit(i) / LEVEL == ct / Unit(i + 1) && Unit(i) * LEVEL == Unit(i + 1)
  {
    var q := ct / Unit(i);
    assert ct == q * Unit(i);
    assert q == q / LEVEL * LEVEL;
    assert i == 3 ==> q == 0;
    if i < 3 {
      DivModUnique(ct, Unit(i + 1), q / LEVEL, 0);
    }
  }

  lemma EmptyInOrder()
    ensures InOrder(EmptyWheel())
  {
  }

  /** A timer that waits in a live list and has been called by the time its tick is over. */
  lemma CalledWhenDue(w: Wheel, w': Wheel, k: nat, n: Node, s: Slot)
    requires Later(w, w', k) && Waits(w, n, s) && !Dead(s) && TicksOf(w.fired, n.id) == []
    requires n.id !in w.cancelled && n.due <= w'.ticks
    ensures Absent(w', n.id) && TicksOf(w'.fired, n.id) == [n.due]
  {
    LiveAhead(s, n.due, w.ticks);
    assert Fate(w, n, s) && Consistent(n, s);
  }

  /** The 32-bit difference of two clock readings as an int. */
  lemma DiffIs(now: nat, before: nat)
    ensures var d, diff := (now - before) % 0x1_0000_0000, ToInt(Wrap(now - before));
      diff == if d < 0x8000_0000 then d else d - 0x1_0000_0000
  {
  }

  lemma Forward(now: nat, before: nat)
    ensures before <= now < before + 0x8000_0000 ==> (now - before) % 0x1_0000_0000 == now - before
    ensures now < before < now + 0x8000_0000 ==> (now - before) % 0x1_0000_0000 > 0x8000_0000
  {
  }

  /** timeNode. `id` stands for its address and `due` for the tick whose low 32 bits are m_expire. */

  class TimeNode {
    const expire: nat
    var cancel: bool
    ghost const id: nat
    ghost const due: nat

    constructor (expire: nat, ghost id: nat, ghost due: nat)
      ensures this.expire == expire && !cancel && this.id == id && this.due == due
    {
      this.expire, cancel, this.id, this.due := expire, false, id, due;
    }

    ghost function View(): Node {
      Node(id, expire, due)
    }
  }

  ghost function View(list: seq<TimeNode>): (r: seq<Node>)
    ensures |r| == |list|
    ensures forall j :: 0 <= j < |list| ==> r[j] == list[j].View()
  {
    seq(|list|, j requires 0 <= j < |list| => list[j].View())
  }

  class TimeWheel {
    var time: nat
    var near: array<seq<TimeNode>>
    var levels: array2<seq<TimeNode>>
    var currentPoint: nat
    /** The unwrapped clock, the calls of timer functions so far, every node allocated so far, the
        cancelled ones, and the next unused address. */
    ghost var ticks: nat
    ghost var fired: seq<Firing>
    ghost var nodes: set<TimeNode>
    ghost var byId: map<nat, TimeNode>
    ghost var cancelled: set<nat>
    ghost var nextId: nat

    ghost predicate Shape()
      reads this
    {
      near.Length == NEAR && levels.Length0 == 4 && levels.Length1 == LEVEL && time < TWO32
    }

    ghost function At(s: Slot): seq<TimeNode>
      requires Shape() && ValidSlot(s)
      reads this, near, levels
    {
      match s
      case Near(i) => near[i]
      case Level(k, i) => levels[k, i]
    }

    ghost function Abs(): (w: Wheel)
      requires Shape()
      reads this, near, levels
      ensures Shaped(w)
    {
      Wheel(time, ticks, imap s | ValidSlot(s) :: View(At(s)), cancelled, fired)
    }

    ghost predicate NodeOk(n: TimeNode)
      reads this, n
    {
      && n in nodes && n.id in byId && byId[n.id] == n
      && n.id < nextId && (n.cancel <==> n.id in cancelled)
    }

    ghost predicate Listed(list: seq<TimeNode>)
      reads this
    {
      forall j :: 0 <= j < |list| ==> list[j] in nodes
    }

    ghost predicate Nodes()
      requires Shape()
      reads this, near, levels, nodes
    {
      && (forall n :: n in nodes ==> NodeOk(n))
      && (forall id :: id in cancelled ==> id < nextId)
      && (forall s :: ValidSlot(s) ==> Listed(At(s)))
    }

    ghost predicate Valid()
      reads this, near, levels, nodes
    {
      Shape() && Nodes()
    }

    constructor (now: nat)
      ensures Valid() && Abs() == EmptyWheel() && InOrder(Abs()) && currentPoint == now && nodes == {}
      ensures fresh(near) && fresh(levels)
    {
      time, ticks, currentPoint := 0, 0, now;
      near := new seq<TimeNode>[NEAR](_ => []);
      levels := new seq<TimeNode>[4, LEVEL]((_, _) => []);
      nodes, byId, cancelled, fired, nextId := {}, map[], {}, [], 0;
      new;
      forall s | ValidSlot(s) ensures At(s) == [] && View(At(s)) == [] && Listed(At(s)) {
        assert s.Near? || s.Level?;
      }
      assert Abs() == EmptyWheel();
      EmptyInOrder();
    }

    /** Stores a list in a slot, and leaves the others alone. */
    method Store(s: Slot, list: seq<TimeNode>)
      requires Valid() && ValidSlot(s) && Listed(list)
      modifies near, levels
      ensures Valid() && Abs() == old(Abs()).(at := old(Abs()).at[s := View(list)])
      ensures forall s' :: ValidSlot(s') ==> At(s') == if s' == s then list else old(At(s'))
    {
      match s {
        case Near(i) => near[i] := list;
        case Level(k, i) => levels[k, i] := list;
      }
      assert forall s' :: ValidSlot(s') ==> At(s') == if s' == s then list else old(At(s'));
      assert Abs().at == old(Abs()).at[s := View(list)];
    }

    method Link(s: Slot, n: TimeNode)
      requires Valid() && ValidSlot(s) && n in nodes
      modifies near, levels
      ensures Valid() && Abs() == old(Abs()).(at := old(Abs()).at[s := old(Abs()).at[s] + [n.View()]])
      ensures forall s' :: ValidSlot(s') ==> At(s') == if s' == s then old(At(s)) + [n] else old(At(s'))
    {
      var list := match s case Near(i) => near[i] case Level(k, i) => levels[k, i];
      assert View(list + [n]) == View(list) + [n.View()];
      Store(s, list + [n]);
    }

    /** The list for an expiry time, by the 32-bit distance from now. */
    method Choose(expire: nat) returns (s: Slot)
      requires Shape()
      ensures s == Place(expire, time) && ValidSlot(s)
    {
      var msec := Wrap(expire - time);
      if msec < NEAR {
        s := Near(expire % NEAR);
      } else if msec < 0x4000 {
        s := Level(0, expire / 0x100 % LEVEL);
      } else if msec < 0x10_0000 {
        s := Level(1, expire / 0x4000 % LEVEL);
      } else if msec < 0x400_0000 {
        s := Level(2, expire / 0x10_0000 % LEVEL);
      } else {
        s := Level(3, expire / 0x400_0000 % LEVEL);
      }
    }

    /** add_node. */
    method AddNode(n: TimeNode)
      requires Valid() && n in nodes
      modifies near, levels
      ensures Valid() && Abs() == TimingWheel.AddNode(old(Abs()), n.View())
      ensures forall s :: ValidSlot(s) && s != Place(n.expire, time) ==> At(s) == old(At(s))
    {
      var s := Choose(n.expire);
      Link(s, n);
    }

    ghost method Allocated(n: TimeNode)
      requires Valid() && n !in nodes && !n.cancel && n.id == nextId
      modifies this`nodes, this`byId, this`nextId
      ensures Valid() && Abs() == old(Abs()) && nodes == old(nodes) + {n} && nextId == old(nextId) + 1
    {
      nodes, byId, nextId := nodes + {n}, byId[n.id := n], nextId + 1;
      forall m | m in nodes ensures NodeOk(m) { assert m != n ==> old(NodeOk(m)); }
      assert forall s :: ValidSlot(s) ==> old(Listed(At(s)));
      assert Abs().at == old(Abs()).at;
    }

    /** The function of a timer that is not queued runs at once. */
    ghost method CalledNow()
      requires Valid()
      modifies this`fired, this`nextId
      ensures Valid() && Abs() == old(Abs()).(fired := old(Abs()).fired + [Firing(old(nextId), ticks)])
      ensures nextId == old(nextId) + 1
    {
      ghost var w := Abs();
      fired, nextId := fired + [Firing(nextId, ticks)], nextId + 1;
      assert forall m :: m in nodes ==> old(NodeOk(m));
      assert forall s :: ValidSlot(s) ==> old(Listed(At(s)));
      assert Abs().at == w.at;
    }

    /** add_timer with a process function. `garbage` is what m_cancel happens to hold in the memory that
        malloc returns; a flag that is set there is as good as a del_timer at once. */
    method AddTimer(delay: int, garbage: bool) returns (node: TimeNode?)
      requires Valid() && delay <= MAX_DELAY
      modifies this`fired, this`nodes, this`byId, this`nextId, this`cancelled, near, levels
      ensures Valid() && Abs() == Added(old(Abs()), old(nextId), delay, garbage)
      ensures node == null <==> delay <= 0
      ensures node != null ==> fresh(node) && node.id == old(nextId) && nodes == old(nodes) + {node}
    {
      if delay <= 0 {
        CalledNow();
        node := null;
      } else {
        node := AddNew(delay);
        if garbage {
          DelTimer(node);
        }
      }
    }

    method AddNew(delay: int) returns (node: TimeNode)
      requires Valid() && 0 < delay <= MAX_DELAY
      modifies this`nodes, this`byId, this`nextId, near, levels
      ensures Valid() && Abs() == TimingWheel.AddTimer(old(Abs()), old(nextId), delay)
      ensures fresh(node) && node.id == old(nextId) && nodes == old(nodes) + {node}
    {
      ghost var w := Abs();
      node := new TimeNode(Wrap(time + delay), nextId, ticks + delay);
      Allocated(node);
      assert Abs() == w && node.View() == Queued(w, node.id, delay);
      AddNode(node);
    }

    /** del_timer. */
    method DelTimer(node: TimeNode)
      requires Valid() && node in nodes
      modifies this`cancelled, node`cancel
      ensures Valid() && Abs() == Cancel(old(Abs()), node.id)
    {
      node.cancel := true;
      cancelled := cancelled + {node.id};
      assert forall m :: m in nodes ==> old(NodeOk(m));
      assert forall s :: ValidSlot(s) ==> old(Listed(At(s)));
      assert Abs().at == old(Abs()).at;
      assert Abs() == Cancel(old(Abs()), node.id);
    }

    /** One round of move_list: front, pop_front, add_node. */
    method CascadeHead(k: nat, i: nat)
      requires Valid() && k < 4 && i < LEVEL && levels[k, i] != [] && Draining(Abs(), Level(k, i))
      modifies near, levels
      ensures Valid() && Abs() == MovedHead(old(Abs()), Level(k, i))
    {
      var list := levels[k, i];
      assert Listed(At(Level(k, i)));
      assert View(list)[1..] == View(list[1..]);
      Store(Level(k, i), list[1..]);
      AddNode(list[0]);
    }

    /** move_list, for a list whose timers all have their cascade tick now: every one of them goes
        elsewhere, so the list runs empty. */
    method MoveList(k: nat, i: nat)
      requires Valid() && k < 4 && i < LEVEL && Draining(Abs(), Level(k, i))
      modifies near, levels
      ensures Valid() && Abs() == TimingWheel.MoveList(old(Abs()), Level(k, i)) && Abs().at[Level(k, i)] == []
    {
      ghost var s := Level(k, i);
      ghost var w := Abs();
      while levels[k, i] != []
        invariant Valid() && Draining(Abs(), s) && TimingWheel.MoveList(Abs(), s) == TimingWheel.MoveList(w, s)
        decreases |levels[k, i]|
      {
        MoveHead(Abs(), s);
        assert |Abs().at[s]| == |levels[k, i]|;
        CascadeHead(k, i);
        assert |Abs().at[s]| == |levels[k, i]|;
      }
      assert |Abs().at[s]| == |levels[k, i]|;
      MoveNothing(Abs(), s);
    }

    method MoveClock()
      requires Valid()
      modifies this`time, this`ticks
      ensures Valid() && Abs() == Tick(old(Abs()))
    {
      ghost var w := Abs();
      time, ticks := if time + 1 == TWO32 then 0 else time + 1, ticks + 1;
      assert forall m :: m in nodes ==> old(NodeOk(m));
      assert forall s :: ValidSlot(s) ==> old(Listed(At(s)));
      assert Abs().at == w.at;
    }

    /** The cascade of timer_shift. The level index of the loop never exceeds 3. */
    method Cascade()
      requires Valid() && Clocked(Abs())
      requires forall s :: ValidSlot(s) && Drained(time) == [s] ==> Draining(Abs(), s)
      modifies near, levels
      ensures Valid()
      ensures Abs() == if Drained(time) == [] then old(Abs()) else TimingWheel.MoveList(old(Abs()), Drained(time)[0])
    {
      var ct := time;
      if ct == 0 {
        assert Drained(time) == [Level(3, 0)];
        MoveList(3, 0);
      } else {
        var mask, t, i := NEAR, ct / NEAR, 0;
        while ct % mask == 0
          invariant 0 <= i < 4 && mask == Unit(i) && t == ct / Unit(i)
          invariant DrainedFrom(ct, 0) == DrainedFrom(ct, i)
          invariant Valid() && Abs() == old(Abs())
          decreases 4 - i
        {
          var idx := t % LEVEL;
          if idx != 0 {
            MoveList(i, idx);
            return;
          }
          NextLevel(ct, i);
          mask, t, i := mask * LEVEL, t / LEVEL, i + 1;
        }
      }
    }

    method TimerShift()
      requires Valid() && InOrder(Abs())
      modifies this`time, this`ticks, near, levels
      ensures Valid() && Abs() == Shift(old(Abs()))
    {
      ghost var w := Abs();
      TickClocked(w);
      MoveClock();
      forall s | ValidSlot(s) && Drained(time) == [s] ensures Draining(Abs(), s) { TickOk(w, s); }
      Cascade();
    }

    /** dispatch_list on the list of the current tick. */
    method DispatchList(i: nat)
      requires Valid() && i == time % NEAR
      modifies this`fired, near, levels
      ensures Valid() && Abs() == Execute(old(Abs())) && near[i] == []
    {
      ghost var s, target := Near(i), Execute(Abs());
      while near[i] != []
        invariant Valid() && Execute(Abs()) == target
        decreases |near[i]|
      {
        DispatchHead(i);
      }
      assert Abs().at[s] == View(near[i]) == [];
      ExecuteNothing(Abs());
    }

    method DispatchHead(i: nat)
      requires Valid() && i == time % NEAR && near[i] != []
      modifies this`fired, near, levels
      ensures Valid() && near[i] == old(near[i])[1..] && Execute(Abs()) == Execute(old(Abs()))
    {
      ghost var w, s := Abs(), Near(i);
      var list := near[i];
      assert Listed(At(s)) && NodeOk(list[0]);
      assert View(list)[1..] == View(list[1..]);
      Store(Near(i), list[1..]);
      ghost var w1 := Abs();
      if !list[0].cancel {
        Called(list[0]);
      }
      assert w.at[s] == View(list) && w1.at[s] == View(list[1..]) == w.at[s][1..];
      ExecuteHead(w, Abs(), s);
    }

    ghost method Called(n: TimeNode)
      requires Valid()
      modifies this`fired
      ensures Valid() && Abs() == old(Abs()).(fired := old(Abs()).fired + [Firing(n.id, ticks)])
      ensures forall s :: ValidSlot(s) ==> At(s) == old(At(s))
    {
      ghost var w := Abs();
      fired := fired + [Firing(n.id, ticks)];
      assert forall m :: m in nodes ==> old(NodeOk(m));
      assert forall s :: ValidSlot(s) ==> old(Listed(At(s)));
      assert Abs().at == w.at;
    }

    method TimerExecute()
      requires Valid()
      modifies this`fired, near, levels
      ensures Valid() && Abs() == Execute(old(Abs()))
    {
      var idx := time % NEAR;
      ghost var target := Execute(Abs());
      while near[idx] != []
        invariant Valid() && Execute(Abs()) == target
        decreases |near[idx]|
      {
        DispatchList(idx);
        assert Abs().at[Near(idx)] == View(near[idx]) == [];
        ExecuteNothing(Abs());
      }
      assert Abs().at[Near(idx)] == View(near[idx]) == [];
      ExecuteNothing(Abs());
    }

    /** One tick of the wheel. */
    method TimerUpdate()
      requires Valid() && InOrder(Abs())
      modifies this`time, this`ticks, this`fired, near, levels
      ensures Valid() && Abs() == Update(old(Abs()))
    {
      ExecuteOk(Abs());
      TimerExecute();
      TimerShift();
      TimerExecute();
    }

    /** expire_timer at clock reading `now`: as many ticks as the clock has moved on, if that is less than
        2^31 modulo 2^32; otherwise none, although the reading is remembered. Every live timer whose tick
        has passed by then has been called once, at its tick. */
    method ExpireTimer(now: nat)
      requires Valid() && InOrder(Abs())
      modifies this`time, this`ticks, this`fired, this`currentPoint, near, levels
      ensures Valid() && currentPoint == now
      ensures InOrder(Abs()) && cancelled == old(cancelled)
      ensures old(currentPoint) < now < old(currentPoint) + 0x8000_0000 ==>
        ticks == old(ticks) + (now - old(currentPoint))
      ensures now <= old(currentPoint) < now + 0x8000_0000 ==> Abs() == old(Abs())
      ensures var d := (now - old(currentPoint)) % 0x1_0000_0000;
        if 0 < d < 0x8000_0000 then Later(old(Abs()), Abs(), d) else Abs() == old(Abs())
      ensures forall n, s :: Waits(old(Abs()), n, s) && !Dead(s) && TicksOf(old(fired), n.id) == [] ==>
        (n.id !in cancelled && n.due <= ticks ==> Absent(Abs(), n.id) && TicksOf(fired, n.id) == [n.due])
    {
      ghost var w, d := Abs(), (now - currentPoint) % 0x1_0000_0000;
      DiffIs(now, currentPoint);
      Forward(now, currentPoint);
      LaterSame(w);
      if now != currentPoint {
        var diff := ToInt(Wrap(now - currentPoint));
        Remember(now);
        UpdateTimes(diff);
      }
      forall n, s | Waits(w, n, s) && !Dead(s) && TicksOf(w.fired, n.id) == [] && n.id !in cancelled && n.due <= ticks
        ensures Absent(Abs(), n.id) && TicksOf(fired, n.id) == [n.due]
      {
        CalledWhenDue(w, Abs(), ticks - w.ticks, n, s);
      }
    }

    /** timer_update, as one round of the loop of expire_timer that began at wheel w. */
    method UpdateRound(ghost w: Wheel, ghost n: nat)
      requires Valid() && Later(w, Abs(), n)
      modifies this`time, this`ticks, this`fired, near, levels
      ensures Valid() && Later(w, Abs(), n + 1)
    {
      LaterByOne(w, Abs(), n);
      TimerUpdate();
    }

    method UpdateTimes(diff: int)
      requires Valid() && InOrder(Abs())
      modifies this`time, this`ticks, this`fired, near, levels
      ensures Valid() && if diff > 0 then Later(old(Abs()), Abs(), diff) else Abs() == old(Abs())
    {
      ghost var w := Abs();
      var i: nat := 0;
      while i < diff
        invariant i <= diff || diff < i == 0
        invariant Valid() && Later(w, Abs(), i) && (i == 0 ==> Abs() == w)
      {
        UpdateRound(w, i);
        i := i + 1;
      }
    }

    method Remember(now: nat)
      requires Valid()
      modifies this`currentPoint
      ensures Valid() && Abs() == old(Abs()) && currentPoint == now
    {
      ghost var w := Abs();
      currentPoint := now;
      assert forall m :: m in nodes ==> old(NodeOk(m));
      assert forall s :: ValidSlot(s) ==> old(Listed(At(s)));
      assert Abs().at == w.at;
    }
  }
}
