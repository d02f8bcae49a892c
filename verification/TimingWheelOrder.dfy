/** Timers that are due at the same tick and were put in the same list are called in the order in which
    they were put there, however often the list is cascaded in between. */
module TimingWheelOrder {
  import opened Basics
  import opened TimingWheel
  import opened TimingWheelProof
  import opened TimingWheelTheorems

  ghost predicate Before(list: seq<Node>, n: Node, m: Node) {
    exists i, j :: 0 <= i < j < |list| && list[i] == n && list[j] == m
  }

  ghost predicate FiredBefore(fired: seq<Firing>, a: nat, b: nat) {
    exists i, j :: 0 <= i < j < |fired| && fired[i].id == a && fired[j].id == b
  }

  lemma BeforeMore(list: seq<Node>, more: seq<Node>, n: Node, m: Node)
    requires Before(list, n, m)
    ensures Before(list + more, n, m)
  {
    var i, j :| 0 <= i < j < |list| && list[i] == n && list[j] == m;
    assert (list + more)[i] == n && (list + more)[j] == m;
  }

  lemma FiredMore(fired: seq<Firing>, more: seq<Firing>, a: nat, b: nat)
    ensures FiredBefore(fired, a, b) ==> FiredBefore(fired + more, a, b)
    ensures FiredBefore(more, a, b) ==> FiredBefore(fired + more, a, b)
  {
    if FiredBefore(fired, a, b) {
      var i, j :| 0 <= i < j < |fired| && fired[i].id == a && fired[j].id == b;
      assert (fired + more)[i] == fired[i] && (fired + more)[j] == fired[j];
    }
    if FiredBefore(more, a, b) {
      var i, j :| 0 <= i < j < |more| && more[i].id == a && more[j].id == b;
      assert (fired + more)[|fired| + i] == more[i] && (fired + more)[|fired| + j] == more[j];
    }
  }

  lemma {:induction false} CallsHave(list: seq<Node>, cancelled: set<nat>, tick: nat, m: Node) returns (k: nat)
    requires m.id !in cancelled && m in list
    ensures k < |Calls(list, cancelled, tick)| && Calls(list, cancelled, tick)[k].id == m.id
  {
    if list[0] == m {
      k := 0;
    } else {
      var r := CallsHave(list[1..], cancelled, tick, m);
      k := if list[0].id in cancelled then r else r + 1;
    }
  }

  /** Dispatching a list calls its timers in the order of the list. */
  lemma {:induction false} CallsInOrder(list: seq<Node>, cancelled: set<nat>, tick: nat, n: Node, m: Node)
    requires Before(list, n, m) && n.id !in cancelled && m.id !in cancelled
    ensures FiredBefore(Calls(list, cancelled, tick), n.id, m.id)
  {
    var i, j :| 0 <= i < j < |list| && list[i] == n && list[j] == m;
    var rest := Calls(list[1..], cancelled, tick);
    assert list[1..][j - 1] == m;
    if i == 0 {
      var k := CallsHave(list[1..], cancelled, tick, m);
      assert Calls(list, cancelled, tick) == [Firing(n.id, tick)] + rest;
      assert Calls(list, cancelled, tick)[0].id == n.id && Calls(list, cancelled, tick)[k + 1].id == m.id;
    } else {
      assert list[1..][i - 1] == n;
      CallsInOrder(list[1..], cancelled, tick, n, m);
      FiredMore(if list[0].id in cancelled then [] else [Firing(list[0].id, tick)], rest, n.id, m.id);
    }
  }

  /** Relinking only appends. */
  lemma {:induction false} RelinkAppends(w: Wheel, list: seq<Node>, s: Slot) returns (more: seq<Node>)
    requires Shaped(w) && ValidSlot(s)
    ensures Relink(w, list).at[s] == w.at[s] + more
    decreases |list|
  {
    if list == [] {
      more := [];
    } else {
      var w1 := AddNode(w, list[0]);
      more := RelinkAppends(w1, list[1..], s);
      if s == Place(list[0].expire, w.time) {
        assert w.at[s] + [list[0]] + more == w.at[s] + ([list[0]] + more);
        more := [list[0]] + more;
      }
    }
  }

  /** n is in the list already that m will go to. */
  lemma {:induction false} RelinkBehind(w: Wheel, list: seq<Node>, n: Node, m: Node)
    requires Shaped(w) && m in list && n in w.at[Place(m.expire, w.time)]
    ensures Before(Relink(w, list).at[Place(m.expire, w.time)], n, m)
    decreases |list|
  {
    var p, w1 := Place(m.expire, w.time), AddNode(w, list[0]);
    var i :| 0 <= i < |w.at[p]| && w.at[p][i] == n;
    assert w1.at[p][i] == n;
    if list[0] == m {
      assert w1.at[p][|w.at[p]|] == m;
      var more := RelinkAppends(w1, list[1..], p);
      BeforeMore(w1.at[p], more, n, m);
    } else {
      RelinkBehind(w1, list[1..], n, m);
    }
  }

  /** Two nodes with the same expiry go to the same list, in the same order. */
  lemma {:induction false} RelinkInOrder(w: Wheel, list: seq<Node>, n: Node, m: Node)
    requires Shaped(w) && Before(list, n, m) && n.expire == m.expire
    ensures Before(Relink(w, list).at[Place(n.expire, w.time)], n, m)
    decreases |list|
  {
    var i, j :| 0 <= i < j < |list| && list[i] == n && list[j] == m;
    var p, w1 := Place(n.expire, w.time), AddNode(w, list[0]);
    assert list[1..][j - 1] == m;
    if i == 0 {
      assert w1.at[p][|w.at[p]|] == n;
      RelinkBehind(w1, list[1..], n, m);
    } else {
      assert list[1..][i - 1] == n;
      RelinkInOrder(w1, list[1..], n, m);
    }
  }

  // ----- the operations -----

  /** n and m wait in the same list for the same tick, n ahead of m. */
  ghost predicate Both(w: Wheel, n: Node, m: Node, s: Slot) {
    Waits(w, n, s) && Waits(w, m, s) && n.due == m.due && n.id != m.id && Before(w.at[s], n, m)
  }

  lemma MoveInOrder(w: Wheel, n: Node, m: Node, s: Slot, moved: Slot)
    requires Shaped(w) && ValidSlot(s) && ValidSlot(moved) && Before(w.at[s], n, m) && n.expire == m.expire
    ensures Before(MoveList(w, moved).at[if s == moved then Place(n.expire, w.time) else s], n, m)
  {
    var w1 := w.(at := w.at[moved := []]);
    if s == moved {
      RelinkInOrder(w1, w.at[moved], n, m);
    } else {
      var more := RelinkAppends(w1, w.at[moved], s);
      BeforeMore(w1.at[s], more, n, m);
    }
  }

  lemma ShiftInOrder(w: Wheel, n: Node, m: Node, s: Slot)
    requires Both(w, n, m, s)
    ensures Before(Shift(w).at[Shifted(s, n.due, w.ticks + 1)], n, m)
  {
    TickClocked(w);
    var w1 := Tick(w);
    var d := Drained(w1.time);
    if d != [] { MoveInOrder(w1, n, m, s, d[0]); }
  }

  /** A dispatch calls both, in order, or leaves both where they are. */
  lemma ExecuteInOrder(w: Wheel, n: Node, m: Node, s: Slot)
    requires Shaped(w) && ValidSlot(s) && Before(w.at[s], n, m)
    ensures s != Near(w.time % NEAR) ==> Before(Execute(w).at[s], n, m)
    ensures s == Near(w.time % NEAR) && n.id !in w.cancelled && m.id !in w.cancelled ==>
      FiredBefore(Execute(w).fired, n.id, m.id)
  {
    if s == Near(w.time % NEAR) && n.id !in w.cancelled && m.id !in w.cancelled {
      CallsInOrder(w.at[s], w.cancelled, w.ticks, n, m);
      FiredMore(w.fired, Calls(w.at[s], w.cancelled, w.ticks), n.id, m.id);
    }
  }

  /** What has become of n and m: they wait together, n first, or they have been called, n first. */
  ghost predicate InTurn(w: Wheel, n: Node, m: Node) {
    || (exists s :: Both(w, n, m, s))
    || (n.due <= w.ticks && (n.id !in w.cancelled && m.id !in w.cancelled ==> FiredBefore(w.fired, n.id, m.id)))
  }

  lemma FirstDispatch(w: Wheel, n: Node, m: Node, s: Slot)
    requires Both(w, n, m, s)
    ensures Both(Execute(w), n, m, s)
    ensures Execute(w).ticks == w.ticks && Execute(w).cancelled == w.cancelled
  {
    if s.Near? { NearIsNow(n.due, w.ticks); }
    DispatchBefore(w, n, s);
    DispatchBefore(w, m, s);
    ExecuteInOrder(w, n, m, s);
  }

  lemma ShiftedFrom(w: Wheel, n: Node, m: Node, s: Slot, s': Slot)
    requires Both(w, n, m, s) && s' == Shifted(s, n.due, w.ticks + 1)
    ensures ValidSlot(s') && Before(Shift(w).at[s'], n, m)
  {
    ShiftInOrder(w, n, m, s);
    SlotStays(w, n, s);
  }

  /** Up to the last dispatch of an update. */
  lemma ShiftedInTurn(w: Wheel, n: Node, m: Node, s: Slot, s': Slot)
    requires Both(w, n, m, s) && s' == Shifted(s, n.due, w.ticks + 1)
    ensures ValidSlot(s') && Before(Shift(Execute(w)).at[s'], n, m)
  {
    FirstDispatch(w, n, m, s);
    ShiftedFrom(Execute(w), n, m, s, s');
  }

  lemma UpdateInTurn(w: Wheel, n: Node, m: Node, s: Slot)
    requires Both(w, n, m, s)
    ensures InTurn(Update(w), n, m)
  {
    var s' := Shifted(s, n.due, w.ticks + 1);
    ShiftedInTurn(w, n, m, s, s');
    UpdateTracks(w, n, s);
    UpdateTracks(w, m, s);
    UpdateEnds(w, Shift(Execute(w)), n, m, s, s');
  }

  lemma UpdateEnds(w: Wheel, w2: Wheel, n: Node, m: Node, s: Slot, s': Slot)
    requires Shaped(w2) && ValidSlot(s') && Before(w2.at[s'], n, m) && n.due == m.due && n.id != m.id
    requires Tracked(w, Execute(w2), n, s, s') && Tracked(w, Execute(w2), m, s, s')
    ensures InTurn(Execute(w2), n, m)
  {
    LastDispatch(w2, n, m, s');
  }

  lemma SlotStays(w: Wheel, n: Node, s: Slot)
    requires Waits(w, n, s)
    ensures ValidSlot(Shifted(s, n.due, w.ticks + 1)) && Shift(w).cancelled == w.cancelled
  {
    ShiftTracks(w, n, s);
  }

  /** After the last dispatch both have gone, or both are where they were. */
  lemma LastDispatch(w: Wheel, n: Node, m: Node, s: Slot)
    requires Shaped(w) && ValidSlot(s) && Before(w.at[s], n, m) && n.due == m.due && n.id != m.id
    requires var w' := Execute(w);
      (Waits(w', n, s) && Waits(w', m, s)) || (n.due <= w'.ticks && Absent(w', n.id))
    ensures InTurn(Execute(w), n, m)
  {
    var w' := Execute(w);
    ExecuteInOrder(w, n, m, s);
    if s != Near(w.time % NEAR) {
      var i, j :| 0 <= i < j < |w'.at[s]| && w'.at[s][i] == n && w'.at[s][j] == m;
      CountMember(w'.at[s], n);
      assert Both(w', n, m, s);
    }
  }

  lemma AddKeepsWaits(w: Wheel, n: Node, s: Slot, id: nat, delay: int)
    requires Waits(w, n, s) && id != n.id
    ensures Waits(AddTimer(w, id, delay), n, s)
  {
    if delay > 0 { AddNodeKeeps(w, Queued(w, id, delay), n.id); }
  }

  lemma AddInTurn(w: Wheel, n: Node, m: Node, s: Slot, id: nat, delay: int)
    requires Both(w, n, m, s) && Legal(w, OnAdd(id, delay))
    ensures InTurn(AddTimer(w, id, delay), n, m)
  {
    CountMember(w.at[s], n);
    CountMember(w.at[s], m);
    AddKeepsWaits(w, n, s, id, delay);
    AddKeepsWaits(w, m, s, id, delay);
    if delay > 0 { BeforeMore(w.at[s], [Queued(w, id, delay)], n, m); }
    assert Both(AddTimer(w, id, delay), n, m, s);
  }

  lemma StepFired(w: Wheel, e: Event) returns (more: seq<Firing>)
    requires Legal(w, e)
    ensures Step(w, e).fired == w.fired + more && w.cancelled <= Step(w, e).cancelled && w.ticks <= Step(w, e).ticks
  {
    match e
    case OnAdd(id, delay) => more := if delay <= 0 then [Firing(id, w.ticks)] else [];
    case OnCancel(id) => more := [];
    case OnUpdate =>
      var w1 := Execute(w);
      var w2 := Shift(w1);
      var a, b := Calls(w.at[Near(w.time % NEAR)], w.cancelled, w.ticks),
                  Calls(w2.at[Near(w2.time % NEAR)], w2.cancelled, w2.ticks);
      more := a + b;
      assert w.fired + a + b == w.fired + (a + b);
  }

  lemma StepInTurn(w: Wheel, n: Node, m: Node, e: Event)
    requires InTurn(w, n, m) && Legal(w, e)
    ensures InTurn(Step(w, e), n, m)
  {
    if s :| Both(w, n, m, s) {
      match e
      case OnAdd(id, delay) => AddInTurn(w, n, m, s, id, delay);
      case OnCancel(id) => assert Both(Cancel(w, id), n, m, s);
      case OnUpdate => UpdateInTurn(w, n, m, s);
    } else {
      var more := StepFired(w, e);
      FiredMore(w.fired, more, n.id, m.id);
    }
  }

  /** Over any run, two timers that wait in the same list for the same tick, n ahead of m, go on waiting
      together in this order until they are both called, n first, unless one of them is cancelled. */
  lemma {:induction false} CalledInTurn(w: Wheel, n: Node, m: Node, es: seq<Event>)
    requires InTurn(w, n, m) && LegalRun(w, es)
    ensures InTurn(Run(w, es), n, m)
    decreases |es|
  {
    if es != [] {
      StepInTurn(w, n, m, es[0]);
      CalledInTurn(Step(w, es[0]), n, m, es[1..]);
    }
  }

  lemma AddedBoth(w: Wheel, n: Node, m: Node)
    requires Shaped(w) && Clocked(w) && Absent(w, n.id) && Absent(w, m.id) && n.id != m.id
    requires n.due == m.due && n.expire == m.expire == Wrap(n.due) && w.ticks < n.due < w.ticks + TWO32
    ensures Both(AddNode(AddNode(w, n), m), n, m, Place(n.expire, w.time))
  {
    var s, w1 := Place(n.expire, w.time), AddNode(w, n);
    var w2 := AddNode(w1, m);
    PlaceOk(n.due, w.ticks);
    AddMine(w, n);
    AddNodeKeeps(w, n, m.id);
    AddMine(w1, m);
    AddNodeKeeps(w1, m, n.id);
    assert w2.at[s][|w.at[s]|] == n && w2.at[s][|w.at[s]| + 1] == m;
  }

  /** So two timers that are added one right after the other with the same delay are called in this order. */
  lemma AddedInTurn(w: Wheel, a: nat, b: nat, delay: int, es: seq<Event>)
    requires Shaped(w) && Clocked(w) && Fresh(w, a) && Fresh(w, b) && a != b && 0 < delay <= MAX_DELAY
    requires LegalRun(AddTimer(AddTimer(w, a, delay), b, delay), es)
    ensures InTurn(Run(AddTimer(AddTimer(w, a, delay), b, delay), es), Queued(w, a, delay), Queued(w, b, delay))
  {
    var n, m := Queued(w, a, delay), Queued(w, b, delay);
    WrapSum(w.ticks, delay);
    AddedBoth(w, n, m);
    CalledInTurn(AddTimer(AddTimer(w, a, delay), b, delay), n, m, es);
  }
}
