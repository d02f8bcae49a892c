/** The fate of one timer over whole runs of the wheel, whatever else is in it. */
module TimingWheelTheorems {
  import opened TimingWheel
  import opened TimingWheelProof

  function Count(list: seq<Node>, id: nat): nat {
    if list == [] then 0 else (if list[0].id == id then 1 else 0) + Count(list[1..], id)
  }

  lemma {:induction false} CountAppend(a: seq<Node>, n: Node, id: nat)
    ensures Count(a + [n], id) == Count(a, id) + (if n.id == id then 1 else 0)
  {
    if a != [] {
      assert (a + [n])[1..] == a[1..] + [n];
      CountAppend(a[1..], n, id);
    }
  }

  lemma {:induction false} CountMember(list: seq<Node>, n: Node)
    requires n in list
    ensures Count(list, n.id) > 0
  {
    if list[0] != n {
      CountMember(list[1..], n);
    }
  }

  /** n is queued exactly once, in list s, and no other queued timer has its identity. */
  ghost predicate Only(w: Wheel, n: Node, s: Slot) {
    && Shaped(w) && ValidSlot(s) && n in w.at[s]
    && forall s' :: s' in w.at ==> Count(w.at[s'], n.id) == if s' == s then 1 else 0
  }

  ghost predicate Absent(w: Wheel, id: nat) {
    Shaped(w) && forall s :: s in w.at ==> Count(w.at[s], id) == 0
  }

  /** The ticks at which the function of timer id was called, in order. */
  function TicksOf(fired: seq<Firing>, id: nat): seq<nat> {
    if fired == [] then []
    else (if fired[0].id == id then [fired[0].tick] else []) + TicksOf(fired[1..], id)
  }

  lemma {:induction false} TicksOfAppend(a: seq<Firing>, b: seq<Firing>, id: nat)
    ensures TicksOf(a + b, id) == TicksOf(a, id) + TicksOf(b, id)
  {
    if a == [] {
      assert a + b == b;
    } else {
      var first := if a[0].id == id then [a[0].tick] else [];
      assert (a + b)[0] == a[0] && (a + b)[1..] == a[1..] + b;
      TicksOfAppend(a[1..], b, id);
      assert first + (TicksOf(a[1..], id) + TicksOf(b, id)) == (first + TicksOf(a[1..], id)) + TicksOf(b, id);
    }
  }

  lemma {:induction false} TicksOfCalls(list: seq<Node>, cancelled: set<nat>, tick: nat, id: nat)
    requires Count(list, id) <= 1
    ensures TicksOf(Calls(list, cancelled, tick), id) == if Count(list, id) == 1 && id !in cancelled then [tick] else []
  {
    if list != [] {
      TicksOfCalls(list[1..], cancelled, tick, id);
      var first := if list[0].id in cancelled then [] else [Firing(list[0].id, tick)];
      TicksOfAppend(first, Calls(list[1..], cancelled, tick), id);
    }
  }

  // ----- what the wheel's own operations do to one timer -----

  lemma AddNodeKeeps(w: Wheel, m: Node, id: nat)
    requires Shaped(w) && m.id != id
    ensures forall s :: s in w.at ==> Count(AddNode(w, m).at[s], id) == Count(w.at[s], id)
  {
    CountAppend(w.at[Place(m.expire, w.time)], m, id);
  }

  lemma {:induction false} RelinkOthers(w: Wheel, list: seq<Node>, n: Node, s: Slot)
    requires Only(w, n, s) && Count(list, n.id) == 0
    ensures Only(Relink(w, list), n, s)
    decreases |list|
  {
    if list != [] {
      AddNodeKeeps(w, list[0], n.id);
      RelinkOthers(AddNode(w, list[0]), list[1..], n, s);
    }
  }

  lemma {:induction false} RelinkMine(w: Wheel, list: seq<Node>, n: Node)
    requires Absent(w, n.id) && n in list && Count(list, n.id) == 1
    ensures Only(Relink(w, list), n, Place(n.expire, w.time))
    decreases |list|
  {
    if list[0].id == n.id {
      if n in list[1..] { CountMember(list[1..], n); }
      assert list[0] == n;
      AddMine(w, n);
      RelinkOthers(AddNode(w, n), list[1..], n, Place(n.expire, w.time));
    } else {
      AddNodeKeeps(w, list[0], n.id);
      RelinkMine(AddNode(w, list[0]), list[1..], n);
    }
  }

  lemma AddMine(w: Wheel, n: Node)
    requires Absent(w, n.id)
    ensures Only(AddNode(w, n), n, Place(n.expire, w.time))
  {
    CountAppend(w.at[Place(n.expire, w.time)], n, n.id);
  }

  /** move_list only moves: a timer is queued once before and once after, and elsewhere only if its
      list was the one cascaded. */
  lemma MoveListTracks(w: Wheel, n: Node, s: Slot, moved: Slot)
    requires Only(w, n, s) && ValidSlot(moved)
    ensures Only(MoveList(w, moved), n, if s == moved then Place(n.expire, w.time) else s)
  {
    var w1 := w.(at := w.at[moved := []]);
    if s == moved {
      RelinkMine(w1, w.at[moved], n);
    } else {
      RelinkOthers(w1, w.at[moved], n, s);
    }
  }

  /** n waits in list s between two updates. */
  ghost predicate Waits(w: Wheel, n: Node, s: Slot) {
    && Only(w, n, s) && Clocked(w) && n.expire == Wrap(n.due)
    && SlotOk(s, n.due, w.ticks) && (s.Near? ==> w.ticks < n.due)
  }

  lemma ExecuteTracks(w: Wheel, n: Node, s: Slot)
    requires Only(w, n, s)
    ensures var w' := Execute(w);
      if s == Near(w.time % NEAR)
      then Absent(w', n.id)
        && TicksOf(w'.fired, n.id) == TicksOf(w.fired, n.id) + if n.id in w.cancelled then [] else [w.ticks]
      else Only(w', n, s) && TicksOf(w'.fired, n.id) == TicksOf(w.fired, n.id)
  {
    var here := Near(w.time % NEAR);
    TicksOfCalls(w.at[here], w.cancelled, w.ticks, n.id);
    TicksOfAppend(w.fired, Calls(w.at[here], w.cancelled, w.ticks), n.id);
  }

  lemma NearIsNow(due: nat, t: nat)
    requires t <= due < t + NEAR
    ensures due % NEAR == Wrap(t) % NEAR <==> due == t
  {
    WrapIndex(t, 0);
    SameIndexNear(due, t);
  }

  lemma SameIndexNear(due: nat, t: nat)
    requires t <= due < t + NEAR
    ensures due % NEAR == t % NEAR <==> due == t
  {
  }

  /** The list of a timer due at `due` once the clock moved to t, from its list before. */
  function Shifted(s: Slot, due: nat, t: nat): Slot {
    if Drained(Wrap(t)) == [s] then Place(Wrap(due), Wrap(t)) else s
  }

  lemma ShiftedOk(s: Slot, due: nat, t: nat)
    requires t > 0 && SlotOk(s, due, t - 1) && (s.Near? ==> t <= due)
    ensures SlotOk(Shifted(s, due, t), due, t)
    ensures Dead(s) ==> Shifted(s, due, t) == s
    ensures Dead(Shifted(s, due, t)) <==> Dead(s)
  {
    if s.Level? {
      if Dead(s) {
        if Wrap(t) != 0 { DrainedIndex(Wrap(t), 0); }
      } else {
        DrainedExactly(t, s, due);
        if CascadeTick(s.k, due) == t { CascadeLowers(s.k, due, t); }
      }
    }
  }

  /** Where a waiting timer is after the clock moved on and a list was cascaded. */
  lemma ShiftTracks(w: Wheel, n: Node, s: Slot)
    requires Waits(w, n, s)
    ensures Only(Shift(w), n, Shifted(s, n.due, w.ticks + 1)) && Clocked(Shift(w))
  {
    TickClocked(w);
    var w1 := Tick(w);
    assert Only(w1, n, s);
    var d := Drained(w1.time);
    if d != [] {
      ShiftTracksMoved(w1, n, s, d[0]);
    }
  }

  lemma ShiftTracksMoved(w1: Wheel, n: Node, s: Slot, moved: Slot)
    requires Only(w1, n, s) && Clocked(w1) && n.expire == Wrap(n.due) && Drained(w1.time) == [moved] && ValidSlot(moved)
    ensures Only(MoveList(w1, moved), n, Shifted(s, n.due, w1.ticks))
  {
    assert Shifted(s, n.due, w1.ticks) == if s == moved then Place(n.expire, w1.time) else s;
    MoveListTracks(w1, n, s, moved);
  }

  /** The first dispatch of an update finds no timer that waits: those of this tick have been called. */
  lemma DispatchBefore(w: Wheel, n: Node, s: Slot)
    requires Waits(w, n, s)
    ensures var w1 := Execute(w);
      && Waits(w1, n, s) && TicksOf(w1.fired, n.id) == TicksOf(w.fired, n.id)
      && w1.ticks == w.ticks && w1.time == w.time && w1.cancelled == w.cancelled
  {
    if s.Near? { NearIsNow(n.due, w.ticks); }
    ExecuteTracks(w, n, s);
  }

  /** The second one calls a timer whose tick this is. */
  lemma DispatchAfter(w: Wheel, n: Node, s: Slot)
    requires Only(w, n, s) && Clocked(w) && SlotOk(s, n.due, w.ticks) && n.expire == Wrap(n.due)
    ensures var w' := Execute(w);
      if !Dead(s) && n.due == w.ticks
      then Absent(w', n.id)
        && TicksOf(w'.fired, n.id) == TicksOf(w.fired, n.id) + if n.id in w.cancelled then [] else [n.due]
      else Waits(w', n, s) && TicksOf(w'.fired, n.id) == TicksOf(w.fired, n.id)
  {
    LiveAhead(s, n.due, w.ticks);
    if s.Near? { NearIsNow(n.due, w.ticks); }
    ExecuteTracks(w, n, s);
  }

  lemma LiveAhead(s: Slot, due: nat, t: nat)
    requires SlotOk(s, due, t)
    ensures s.Near? ==> !Dead(s) && t <= due
    ensures s.Level? && !Dead(s) ==> t < due
  {
    if s.Level? { CascadeBound(s.k, due); }
  }

  /** What one update from w to w' means for n, which waits in list s and, unless it is called, goes on
      waiting in list s'. */
  ghost predicate Tracked(w: Wheel, w': Wheel, n: Node, s: Slot, s': Slot) {
    && w'.ticks == w.ticks + 1 && w'.cancelled == w.cancelled && Clocked(w') && (!Dead(s) ==> w.ticks < n.due)
    && if !Dead(s) && n.due == w'.ticks
       then Absent(w', n.id)
         && TicksOf(w'.fired, n.id) == TicksOf(w.fired, n.id) + if n.id in w.cancelled then [] else [n.due]
       else
         && Waits(w', n, s') && (Dead(s') <==> Dead(s)) && (Dead(s) ==> s' == s)
         && TicksOf(w'.fired, n.id) == TicksOf(w.fired, n.id)
  }

  /** One update: a waiting timer whose list is live is called at its own tick and at no other, and a
      timer in a dead list stays there. */
  lemma UpdateTracks(w: Wheel, n: Node, s: Slot)
    requires Waits(w, n, s)
    ensures Tracked(w, Update(w), n, s, Shifted(s, n.due, w.ticks + 1))
  {
    LiveAhead(s, n.due, w.ticks);
    DispatchBefore(w, n, s);
    ShiftedOk(s, n.due, w.ticks + 1);
    ShiftThenDispatch(w, Execute(w), n, s, Shifted(s, n.due, w.ticks + 1));
  }

  lemma ShiftThenDispatch(w: Wheel, w1: Wheel, n: Node, s: Slot, s': Slot)
    requires Waits(w1, n, s) && TicksOf(w1.fired, n.id) == TicksOf(w.fired, n.id)
    requires w1.ticks == w.ticks && w1.cancelled == w.cancelled && (!Dead(s) ==> w.ticks < n.due)
    requires s' == Shifted(s, n.due, w.ticks + 1) && SlotOk(s', n.due, w.ticks + 1)
    requires (Dead(s') <==> Dead(s)) && (Dead(s) ==> s' == s)
    ensures Tracked(w, Execute(Shift(w1)), n, s, s')
  {
    ShiftTracks(w1, n, s);
    ShiftQuiet(w1);
    DispatchTracks(w, Shift(w1), n, s, s');
  }

  lemma DispatchTracks(w: Wheel, w2: Wheel, n: Node, s: Slot, s': Slot)
    requires Only(w2, n, s') && Clocked(w2) && SlotOk(s', n.due, w2.ticks) && n.expire == Wrap(n.due)
    requires TicksOf(w2.fired, n.id) == TicksOf(w.fired, n.id)
    requires w2.ticks == w.ticks + 1 && w2.cancelled == w.cancelled && (!Dead(s) ==> w.ticks < n.due)
    requires (Dead(s') <==> Dead(s)) && (Dead(s) ==> s' == s)
    ensures Tracked(w, Execute(w2), n, s, s')
  {
    DispatchAfter(w2, n, s');
    ExecuteFrame(w2);
  }

  lemma ShiftQuiet(w: Wheel)
    requires Shaped(w)
    ensures var w' := Shift(w); w'.ticks == w.ticks + 1 && w'.fired == w.fired && w'.cancelled == w.cancelled
  {
  }

  lemma ExecuteFrame(w: Wheel)
    requires Shaped(w)
    ensures var w' := Execute(w); w'.ticks == w.ticks && w'.time == w.time && w'.cancelled == w.cancelled
  {
  }

  lemma CascadeBound(k: nat, due: nat)
    requires k < 4
    ensures CascadeTick(k, due) <= due
  {
  }

  // ----- runs -----

  datatype Event = OnAdd(id: nat, delay: int) | OnCancel(id: nat) | OnUpdate

  const MAX_DELAY := 0x7fff_ffff

  /** Identities are node addresses: a new node has one that is neither queued nor recorded, and
      only a queued node may be cancelled. */
  ghost predicate Fresh(w: Wheel, id: nat) {
    Absent(w, id) && TicksOf(w.fired, id) == [] && id !in w.cancelled
  }

  ghost predicate Legal(w: Wheel, e: Event) {
    Shaped(w) &&
    match e
    case OnAdd(id, delay) => Fresh(w, id) && delay <= MAX_DELAY
    case OnCancel(id) => exists s :: s in w.at && Count(w.at[s], id) > 0
    case OnUpdate => true
  }

  ghost function Step(w: Wheel, e: Event): (w': Wheel)
    requires Legal(w, e)
    ensures Shaped(w')
  {
    match e
    case OnAdd(id, delay) => AddTimer(w, id, delay)
    case OnCancel(id) => Cancel(w, id)
    case OnUpdate => Update(w)
  }

  ghost predicate LegalRun(w: Wheel, es: seq<Event>)
    decreases |es|
  {
    es == [] || (Legal(w, es[0]) && LegalRun(Step(w, es[0]), es[1..]))
  }

  ghost function Run(w: Wheel, es: seq<Event>): Wheel
    requires LegalRun(w, es)
    decreases |es|
  {
    if es == [] then w else Run(Step(w, es[0]), es[1..])
  }

  /** What may have become of timer n, put in list `first`, by now. */
  ghost predicate Fate(w: Wheel, n: Node, first: Slot) {
    Clocked(w) && n.expire == Wrap(n.due) &&
    if Dead(first) then Only(w, n, first) && TicksOf(w.fired, n.id) == []
    else if w.ticks < n.due then
      (exists s :: Waits(w, n, s) && !Dead(s)) && TicksOf(w.fired, n.id) == []
    else
      Absent(w, n.id) && TicksOf(w.fired, n.id) == if n.id in w.cancelled then [] else [n.due]
  }

  lemma AddOtherKeepsFate(w: Wheel, n: Node, first: Slot, id: nat, delay: int)
    requires Fate(w, n, first) && Legal(w, OnAdd(id, delay)) && id != n.id
    ensures Fate(AddTimer(w, id, delay), n, first)
  {
    var w' := AddTimer(w, id, delay);
    if delay <= 0 {
      TicksOfAppend(w.fired, [Firing(id, w.ticks)], n.id);
      if !Dead(first) && w.ticks < n.due {
        var s :| Waits(w, n, s) && !Dead(s);
        assert Waits(w', n, s);
      }
    } else {
      AddNodeKeeps(w, Queued(w, id, delay), n.id);
      if !Dead(first) && w.ticks < n.due {
        var s :| Waits(w, n, s) && !Dead(s);
        assert Waits(w', n, s);
      }
    }
  }

  lemma CancelKeepsFate(w: Wheel, n: Node, first: Slot, id: nat)
    requires Fate(w, n, first) && Legal(w, OnCancel(id))
    ensures Fate(Cancel(w, id), n, first)
  {
    if !Dead(first) && w.ticks < n.due {
      var s :| Waits(w, n, s) && !Dead(s);
      assert Waits(Cancel(w, id), n, s);
    }
  }

  lemma UpdateKeepsDead(w: Wheel, n: Node, first: Slot)
    requires Fate(w, n, first) && Dead(first) && SlotOk(first, n.due, w.ticks)
    ensures Fate(Update(w), n, first)
  {
    UpdateTracks(w, n, first);
  }

  lemma UpdateKeepsLive(w: Wheel, n: Node, first: Slot)
    requires Fate(w, n, first) && !Dead(first) && w.ticks < n.due
    ensures Fate(Update(w), n, first)
  {
    var s :| Waits(w, n, s) && !Dead(s);
    UpdateTracks(w, n, s);
    var s' := Shifted(s, n.due, w.ticks + 1);
    if n.due != w.ticks + 1 {
      assert Waits(Update(w), n, s') && !Dead(s');
    }
  }

  lemma UpdateKeepsGone(w: Wheel, n: Node, first: Slot)
    requires Fate(w, n, first) && !Dead(first) && n.due <= w.ticks
    ensures Fate(Update(w), n, first)
  {
    UpdateAbsent(w, n.id);
    TickClocked(w);
  }

  lemma UpdateKeepsFate(w: Wheel, n: Node, first: Slot)
    requires Fate(w, n, first) && (Dead(first) ==> first.i == n.due / Unit(first.k) % LEVEL)
    ensures Fate(Update(w), n, first)
  {
    if Dead(first) {
      UpdateKeepsDead(w, n, first);
    } else if w.ticks < n.due {
      UpdateKeepsLive(w, n, first);
    } else {
      UpdateKeepsGone(w, n, first);
    }
  }

  lemma {:induction false} RelinkAbsent(w: Wheel, list: seq<Node>, id: nat)
    requires Absent(w, id) && Count(list, id) == 0
    ensures Absent(Relink(w, list), id)
    decreases |list|
  {
    if list != [] {
      AddNodeKeeps(w, list[0], id);
      RelinkAbsent(AddNode(w, list[0]), list[1..], id);
    }
  }

  lemma ExecuteAbsent(w: Wheel, id: nat)
    requires Absent(w, id)
    ensures Absent(Execute(w), id) && TicksOf(Execute(w).fired, id) == TicksOf(w.fired, id)
  {
    var here := Near(w.time % NEAR);
    TicksOfCalls(w.at[here], w.cancelled, w.ticks, id);
    TicksOfAppend(w.fired, Calls(w.at[here], w.cancelled, w.ticks), id);
  }

  lemma UpdateAbsent(w: Wheel, id: nat)
    requires Absent(w, id)
    ensures Absent(Update(w), id) && TicksOf(Update(w).fired, id) == TicksOf(w.fired, id)
    ensures Update(w).time == Tick(w).time && Update(w).ticks == w.ticks + 1 && Update(w).cancelled == w.cancelled
  {
    ExecuteAbsent(w, id);
    var w1 := Tick(Execute(w));
    var d := Drained(w1.time);
    if d != [] {
      RelinkAbsent(w1.(at := w1.at[d[0] := []]), w1.at[d[0]], id);
    }
    ExecuteAbsent(Shift(Execute(w)), id);
  }

  lemma {:induction false} RunKeepsFate(w: Wheel, n: Node, first: Slot, es: seq<Event>)
    requires Fate(w, n, first) && LegalRun(w, es)
    requires Dead(first) ==> first.i == n.due / Unit(first.k) % LEVEL
    ensures Fate(Run(w, es), n, first)
    decreases |es|
  {
    if es != [] {
      match es[0] {
        case OnAdd(id, delay) => IdentityTaken(w, n, first, id); AddOtherKeepsFate(w, n, first, id, delay);
        case OnCancel(id) => CancelKeepsFate(w, n, first, id);
        case OnUpdate => UpdateKeepsFate(w, n, first);
      }
      RunKeepsFate(Step(w, es[0]), n, first, es[1..]);
    }
  }

  /** As long as n is queued or recorded, nobody else gets its identity. */
  lemma IdentityTaken(w: Wheel, n: Node, first: Slot, id: nat)
    requires Fate(w, n, first) && Fresh(w, id)
    ensures id != n.id
  {
    if !Dead(first) && w.ticks < n.due {
      var s :| Waits(w, n, s) && !Dead(s);
      CountMember(w.at[s], n);
    }
  }

  /** Exact firing. A timer added to any wheel with a positive delay, followed by any run of adds,
      cancels and updates (across any number of wraps of the 32-bit time):
      - if its list is index 0 of level 0, 1 or 2 it stays in that list and never runs;
      - otherwise it is queued, once, until the tick it is due, and its function is called at that
        tick, once, unless it was cancelled before. */
  lemma TimerFate(w: Wheel, id: nat, delay: int, es: seq<Event>)
    requires Shaped(w) && Clocked(w) && Fresh(w, id) && 0 < delay <= MAX_DELAY && LegalRun(AddTimer(w, id, delay), es)
    ensures var n := Queued(w, id, delay);
      n.due == w.ticks + delay && Fate(Run(AddTimer(w, id, delay), es), n, Place(n.expire, w.time))
  {
    var n := Queued(w, id, delay);
    var first := Place(n.expire, w.time);
    WrapSum(w.ticks, delay);
    AddMine(w, n);
    PlaceOk(n.due, w.ticks);
    assert Waits(AddNode(w, n), n, first);
    RunKeepsFate(AddTimer(w, id, delay), n, first, es);
  }

  /** A delay that is not positive: the function is called once, now, and nothing is queued. */
  lemma CalledAtOnce(w: Wheel, id: nat, delay: int)
    requires Shaped(w) && Fresh(w, id) && delay <= 0
    ensures var w' := AddTimer(w, id, delay);
      && TicksOf(w'.fired, id) == [w.ticks] && Absent(w', id)
      && w'.at == w.at && w'.time == w.time && w'.ticks == w.ticks && w'.cancelled == w.cancelled
  {
    TicksOfAppend(w.fired, [Firing(id, w.ticks)], id);
  }

  /** add_timer into memory that holds `garbage` where the cancel flag goes. */
  ghost function Added(w: Wheel, id: nat, delay: int, garbage: bool): (w': Wheel)
    requires Shaped(w)
    ensures Shaped(w')
  {
    if garbage && delay > 0 then Cancel(AddTimer(w, id, delay), id) else AddTimer(w, id, delay)
  }

  lemma {:induction false} StaysCancelled(w: Wheel, es: seq<Event>, id: nat)
    requires LegalRun(w, es) && id in w.cancelled
    ensures id in Run(w, es).cancelled
    decreases |es|
  {
    if es != [] {
      StaysCancelled(Step(w, es[0]), es[1..], id);
    }
  }

  /** The fate of a timer whatever its flag held before: as TimerFate has it, except that its function is
      never called if the flag happened to be set. */
  lemma AddedFate(w: Wheel, id: nat, delay: int, garbage: bool, es: seq<Event>)
    requires Shaped(w) && Clocked(w) && Fresh(w, id) && 0 < delay <= MAX_DELAY
    requires LegalRun(Added(w, id, delay, garbage), es)
    ensures var n, w' := Queued(w, id, delay), Run(Added(w, id, delay, garbage), es);
      Fate(w', n, Place(n.expire, w.time)) && (garbage ==> TicksOf(w'.fired, id) == [])
  {
    if garbage {
      var n, w1 := Queued(w, id, delay), AddTimer(w, id, delay);
      var first := Place(n.expire, w.time);
      TimerFate(w, id, delay, []);
      WrapSum(w.ticks, delay);
      PlaceOk(n.due, w.ticks);
      AddMine(w, n);
      CountMember(w1.at[first], n);
      CancelKeepsFate(w1, n, first, id);
      RunKeepsFate(Cancel(w1, id), n, first, es);
      StaysCancelled(Cancel(w1, id), es, id);
    } else {
      TimerFate(w, id, delay, es);
    }
  }

  /** Exactly the delays that are lost, in terms of the clock and the delay alone. */
  lemma LostIff(t: nat, delay: int)
    requires 0 < delay <= MAX_DELAY
    ensures Dead(Place(Wrap(t + delay), Wrap(t))) <==>
      || (0x100 <= delay < 0x4000 && (t + delay) / 0x100 % LEVEL == 0)
      || (0x4000 <= delay < 0x10_0000 && (t + delay) / 0x4000 % LEVEL == 0)
      || (0x10_0000 <= delay < 0x400_0000 && (t + delay) / 0x10_0000 % LEVEL == 0)
  {
    WrapDifference(t + delay, t);
    WrapIndex(t + delay, 0);
    WrapIndex(t + delay, 1);
    WrapIndex(t + delay, 2);
  }

  /** One such delay: 256 ticks added when the clock is at 16128. */
  lemma LostExample()
    ensures Dead(Place(Wrap(16128 + 256), Wrap(16128)))
  {
    LostIff(16128, 256);
  }
}
