/** Where one item is linked, and how the list operations move it. Everything here is about a single
    item y, so that it can be used for all of them. */
module EventLoopLists {
  import opened LibcoWheel
  import opened EventLoop

  ghost function Times(s: seq<nat>, x: nat): nat {
    multiset(s)[x]
  }

  ghost function LinkOf(l: Loop, x: nat): Place {
    if x in l.waiters then l.waiters[x].link else Nowhere
  }

  /** x is in the list its link names, once, and in no other. */
  ghost predicate Placed(l: Loop, x: nat) {
    && Times(l.active, x) == (if LinkOf(l, x) == Active then 1 else 0)
    && (forall j: nat :: j < |l.ring.slots| ==>
        Times(Ids(l.ring.slots[j]), x) == if LinkOf(l, x) == InSlot(j) then 1 else 0)
    && (LinkOf(l, x).InSlot? ==> LinkOf(l, x).j < |l.ring.slots|)
  }

  /** The items on the wheel carry the deadline of their waiter. */
  ghost predicate Dated(l: Loop, x: nat) {
    forall j: nat, item :: j < |l.ring.slots| && item in l.ring.slots[j] && item.id == x && x in l.waiters ==>
      item.expire == l.waiters[x].expire
  }

  // ----- sequences -----

  lemma {:induction false} IdsAppend(a: seq<Item>, b: seq<Item>)
    ensures Ids(a + b) == Ids(a) + Ids(b)
  {
    if a == [] {
      assert a + b == b;
    } else {
      assert (a + b)[1..] == a[1..] + b;
      IdsAppend(a[1..], b);
    }
  }

  lemma TimesAppend(a: seq<nat>, b: seq<nat>, x: nat)
    ensures Times(a + b, x) == Times(a, x) + Times(b, x)
  {
    assert multiset(a + b) == multiset(a) + multiset(b);
  }

  lemma {:induction false} RemoveIdTimes(s: seq<nat>, x: nat, y: nat)
    ensures Times(RemoveId(s, x), y) == if x == y && x in s then Times(s, y) - 1 else Times(s, y)
  {
    if s != [] {
      assert s == [s[0]] + s[1..];
      if s[0] != x {
        RemoveIdTimes(s[1..], x, y);
      }
    }
  }

  lemma {:induction false} RemoveItemIds(s: seq<Item>, x: nat)
    ensures Ids(RemoveItem(s, x)) == RemoveId(Ids(s), x)
    ensures forall item :: item in RemoveItem(s, x) ==> item in s
  {
    if s != [] && s[0].id != x {
      RemoveItemIds(s[1..], x);
      IdsAppend([s[0]], RemoveItem(s[1..], x));
    }
  }

  lemma {:induction false} IdsMember(s: seq<Item>, x: nat)
    ensures x in Ids(s) <==> exists item :: item in s && item.id == x
  {
    if s != [] {
      assert s == [s[0]] + s[1..];
      IdsMember(s[1..], x);
    }
  }

  // ----- RemoveFromLink and AddTail -----

  lemma UnlinkPlaces(l: Loop, x: nat, y: nat)
    requires Placed(l, x) && Placed(l, y)
    ensures Placed(Unlink(l, x), y) && LinkOf(Unlink(l, x), y) == if x == y then Nowhere else LinkOf(l, y)
  {
    match LinkOf(l, x) {
      case Nowhere =>
      case Active => RemoveIdTimes(l.active, x, y);
      case InSlot(j) => UnlinkSlotPlaces(l, x, j, y);
    }
  }

  lemma UnlinkSlotPlaces(l: Loop, x: nat, j: nat, y: nat)
    requires Placed(l, x) && Placed(l, y) && LinkOf(l, x) == InSlot(j)
    ensures Placed(Unlink(l, x), y) && LinkOf(Unlink(l, x), y) == if x == y then Nowhere else LinkOf(l, y)
  {
    var l' := Unlink(l, x);
    var slots := l.ring.slots;
    assert l'.ring.slots == slots[j := RemoveItem(slots[j], x)] && l'.active == l.active;
    assert LinkOf(l', y) == if x == y then Nowhere else LinkOf(l, y);
    assert Times(Ids(slots[j]), x) == 1;
    forall i: nat | i < |slots| ensures Times(Ids(l'.ring.slots[i]), y) == if LinkOf(l', y) == InSlot(i) then 1 else 0 {
      assert Times(Ids(slots[i]), y) == if LinkOf(l, y) == InSlot(i) then 1 else 0;
      if i == j { SlotTimes(slots[j], x, y); }
    }
  }

  lemma SlotTimes(slot: seq<Item>, x: nat, y: nat)
    ensures Times(Ids(RemoveItem(slot, x)), y) ==
      if x == y && Times(Ids(slot), x) > 0 then Times(Ids(slot), y) - 1 else Times(Ids(slot), y)
  {
    RemoveItemIds(slot, x);
    RemoveIdTimes(Ids(slot), x, y);
  }

  lemma UnlinkDates(l: Loop, x: nat, y: nat)
    requires Dated(l, y)
    ensures Dated(Unlink(l, x), y)
  {
    if x in l.waiters && l.waiters[x].link.InSlot? && l.waiters[x].link.j < |l.ring.slots| {
      RemoveItemIds(l.ring.slots[l.waiters[x].link.j], x);
    }
  }

  /** Everything about the other waiters, and all but the link of x, stays. */
  lemma UnlinkFrame(l: Loop, x: nat)
    requires Placed(l, x)
    ensures var l' := Unlink(l, x);
      && l'.conds == l.conds && l'.epoll == l.epoll
        && l'.draining == l.draining && l'.now == l.now && l'.wakes == l.wakes
      && l'.ring.start == l.ring.start && l'.ring.startIdx == l.ring.startIdx && |l'.ring.slots| == |l.ring.slots|
      && l'.waiters == if x in l.waiters then l.waiters[x := l.waiters[x].(link := Nowhere)] else l.waiters
  {
  }

  lemma AddActivePlaces(l: Loop, x: nat, y: nat)
    requires Placed(l, y)
    ensures Placed(AddActive(l, x), y)
    ensures LinkOf(AddActive(l, x), y) ==
      if x == y && x in l.waiters && LinkOf(l, x) == Nowhere then Active else LinkOf(l, y)
  {
    assert multiset(l.active + [x]) == multiset(l.active) + multiset{x};
  }

  lemma PutOnPlaces(l: Loop, x: nat, w: Waiter, now: nat, y: nat)
    requires Shaped(l.ring) && l.ring.start <= now <= w.expire && Placed(l, y) && LinkOf(l, x) == Nowhere
    ensures var r := AddTimeout(l.ring, Item(x, w.expire), now);
      r.Added? && var l' := PutOn(l, x, w, r.ring);
      Placed(l', y) && (y != x ==> LinkOf(l', y) == LinkOf(l, y))
  {
    var j := Index(l.ring, Offset(l.ring, w.expire));
    IdsAppend(l.ring.slots[j], [Item(x, w.expire)]);
    assert Ids([Item(x, w.expire)]) == [x];
    assert multiset(Ids(l.ring.slots[j]) + [x]) == multiset(Ids(l.ring.slots[j])) + multiset{x};
  }

  // ----- TakeAllTimeout -----

  lemma {:induction false} EmptiedOrSame(r: Ring, cnt: nat)
    requires Shaped(r)
    ensures forall i: nat :: i < |r.slots| ==> Emptied(r, cnt)[i] == r.slots[i] || Emptied(r, cnt)[i] == []
  {
    if cnt > 0 { EmptiedOrSame(r, cnt - 1); }
  }

  ghost predicate OnlyIn(slots: seq<seq<Item>>, j: nat, x: nat) {
    forall i: nat :: i < |slots| && i != j ==> Times(Ids(slots[i]), x) == 0
  }

  /** What has been taken and what is left hold x as often as before. */
  lemma {:induction false} TakeTimes(r: Ring, cnt: nat, x: nat, j: nat)
    requires Shaped(r) && j < |r.slots| && OnlyIn(r.slots, j, x)
    ensures Times(Ids(LibcoWheel.Taken(r, cnt)), x) + Times(Ids(Emptied(r, cnt)[j]), x) == Times(Ids(r.slots[j]), x)
    ensures OnlyIn(Emptied(r, cnt), j, x)
  {
    if cnt > 0 {
      TakeTimes(r, cnt - 1, x, j);
      TakeOneTimes(LibcoWheel.Taken(r, cnt - 1), Emptied(r, cnt - 1), Index(r, cnt - 1), x, j);
    }
  }

  lemma TakeOneTimes(taken: seq<Item>, slots: seq<seq<Item>>, k: nat, x: nat, j: nat)
    requires j < |slots| && k < |slots| && OnlyIn(slots, j, x)
    ensures Times(Ids(taken + slots[k]), x) + Times(Ids(slots[k := []][j]), x) ==
      Times(Ids(taken), x) + Times(Ids(slots[j]), x)
    ensures OnlyIn(slots[k := []], j, x)
  {
    IdsAppend(taken, slots[k]);
    TimesAppend(Ids(taken), Ids(slots[k]), x);
  }

  /** x is once among what has been taken and what is left in its slot, or in neither. */
  ghost predicate Moves(l: Loop, ids: seq<nat>, slots: seq<seq<Item>>, x: nat) {
    |slots| == |l.ring.slots| &&
    if LinkOf(l, x).InSlot? then
      LinkOf(l, x).j < |slots|
        && Times(ids, x) + Times(Ids(slots[LinkOf(l, x).j]), x) == 1 && OnlyIn(slots, LinkOf(l, x).j, x)
    else
      Times(ids, x) == 0 && forall i: nat :: i < |slots| ==> Times(Ids(slots[i]), x) == 0
  }

  /** TakeAllTimeout and the join of its result move x to the active list or leave it where it is. */
  lemma ExpirePlaces(l: Loop, now: nat, x: nat)
    requires Shaped(l.ring) && Placed(l, x)
    ensures Placed(Expire(l, now), x)
    ensures LinkOf(Expire(l, now), x) == LinkOf(l, x) || (LinkOf(l, x).InSlot? && LinkOf(Expire(l, now), x) == Active)
    ensures x in l.waiters ==> x in Expire(l, now).waiters
    ensures x in l.waiters ==> (Expire(l, now).waiters[x] ==
      (if LinkOf(Expire(l, now), x) == LinkOf(l, x) then l.waiters[x] else EventLoop.Taken(l.waiters[x])))
  {
    var res := TakeAllTimeout(l.ring, now);
    ExpireTaken(l, now, x);
    TimesAppend(l.active, Ids(res.taken), x);
    assert Times(Ids(res.taken), x) > 0 <==> x in Ids(res.taken);
  }

  lemma ExpireTaken(l: Loop, now: nat, x: nat)
    requires Shaped(l.ring) && Placed(l, x)
    ensures Moves(l, Ids(TakeAllTimeout(l.ring, now).taken), TakeAllTimeout(l.ring, now).ring.slots, x)
  {
    if now < l.ring.start || TakeCount(l.ring, now) < 0 {
      NoneMoves(l, x);
    } else {
      TakenMoves(l, TakeCount(l.ring, now), x);
    }
  }

  lemma NoneMoves(l: Loop, x: nat)
    requires Placed(l, x)
    ensures Moves(l, Ids([]), l.ring.slots, x)
  {
  }

  lemma TakenMoves(l: Loop, cnt: nat, x: nat)
    requires Shaped(l.ring) && Placed(l, x)
    ensures Moves(l, Ids(LibcoWheel.Taken(l.ring, cnt)), Emptied(l.ring, cnt), x)
  {
    var j := if LinkOf(l, x).InSlot? then LinkOf(l, x).j else 0;
    PlacedOnlyIn(l, x, j);
    TakeTimes(l.ring, cnt, x, j);
  }

  lemma PlacedOnlyIn(l: Loop, x: nat, j: nat)
    requires Placed(l, x) && j < |l.ring.slots| && (LinkOf(l, x).InSlot? ==> LinkOf(l, x).j == j)
    ensures OnlyIn(l.ring.slots, j, x) && Times(Ids(l.ring.slots[j]), x) == if LinkOf(l, x).InSlot? then 1 else 0
  {
  }

  lemma ExpireDates(l: Loop, now: nat, x: nat)
    requires Shaped(l.ring) && Dated(l, x)
    ensures Dated(Expire(l, now), x)
  {
    if !(now < l.ring.start || TakeCount(l.ring, now) < 0) {
      EmptiedOrSame(l.ring, TakeCount(l.ring, now));
    }
  }
}
