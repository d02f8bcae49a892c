/** The millisecond wheel of the coroutine scheduler: a ring of iItemSize lists that covers the times
    from ullStart to ullStart + iItemSize - 1. The functions mirror AddTimeout and TakeAllTimeout; the
    lemmas show that, seen by time instead of by ring index, they are a plain calendar. */
module LibcoWheel {
  import opened Basics

  /** A stTimeoutItem_t as the wheel sees it: who it is and ullExpireTime. */
  datatype Item = Item(id: nat, expire: nat)

  datatype Ring = Ring(slots: seq<seq<Item>>, start: nat, startIdx: int)

  predicate Sized(r: Ring) {
    |r.slots| > 0 && r.startIdx >= 0
  }

  /** Every ring that has been allocated while the clock was not zero. */
  predicate Shaped(r: Ring) {
    Sized(r) && r.start > 0
  }

  /** A start of zero counts as not set yet. */
  function Opened(r: Ring, now: nat): Ring {
    if r.start == 0 then r.(start := now, startIdx := 0) else r
  }

  /** The list that offset o from ullStart maps to. */
  function Index(r: Ring, o: nat): (j: nat)
    requires Sized(r)
    ensures j < |r.slots|
  {
    (r.startIdx + o) % |r.slots|
  }

  // ----- AddTimeout -----

  datatype AddResult = Added(ring: Ring) | ClockBehindStart | AlreadyExpired

  /** The offset an item goes to: its own deadline, or the last one of the window. */
  function Offset(r: Ring, expire: nat): nat
    requires Sized(r) && r.start <= expire
  {
    if expire - r.start >= |r.slots| then |r.slots| - 1 else expire - r.start
  }

  function Put(r: Ring, j: nat, item: Item): Ring
    requires j < |r.slots|
  {
    r.(slots := r.slots[j := r.slots[j] + [item]])
  }

  function AddTimeout(r: Ring, item: Item, now: nat): AddResult
    requires Sized(r)
  {
    var r := Opened(r, now);
    if now < r.start then ClockBehindStart
    else if item.expire < now then AlreadyExpired
    else Added(Put(r, Index(r, Offset(r, item.expire)), item))
  }

  // ----- TakeAllTimeout -----

  /** How many lists are taken; negative when the conversion to int overflowed. */
  function TakeCount(r: Ring, now: nat): int
    requires Sized(r) && r.start <= now
  {
    var cnt := ToInt(now - r.start + 1);
    if cnt > |r.slots| then |r.slots| else cnt
  }

  /** The items of the first cnt lists, in order. */
  function Taken(r: Ring, cnt: nat): seq<Item>
    requires Sized(r)
  {
    if cnt == 0 then [] else Taken(r, cnt - 1) + Emptied(r, cnt - 1)[Index(r, cnt - 1)]
  }

  /** The lists after the first cnt have been emptied. */
  function Emptied(r: Ring, cnt: nat): (slots: seq<seq<Item>>)
    requires Sized(r)
    ensures |slots| == |r.slots|
  {
    if cnt == 0 then r.slots else Emptied(r, cnt - 1)[Index(r, cnt - 1) := []]
  }

  datatype TakeResult = TakeResult(taken: seq<Item>, ring: Ring)

  /** TakeAllTimeout, with the start set. */
  function TakeDue(r: Ring, now: nat): (res: TakeResult)
    requires Sized(r)
    ensures |res.ring.slots| == |r.slots|
  {
    if now < r.start || TakeCount(r, now) < 0 then TakeResult([], r)
    else
      var cnt := TakeCount(r, now);
      TakeResult(Taken(r, cnt), Ring(Emptied(r, cnt), now, r.startIdx + cnt - 1))
  }

  function TakeAllTimeout(r: Ring, now: nat): (res: TakeResult)
    requires Sized(r)
    ensures |res.ring.slots| == |r.slots|
  {
    TakeDue(Opened(r, now), now)
  }

  // ----- by time -----

  /** The items whose slot stands for time t. */
  function At(r: Ring, t: nat): seq<Item>
    requires Sized(r)
  {
    if r.start <= t < r.start + |r.slots| then r.slots[Index(r, t - r.start)] else []
  }

  /** The items with slot times from lo up to but not including hi, in time order. */
  function Between(r: Ring, lo: nat, hi: nat): seq<Item>
    requires Sized(r)
  {
    if lo >= hi then [] else Between(r, lo, hi - 1) + At(r, hi - 1)
  }

  lemma IndexInjective(r: Ring, a: nat, b: nat)
    requires Sized(r) && a < b < a + |r.slots|
    ensures Index(r, a) != Index(r, b)
  {
    ModDiffers(|r.slots|, r.startIdx + a, r.startIdx + b);
  }

  lemma IndexPeriodic(r: Ring, o: nat)
    requires Sized(r)
    ensures Index(r, o + |r.slots|) == Index(r, o)
  {
    var n := |r.slots|;
    var x := r.startIdx + o;
    assert x + n == (x / n + 1) * n + x % n;
    var d := (x + n) / n - (x / n + 1);
    assert d * n == x % n - (x + n) % n;
    NoMultipleBetween(d, n);
    NoMultipleBetween(-d, n);
    assert (-d) * n == -(d * n);
  }

  lemma {:induction false} EmptiedAt(r: Ring, cnt: nat, o: nat)
    requires Sized(r) && cnt <= |r.slots| && o < |r.slots|
    ensures Emptied(r, cnt)[Index(r, o)] == if o < cnt then [] else r.slots[Index(r, o)]
  {
    if cnt > 0 {
      EmptiedAt(r, cnt - 1, o);
      if o < cnt - 1 {
        IndexInjective(r, o, cnt - 1);
      } else if o > cnt - 1 {
        IndexInjective(r, cnt - 1, o);
      }
    }
  }

  lemma {:induction false} TakenBetween(r: Ring, cnt: nat)
    requires Sized(r) && cnt <= |r.slots|
    ensures Taken(r, cnt) == Between(r, r.start, r.start + cnt)
  {
    if cnt > 0 {
      TakenBetween(r, cnt - 1);
      EmptiedAt(r, cnt - 1, cnt - 1);
    }
  }

  lemma DrainTakes(r: Ring, cnt: nat)
    requires Sized(r) && cnt <= |r.slots|
    ensures Taken(r, cnt) == Between(r, r.start, r.start + cnt)
    ensures forall o: nat :: o < |r.slots| ==>
      Emptied(r, cnt)[Index(r, o)] == if o < cnt then [] else r.slots[Index(r, o)]
  {
    TakenBetween(r, cnt);
    forall o: nat | o < |r.slots|
      ensures Emptied(r, cnt)[Index(r, o)] == if o < cnt then [] else r.slots[Index(r, o)]
    {
      EmptiedAt(r, cnt, o);
    }
  }

  /** How many lists there are up to the one for `now`. */
  function Due(r: Ring, now: nat): nat
    requires Sized(r) && r.start <= now
  {
    if now - r.start + 1 > |r.slots| then |r.slots| else now - r.start + 1
  }

  /** The count survives the conversion to int. */
  predicate StepFits(r: Ring, now: nat) {
    Sized(r) && r.start <= now && TakeCount(r, now) == Due(r, now)
  }

  lemma ShortStepFits(r: Ring, now: nat)
    requires Sized(r) && r.start <= now < r.start + 0x7fff_ffff
    ensures StepFits(r, now)
  {
  }

  /** TakeAllTimeout, by time and once the start is set: it returns exactly the items with a slot time up
      to `now`, ordered by slot time and in order of arrival within one; every other item keeps its slot
      time, and the list for `now` is empty. */
  ghost predicate IsCalendar(r: Ring, now: nat)
    requires Sized(r)
  {
    var (taken, r') := (TakeDue(r, now).taken, TakeDue(r, now).ring);
    && Sized(r') && r'.start == now && |r'.slots| == |r.slots|
    && taken == Between(r, r.start, now + 1)
    && forall t: nat :: At(r', t) == if t <= now then [] else At(r, t)
  }

  /** This includes the case that more than a whole window has passed. */
  lemma TakeAllIsCalendar(r: Ring, now: nat)
    requires StepFits(r, now)
    ensures IsCalendar(r, now)
  {
    var cnt := TakeCount(r, now);
    DrainTakes(r, cnt);
    BetweenBeyond(r, r.start + cnt, now + 1);
    forall t: nat ensures At(TakeDue(r, now).ring, t) == if t <= now then [] else At(r, t) {
      TakeAllAt(r, now, t);
    }
  }

  /** A clock step for which the count overflows is not a calendar step: some item that is due is left
      on the wheel. So the ring is a calendar, whatever is on it, exactly if the count fits. */
  lemma CalendarIff(size: nat, start: nat, startIdx: nat, now: nat)
    requires size > 0 && start > 0
    ensures (forall slots: seq<seq<Item>> :: |slots| == size ==> IsCalendar(Ring(slots, start, startIdx), now))
      <==> StepFits(Ring(seq(size, _ => []), start, startIdx), now)
  {
    var empty := Ring(seq(size, _ => []), start, startIdx);
    if StepFits(empty, now) {
      forall slots: seq<seq<Item>> | |slots| == size ensures IsCalendar(Ring(slots, start, startIdx), now) {
        TakeAllIsCalendar(Ring(slots, start, startIdx), now);
      }
    } else if start <= now {
      var o := Due(empty, now) - 1;
      var r := empty.(slots := empty.slots[Index(empty, o) := [Item(0, 0)]]);
      OverflowLeaves(r, now, o);
      assert !IsCalendar(r, now);
    } else {
      assert !IsCalendar(empty, now);
    }
  }

  lemma OverflowLeaves(r: Ring, now: nat, o: nat)
    requires Sized(r) && r.start <= now && o == Due(r, now) - 1 && TakeCount(r, now) <= o
    requires At(r, r.start + o) != []
    ensures |TakeDue(r, now).taken| < |Between(r, r.start, now + 1)|
  {
    OverflowTakes(r, now, o);
    BetweenMisses(r, r.start + o, now + 1);
  }

  lemma BetweenMisses(r: Ring, mid: nat, hi: nat)
    requires Sized(r) && r.start <= mid < hi && At(r, mid) != []
    ensures |Between(r, r.start, mid)| < |Between(r, r.start, hi)|
  {
    BetweenShort(r, r.start, mid, mid + 1);
    BetweenShort(r, r.start, mid + 1, hi);
  }

  lemma OverflowTakes(r: Ring, now: nat, o: nat)
    requires Sized(r) && r.start <= now && o < |r.slots| && TakeCount(r, now) <= o
    ensures |TakeDue(r, now).taken| <= |Between(r, r.start, r.start + o)|
  {
    var cnt := TakeCount(r, now);
    if cnt >= 0 {
      assert TakeDue(r, now).taken == Taken(r, cnt);
      DrainTakes(r, cnt);
      BetweenShort(r, r.start, r.start + cnt, r.start + o);
    } else {
      assert TakeDue(r, now).taken == [];
    }
  }

  lemma {:induction false} BetweenShort(r: Ring, lo: nat, mid: nat, hi: nat)
    requires Sized(r) && lo <= mid <= hi
    ensures |Between(r, lo, mid)| <= |Between(r, lo, hi)|
    ensures mid < hi && At(r, hi - 1) != [] ==> |Between(r, lo, mid)| < |Between(r, lo, hi)|
    decreases hi
  {
    if mid < hi {
      BetweenShort(r, lo, mid, hi - 1);
    }
  }

  lemma TakeAllAt(r: Ring, now: nat, t: nat)
    requires Sized(r) && StepFits(r, now)
    ensures Sized(TakeDue(r, now).ring)
    ensures At(TakeDue(r, now).ring, t) == if t <= now then [] else At(r, t)
  {
    var n, cnt, r' := |r.slots|, TakeCount(r, now), TakeDue(r, now).ring;
    DrainTakes(r, cnt);
    if now <= t < now + n {
      var o := cnt - 1 + t - now;
      assert Index(r', t - now) == Index(r, o);
      if o < n {
        assert r'.slots[Index(r, o)] == if o < cnt then [] else r.slots[Index(r, o)];
      } else {
        IndexPeriodic(r, o - n);
        assert r'.slots[Index(r, o - n)] == [];
      }
    }
  }

  /** Nothing lies beyond the window. */
  lemma {:induction false} BetweenBeyond(r: Ring, lo: nat, hi: nat)
    requires Sized(r) && r.start <= lo <= hi && (lo < hi ==> lo >= r.start + |r.slots|)
    ensures Between(r, r.start, hi) == Between(r, r.start, lo)
  {
    if lo < hi {
      BetweenBeyond(r, lo, hi - 1);
    }
  }

  /** Steps for which the int count is not positive: the list is left alone, but for a count of zero the
      window still moves, and its first list with it to the one before. */
  lemma OverflowSteps(r: Ring, now: nat)
    requires Sized(r) && r.start <= now
    ensures var d := (now - r.start + 1) % 0x1_0000_0000;
      && (d >= 0x8000_0000 ==> TakeDue(r, now) == TakeResult([], r))
      && (d == 0 ==> TakeDue(r, now) == TakeResult([], Ring(r.slots, now, r.startIdx - 1)))
  {
  }

  /** The window of a ring whose start is zero begins at the clock, in the first list, whatever is on the
      ring; any other start is kept. */
  lemma StartOfZero(r: Ring, item: Item, now: nat)
    requires Sized(r) && r.start == 0 && now <= item.expire
    ensures var k := if item.expire - now < |r.slots| then item.expire - now else |r.slots| - 1;
      AddTimeout(r, item, now) == Added(Ring(r.slots[k := r.slots[k] + [item]], now, 0))
    ensures TakeAllTimeout(r, now) == TakeResult(r.slots[0], Ring(r.slots[0 := []], now, 0))
  {
    assert Index(Opened(r, now), 0) == 0;
    assert Taken(Opened(r, now), 1) == [] + r.slots[0] == r.slots[0];
  }

  lemma StartIsKept(r: Ring, now: nat)
    requires Shaped(r)
    ensures TakeAllTimeout(r, now) == TakeDue(r, now)
    ensures forall item: Item :: now < r.start ==> AddTimeout(r, item, now) == ClockBehindStart
    ensures forall item: Item :: r.start <= now <= item.expire ==>
      AddTimeout(r, item, now) == Added(Put(r, Index(r, Offset(r, item.expire)), item))
  {
  }

  /** AddTimeout, by time: the item goes to its deadline, or to the last time of the window when the
      deadline lies beyond; nothing else changes. */
  lemma AddIsCalendar(r: Ring, item: Item, now: nat)
    requires Sized(r)
    ensures AddTimeout(r, item, now).Added? <==> Opened(r, now).start <= now <= item.expire
    ensures AddTimeout(r, item, now).Added? ==>
      var r, r' := Opened(r, now), AddTimeout(r, item, now).ring;
      var due := if item.expire < r.start + |r.slots| then item.expire else r.start + |r.slots| - 1;
      && Sized(r') && r'.start == r.start && |r'.slots| == |r.slots|
      && forall t: nat :: At(r', t) == At(r, t) + if t == due then [item] else []
  {
    var r0 := r;
    var r := Opened(r0, now);
    if r.start <= now <= item.expire {
      var o := Offset(r, item.expire);
      var r' := AddTimeout(r0, item, now).ring;
      forall t: nat ensures At(r', t) == At(r, t) + if t == r.start + o then [item] else [] {
        if r.start <= t < r.start + |r.slots| {
          var p := t - r.start;
          if p < o { IndexInjective(r, p, o); }
          if o < p { IndexInjective(r, o, p); }
        }
      }
    }
  }
}
