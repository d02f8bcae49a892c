/** The wheel against the plain rule "a timer runs at the tick it is due". */
module TimingWheelProof {
  import opened Basics
  import opened TimingWheel

  // ----- which list is cascaded when -----

  lemma UnitChain(x: nat, k: nat)
    requires 0 < k < 4 && x % Unit(k) == 0
    ensures x % Unit(k - 1) == 0 && x / Unit(k - 1) % LEVEL == 0
  {
    var c, u := x / Unit(k), Unit(k - 1);
    assert x == c * LEVEL * u + 0;
    DivModUnique(x, u, c * LEVEL, 0);
    DivModUnique(c * LEVEL, LEVEL, c, 0);
  }

  lemma {:induction false} DrainedFromSkips(ct: nat, k: nat)
    requires k < 4 && ct % Unit(k) == 0
    ensures DrainedFrom(ct, 0) == DrainedFrom(ct, k)
  {
    if k > 0 {
      UnitChain(ct, k);
      DrainedFromSkips(ct, k - 1);
    }
  }

  /** The list cascaded at 32-bit time ct is never one of the dead ones, and its index is the one
      ct has on its level. */
  lemma DrainedIndex(ct: nat, k: nat)
    requires k <= 4 && ct < TWO32
    ensures DrainedFrom(ct, k) != [] ==>
      var s := DrainedFrom(ct, k)[0]; !Dead(s) && ct % Unit(s.k) == 0 && s.i == ct / Unit(s.k) % LEVEL
    decreases 4 - k
  {
  }

  /** The loop of timer_shift stops at a level below 4 for every nonzero time. */
  lemma DrainedStops(ct: nat)
    requires 0 < ct < TWO32
    ensures exists k :: 0 <= k < 4 && (ct % Unit(k) != 0 || ct / Unit(k) % LEVEL != 0)
  {
    var q := ct / Unit(3);
    if ct % Unit(3) == 0 {
      assert q * Unit(3) == ct;
      assert 0 < q < LEVEL;
      assert q % LEVEL == q;
    }
  }

  /** At tick t exactly those live lists of the upper levels are cascaded whose timers have their
      cascade tick at t. */
  lemma DrainedExactly(t: nat, s: Slot, due: nat)
    requires t > 0 && s.Level? && SlotOk(s, due, t - 1) && !Dead(s)
    ensures Drained(Wrap(t)) == [s] <==> CascadeTick(s.k, due) == t
  {
    var k, ct := s.k, Wrap(t);
    WrapIndex(t, k);
    var a, b := t / Unit(k), due / Unit(k);
    if CascadeTick(k, due) == t {
      DivModUnique(t, Unit(k), b, 0);
      DrainedFromSkips(ct, k);
      if s.i == 0 {
        DivModUnique(t, TWO32, b / LEVEL, 0);
      } else if ct == 0 {
        DivModUnique(0, Unit(k), 0, 0);
        assert false;
      }
    } else if Drained(ct) == [s] {
      if ct == 0 {
        MultipleOfTop(t);
      } else {
        DrainedIndex(ct, 0);
      }
      assert t == a * Unit(k);
      SameIndexSameBlock(a, b, Unit(k), t);
      assert false;
    }
  }

  lemma MultipleOfTop(t: nat)
    requires Wrap(t) == 0
    ensures t % Unit(3) == 0 && t / Unit(3) % LEVEL == 0
  {
    var q := t / TWO32;
    DivModUnique(t, Unit(3), q * LEVEL, 0);
    DivModUnique(q * LEVEL, LEVEL, q, 0);
  }

  lemma SameIndexSameBlock(a: nat, b: nat, u: nat, t: nat)
    requires u > 0 && t == a * u && a % LEVEL == b % LEVEL && t - 1 < b * u < t - 1 + LEVEL * u
    ensures a == b
  {
    assert (b - a) * u == b * u - t;
    MulSize(b - a, u);
    assert (b - a - LEVEL) * u == b * u - t - LEVEL * u;
    MulSize(b - a - LEVEL, u);
    assert 0 <= b - a < LEVEL;
  }

  /** A cascaded timer goes to a strictly lower list, and never to a dead one. */
  lemma CascadeLowers(k: nat, due: nat, t: nat)
    requires k < 4 && t == CascadeTick(k, due)
    ensures var s := Place(Wrap(due), Wrap(t)); SlotOk(s, due, t) && !Dead(s) && (s.Near? || s.k < k)
  {
    PlaceOk(due, t);
    WrapDifference(due, t);
    var s, d := Place(Wrap(due), Wrap(t)), due - t;
    assert d < Unit(k);
    if s.Level? {
      var m := UnitRatio(s.k, k);
      IndexWithinBlock(due / Unit(k), d, Unit(s.k), m, Unit(k));
      assert due == due / Unit(k) * Unit(k) + d;
    }
  }

  lemma IndexWithinBlock(b: nat, d: nat, u: nat, m: nat, block: nat)
    requires u > 0 && block == m * LEVEL * u && u <= d < LEVEL * u
    ensures (b * block + d) / u % LEVEL == d / u && d / u > 0
  {
    var c := b * m;
    BlockAsMultiple(b, m, u);
    DivModAdd(c * LEVEL, d, u);
    DivModAdd(c, d / u, LEVEL);
    QuotientBelow(d, u);
    DivModUnique(d / u, LEVEL, 0, d / u);
  }

  lemma BlockAsMultiple(b: nat, m: nat, u: nat)
    ensures b * (m * LEVEL * u) == b * m * LEVEL * u
  {
    assert b * (m * LEVEL * u) == b * m * (LEVEL * u);
  }

  lemma QuotientBelow(d: nat, u: nat)
    requires u > 0 && u <= d < LEVEL * u
    ensures 0 < d / u < LEVEL
  {
    var q := d / u;
    assert d == q * u + d % u;
    MulSize(q - LEVEL, u);
    assert (q - LEVEL) * u == q * u - LEVEL * u;
    MulSize(1 - q, u);
    assert (1 - q) * u == u - q * u;
  }

  function UnitRatio(j: nat, k: nat): (m: nat)
    requires j < k < 4
    ensures m * LEVEL * Unit(j) == Unit(k)
  {
    if k - j == 1 then 1 else if k - j == 2 then LEVEL else LEVEL * LEVEL
  }
}
