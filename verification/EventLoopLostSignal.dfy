/** A whole run of the event loop, from its start, in which a signal is lost. */
module EventLoopLostSignal {
  import opened LibcoWheel
  import opened EventLoop
  import opened EventLoopProof
  import opened EventLoopSteps
  import opened EventLoopTiming
  import opened EventLoopTheorems
  import opened EventLoopWakes

  /** Coroutine y waits for the last millisecond of the window and x for a later one; the window passes;
      y is resumed and signals the queue of x; the drain goes on to its end. */
  ghost function Losing(n: nat, start: nat, y: nat, x: nat, p: nat, q: nat, ms: nat): seq<Event>
    requires n > 0
  {
    [OnCond(y, p, n - 1, start)] + ([OnCond(x, q, ms, start)] + Ending(start + n - 1, q))
  }

  ghost function Ending(now: nat, q: nat): seq<Event> {
    [OnBegin([], now), OnPop, OnSignal(q), OnPop]
  }

  ghost predicate Window(l: Loop, items: seq<Item>) {
    && RingOk(l.ring) && !l.draining && l.active == [] && l.wakes == []
    && (forall j: nat :: j < |l.ring.slots| && j != Index(l.ring, |l.ring.slots| - 1) ==> l.ring.slots[j] == [])
    && l.ring.slots[Index(l.ring, |l.ring.slots| - 1)] == items
  }

  /** y waits for the last time of the window. */
  ghost predicate Last(l: Loop, y: nat) {
    y in l.waiters && !l.waiters[y].timedOut && l.waiters[y].expire == l.ring.start + |l.ring.slots| - 1
  }

  /** Only y waits. */
  ghost predicate FirstWaits(l: Loop, y: nat, p: nat) {
    && RingOk(l.ring) && Window(l, [Item(y, l.ring.start + |l.ring.slots| - 1)]) && Last(l, y)
    && (forall z :: z in l.waiters ==> z == y) && (forall r :: r != p ==> Queue(l, r) == [])
  }

  /** Both wait, and share the last list of the window, y first. */
  ghost predicate Waiting(l: Loop, y: nat, x: nat, q: nat, ms: nat) {
    && RingOk(l.ring)
      && Window(l, [Item(y, l.ring.start + |l.ring.slots| - 1), Item(x, l.ring.start + ms)]) && Last(l, y)
    && x in l.waiters && l.waiters[x].expire == l.ring.start + ms && Queue(l, q) == [x]
  }

  ghost predicate Covers(l: Loop, n: nat, start: nat) {
    |l.ring.slots| == n > 0 && l.ring.start == start
  }

  lemma OneWaits(l: Loop, y: nat, p: nat)
    requires Initial(l)
    ensures var l' := StartCond(l, y, p, |l.ring.slots| - 1, l.ring.start);
      NewId(l, y) && FirstWaits(l', y, p)
  {
  }

  lemma BothWait(l: Loop, y: nat, x: nat, p: nat, q: nat, ms: nat)
    requires FirstWaits(l, y, p) && y != x && p != q && ms >= |l.ring.slots|
    ensures var l' := StartCond(l, x, q, ms, l.ring.start);
      NewId(l, x) && Waiting(l', y, x, q, ms)
  {
    assert [Item(y, l.ring.start + |l.ring.slots| - 1)] + [Item(x, l.ring.start + ms)] ==
      [Item(y, l.ring.start + |l.ring.slots| - 1), Item(x, l.ring.start + ms)];
  }

  lemma {:induction false} TakenNone(r: Ring, j: nat, cnt: nat)
    requires Sized(r) && j < |r.slots| && (forall i: nat :: i < |r.slots| && i != j ==> r.slots[i] == [])
    requires forall o: nat :: o < cnt ==> Index(r, o) != j
    ensures LibcoWheel.Taken(r, cnt) == [] && Emptied(r, cnt) == r.slots
  {
    if cnt > 0 {
      TakenNone(r, j, cnt - 1);
    }
  }

  lemma LastTaken(r: Ring)
    requires Sized(r)
    requires forall i: nat :: i < |r.slots| && i != Index(r, |r.slots| - 1) ==> r.slots[i] == []
    ensures LibcoWheel.Taken(r, |r.slots|) == r.slots[Index(r, |r.slots| - 1)]
  {
    var n := |r.slots|;
    forall o: nat | o < n - 1 ensures Index(r, o) != Index(r, n - 1) { IndexInjective(r, o, n - 1); }
    TakenNone(r, Index(r, n - 1), n - 1);
  }

  lemma WindowTaken(l: Loop, y: nat, x: nat, q: nat, ms: nat)
    requires Waiting(l, y, x, q, ms) && |l.ring.slots| < 0x7fff_ffff
    ensures var now := l.ring.start + |l.ring.slots| - 1;
      Ids(TakeAllTimeout(l.ring, now).taken) == [y, x] && StepFits(l.ring, now) && TakeCount(l.ring, now) > 0
  {
    var n, r := |l.ring.slots|, l.ring;
    ShortStepFits(r, r.start + n - 1);
    LastTaken(r);
    assert TakeAllTimeout(r, r.start + n - 1).taken == LibcoWheel.Taken(r, n);
    TwoIds(Item(y, r.start + n - 1), Item(x, r.start + ms));
  }

  lemma TwoIds(a: Item, b: Item)
    ensures Ids([a, b]) == [a.id, b.id]
  {
    assert [a, b][1..] == [b];
  }

  /** Both have been taken from the wheel, x ahead of its deadline. */
  ghost predicate Handed(l: Loop, y: nat, x: nat, q: nat) {
    && l.active == [y, x] && l.draining && y != x && Queue(l, q) == [x]
    && y in l.waiters && l.waiters[y].expire <= l.now
    && x in l.waiters && l.waiters[x].timedOut && l.now < l.waiters[x].expire
  }

  ghost predicate Draining(l: Loop, y: nat, x: nat, q: nat) {
    Inv(l) && Handed(l, y, x, q)
  }

  /** An iteration at `now` will take y and x, x ahead of its deadline. */
  ghost predicate TakesBoth(l: Loop, now: nat, y: nat, x: nat, q: nat) {
    && StepFits(l.ring, now) && TakeCount(l.ring, now) > 0 && Ids(TakeAllTimeout(l.ring, now).taken) == [y, x]
    && !l.draining && l.active == [] && Queue(l, q) == [x] && y != x
    && y in l.waiters && l.waiters[y].expire <= now && x in l.waiters && now < l.waiters[x].expire
  }

  lemma WindowEnds(l: Loop, now: nat, y: nat, x: nat, q: nat, ms: nat)
    requires Waiting(l, y, x, q, ms) && y != x && |l.ring.slots| < 0x7fff_ffff && ms >= |l.ring.slots|
    requires now == l.ring.start + |l.ring.slots| - 1
    ensures TakesBoth(l, now, y, x, q)
  {
    WindowTaken(l, y, x, q, ms);
  }

  lemma DrainsAt(l: Loop, now: nat, y: nat, x: nat, q: nat)
    requires Inv(l) && TakesBoth(l, now, y, x, q)
    ensures Legal(l, OnBegin([], now)) && Fits(l, OnBegin([], now)) && Draining(Step(l, OnBegin([], now)), y, x, q)
  {
    Begins(l, now);
    Hands(l, now, y, x, q);
    SameDraining(Step(l, OnBegin([], now)), Expire(l.(draining := true), now), y, x, q);
  }

  lemma SameDraining(l: Loop, l': Loop, y: nat, x: nat, q: nat)
    requires Inv(l) && l == l' && Handed(l', y, x, q)
    ensures Draining(l, y, x, q)
  {
  }

  lemma Begins(l: Loop, now: nat)
    requires Inv(l) && !l.draining && l.ring.start <= now && TakeCount(l.ring, now) > 0
    ensures var e := OnBegin([], now);
      Legal(l, e) && Inv(Step(l, e)) && Step(l, e) == Expire(l.(draining := true), now)
  {
    BeginInv(l, [], now);
    BeginIs(l, now);
  }

  lemma BeginIs(l: Loop, now: nat)
    requires Inv(l) && Legal(l, OnBegin([], now))
    ensures Step(l, OnBegin([], now)) == Expire(l.(draining := true), now)
  {
  }

  lemma Hands(l: Loop, now: nat, y: nat, x: nat, q: nat)
    requires Shaped(l.ring) && Ids(TakeAllTimeout(l.ring, now).taken) == [y, x] && y != x && l.active == []
    requires Queue(l, q) == [x]
    requires y in l.waiters && l.waiters[y].expire <= now && x in l.waiters && now < l.waiters[x].expire
    ensures Handed(Expire(l.(draining := true), now), y, x, q)
  {
  }

  /** y has been resumed and has signalled. */
  ghost predicate Signalled(l: Loop, x: nat) {
    && Inv(l) && l.draining && l.active == [x] && Orphan(l, x)
    && l.waiters[x].timedOut && l.now < l.waiters[x].expire
  }

  lemma Signals(l: Loop, y: nat, x: nat, q: nat)
    requires Draining(l, y, x, q)
    ensures Legal(l, OnPop) && Inv(Step(l, OnPop)) && Signalled(Step(Step(l, OnPop), OnSignal(q)), x)
  {
    SignalLost(l, q);
    Resumes(l, y, x, q);
    SignalInv(Pop(l), q);
    Relinks(Pop(l), x, q);
  }

  lemma Resumes(l: Loop, y: nat, x: nat, q: nat)
    requires Draining(l, y, x, q)
    ensures Legal(l, OnPop) && var l' := Pop(l);
      && l'.active == [x] && l'.draining && l'.now == l.now && Queue(l', q) == [x]
      && x in l'.waiters && l'.waiters[x] == l.waiters[x] && l.waiters[x].link == Active
  {
    assert XOk(l, y) && XOk(l, x) && WaiterOk(l, x, l.waiters[x]);
    PopIs(l);
    ReturnShape(Popped(l), y);
    assert Queue(Popped(l), q) == Queue(l, q) && RemoveId([x], y) == [x];
  }

  lemma Relinks(l: Loop, x: nat, q: nat)
    requires Queue(l, q) == [x] && l.active == [x] && x in l.waiters && l.waiters[x].link == Active
    ensures var l' := Signal(l, q);
      && l'.active == [x] && l'.draining == l.draining && l'.now == l.now
      && x in l'.waiters && l'.waiters[x] == l.waiters[x]
  {
    var l0 := Unqueued(l, q);
    assert Unlink(l0, x).active == RemoveId([x], x) == [];
    assert Unlink(l0, x).waiters == l.waiters[x := l.waiters[x].(link := Nowhere)];
    assert Signal(l, q) == AddActive(Unlink(l0, x), x);
  }

  /** Where the run ends: nobody is left in the list, and x waits for its deadline alone. */
  ghost predicate Lost(l: Loop, x: nat) {
    Inv(l) && l.active == [] && Orphan(l, x) && l.waiters[x].link.InSlot?
  }

  lemma PutsBack(l: Loop, x: nat)
    requires Signalled(l, x)
    ensures Legal(l, OnPop) && Lost(Step(l, OnPop), x)
  {
    PopInv(l);
    PopStep(l);
    PopOrphan(l, x);
    assert XOk(l, x);
    PopIs(l);
  }

  /** The run is one of the program, on a clock that fits, and ends with the signal lost on x. */
  ghost predicate Loses(l: Loop, run: seq<Event>, x: nat) {
    Inv(l) && LegalRun(l, run) && FitsRun(l, run) && Lost(Run(l, run), x)
  }

  lemma LosesOne(l: Loop, run: seq<Event>, rest: seq<Event>, x: nat)
    requires run != [] && run[1..] == rest && Inv(l) && Legal(l, run[0]) && Fits(l, run[0])
    requires Loses(Step(l, run[0]), rest, x)
    ensures Loses(l, run, x)
  {
  }

  lemma LosesMore(l: Loop, e: Event, rest: seq<Event>, x: nat)
    requires Inv(l) && Legal(l, e) && Fits(l, e) && Loses(Step(l, e), rest, x)
    ensures Loses(l, [e] + rest, x)
  {
    LosesOne(l, [e] + rest, rest, x);
  }

  lemma DrainLoses(l: Loop, y: nat, x: nat, q: nat)
    requires Draining(l, y, x, q)
    ensures Loses(l, [OnPop, OnSignal(q), OnPop], x)
  {
    Signals(l, y, x, q);
    var l1 := Step(l, OnPop);
    var l2 := Step(l1, OnSignal(q));
    PutsBack(l2, x);
    LosesOne(l2, [OnPop], [], x);
    LosesOne(l1, [OnSignal(q), OnPop], [OnPop], x);
    LosesOne(l, [OnPop, OnSignal(q), OnPop], [OnSignal(q), OnPop], x);
  }

  lemma IterationLoses(l: Loop, now: nat, y: nat, x: nat, q: nat, ending: seq<Event>)
    requires Inv(l) && TakesBoth(l, now, y, x, q) && ending == Ending(now, q)
    ensures Loses(l, ending, x)
  {
    DrainsAt(l, now, y, x, q);
    DrainLoses(Step(l, OnBegin([], now)), y, x, q);
    LosesOne(l, ending, [OnPop, OnSignal(q), OnPop], x);
  }

  lemma WindowLoses(l: Loop, n: nat, now: nat, y: nat, x: nat, q: nat, ms: nat, ending: seq<Event>)
    requires Covers(l, n, l.ring.start) && now == l.ring.start + n - 1 && n < 0x7fff_ffff && ms >= n
    requires Inv(l) && Waiting(l, y, x, q, ms) && y != x && ending == Ending(now, q)
    ensures Loses(l, ending, x)
  {
    WindowEnds(l, now, y, x, q, ms);
    IterationLoses(l, now, y, x, q, ending);
  }

  lemma FirstStep(l: Loop, n: nat, start: nat, y: nat, p: nat)
    requires Covers(l, n, start) && Initial(l) && Inv(l)
    ensures var e := OnCond(y, p, n - 1, start);
      Legal(l, e) && Inv(Step(l, e)) && FirstWaits(Step(l, e), y, p) && Covers(Step(l, e), n, start)
  {
    OneWaits(l, y, p);
    CondInv(l, y, p, n - 1, start);
    assert Step(l, OnCond(y, p, n - 1, start)) == StartCond(l, y, p, n - 1, start);
  }

  lemma SecondStep(l: Loop, n: nat, start: nat, y: nat, x: nat, p: nat, q: nat, ms: nat)
    requires Covers(l, n, start) && Inv(l) && FirstWaits(l, y, p) && y != x && p != q && ms >= n
    ensures var e := OnCond(x, q, ms, start);
      Legal(l, e) && Inv(Step(l, e)) && Waiting(Step(l, e), y, x, q, ms) && Covers(Step(l, e), n, start)
  {
    BothWait(l, y, x, p, q, ms);
    CondInv(l, x, q, ms, start);
  }

  lemma EndingLoses(l: Loop, n: nat, start: nat, y: nat, x: nat, p: nat, q: nat, ms: nat, e: Event,
                    ending: seq<Event>)
    requires Covers(l, n, start) && Inv(l) && FirstWaits(l, y, p) && y != x && p != q && n < 0x7fff_ffff && ms >= n
    requires e == OnCond(x, q, ms, start) && ending == Ending(start + n - 1, q)
    ensures Legal(l, e) && Loses(Step(l, e), ending, x)
  {
    SecondStep(l, n, start, y, x, p, q, ms);
    WindowLoses(Step(l, e), n, start + n - 1, y, x, q, ms, ending);
  }

  lemma SecondLoses(l: Loop, n: nat, start: nat, y: nat, x: nat, p: nat, q: nat, ms: nat, e: Event,
                    ending: seq<Event>)
    requires Covers(l, n, start) && Inv(l) && FirstWaits(l, y, p) && y != x && p != q && n < 0x7fff_ffff && ms >= n
    requires e == OnCond(x, q, ms, start) && ending == Ending(start + n - 1, q)
    ensures Loses(l, [e] + ending, x)
  {
    EndingLoses(l, n, start, y, x, p, q, ms, e, ending);
    LosesMore(l, e, ending, x);
  }

  lemma FirstLoses(l: Loop, n: nat, start: nat, y: nat, x: nat, p: nat, q: nat, ms: nat, e: Event, rest: seq<Event>)
    requires Covers(l, n, start) && Initial(l) && Inv(l) && y != x && p != q && n < 0x7fff_ffff && ms >= n
    requires e == OnCond(y, p, n - 1, start) && rest == [OnCond(x, q, ms, start)] + Ending(start + n - 1, q)
    ensures Legal(l, e) && Loses(Step(l, e), rest, x)
  {
    FirstStep(l, n, start, y, p);
    SecondLoses(Step(l, e), n, start, y, x, p, q, ms, OnCond(x, q, ms, start), Ending(start + n - 1, q));
  }

  /** The program can lose a signal: on every wheel of at least two slots, from the start, and with a
      clock that moves on by one window. */
  lemma SignalIsLost(l: Loop, n: nat, start: nat, y: nat, x: nat, p: nat, q: nat, ms: nat) returns (run: seq<Event>)
    requires Covers(l, n, start) && Initial(l) && Inv(l) && y != x && p != q && n < 0x7fff_ffff && ms >= n
    ensures run == Losing(n, start, y, x, p, q, ms) && Loses(l, run, x)
  {
    var e, rest := OnCond(y, p, n - 1, start), [OnCond(x, q, ms, start)] + Ending(start + n - 1, q);
    FirstLoses(l, n, start, y, x, p, q, ms, e, rest);
    LosesMore(l, e, rest, x);
    run := [e] + rest;
  }
}
