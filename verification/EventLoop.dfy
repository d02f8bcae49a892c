/** The scheduler's event loop with its two kinds of waiters, poll calls and condition waits, as a
    machine of small steps: the start of an iteration (epoll results, then timeouts), one round of the
    drain of the active list, and what a running coroutine may do in between. Coroutine code between
    two steps is arbitrary; a step names its choice and the clock reading it used. */
module EventLoop {
  import opened LibcoWheel

  /** The list an item is linked in (pLink). */
  datatype Place = Nowhere | InSlot(j: nat) | Active

  /** An event of epoll_wait: the descriptor it is registered for and its bits, as poll bits. */
  datatype IoEvent = IoEvent(fd: nat, bits: nat)

  datatype Kind = Poll(fds: set<nat>) | Cond(q: nat)

  /** A stPoll_t, or a stCoCondItem_t with its timeout item, from the yield to the resume.
      `since`, `lastStart`, `slotTime` and `requeues` only record history: ullStart when the item was
      first and last put on the wheel, the time of its slot, and how often it was put back. */
  datatype Waiter = Waiter(
    kind: Kind,
    link: Place,
    hasTimeout: bool,
    expire: nat,
    timedOut: bool,
    raised: nat,
    revents: map<nat, nat>,
    detached: bool,
    since: nat,
    lastStart: nat,
    slotTime: nat,
    requeues: nat)

  /** One resume of a waiter by the loop, at loop time `now`; `queued` says that a condition waiter was
      still in its queue. */
  datatype Wake = Wake(id: nat, now: nat, waiter: Waiter, queued: bool)

  datatype Loop = Loop(
    ring: Ring,
    active: seq<nat>,
    conds: map<nat, seq<nat>>,
    waiters: map<nat, Waiter>,
    epoll: map<nat, nat>,
    draining: bool,
    now: nat,
    wakes: seq<Wake>)

  function Queue(l: Loop, q: nat): seq<nat> {
    if q in l.conds then l.conds[q] else []
  }

  function With(l: Loop, x: nat, w: Waiter): Loop {
    l.(waiters := l.waiters[x := w])
  }

  // ----- the lists -----

  function RemoveId(s: seq<nat>, x: nat): seq<nat> {
    if s == [] then [] else if s[0] == x then s[1..] else [s[0]] + RemoveId(s[1..], x)
  }

  function RemoveItem(s: seq<Item>, x: nat): seq<Item> {
    if s == [] then [] else if s[0].id == x then s[1..] else [s[0]] + RemoveItem(s[1..], x)
  }

  function Ids(s: seq<Item>): (r: seq<nat>)
    ensures |r| == |s|
  {
    if s == [] then [] else [s[0].id] + Ids(s[1..])
  }

  /** RemoveFromLink of a timeout item. */
  function Unlink(l: Loop, x: nat): Loop {
    if x !in l.waiters then l
    else
      var w := l.waiters[x];
      match w.link
      case Nowhere => l
      case Active => With(l.(active := RemoveId(l.active, x)), x, w.(link := Nowhere))
      case InSlot(j) =>
        if j < |l.ring.slots|
        then With(l.(ring := l.ring.(slots := l.ring.slots[j := RemoveItem(l.ring.slots[j], x)])),
          x, w.(link := Nowhere))
        else l
  }

  /** AddTail to the active list, which does nothing for an item that is linked. */
  function AddActive(l: Loop, x: nat): Loop {
    if x !in l.waiters || l.waiters[x].link != Nowhere then l
    else With(l.(active := l.active + [x]), x, l.waiters[x].(link := Active))
  }

  // ----- an iteration -----

  /** What an event leaves in its poll. */
  function Raised(w: Waiter, ev: IoEvent): Waiter {
    w.(raised := w.raised + 1, revents := w.revents[ev.fd := ev.bits], detached := true)
  }

  /** OnPollPreparePfn for an event. */
  function Prepare(l: Loop, ev: IoEvent): Loop {
    if ev.fd !in l.epoll || l.epoll[ev.fd] !in l.waiters then l
    else
      var x := l.epoll[ev.fd];
      var w := l.waiters[x];
      var l1 := With(l, x, Raised(w, ev));
      if w.detached then l1 else AddActive(Unlink(l1, x), x)
  }

  function PrepareAll(l: Loop, events: seq<IoEvent>): Loop
    decreases |events|
  {
    if events == [] then l else PrepareAll(Prepare(l, events[0]), events[1..])
  }

  /** What joining the taken items to the active list does to a waiter. */
  function Taken(w: Waiter): Waiter {
    w.(timedOut := true, link := Active)
  }

  function Expire(l: Loop, now: nat): Loop
    requires Shaped(l.ring)
  {
    var res := TakeAllTimeout(l.ring, now);
    var ids := Ids(res.taken);
    l.(ring := res.ring, active := l.active + ids, now := now, draining := true,
       waiters := map x | x in l.waiters :: if x in ids then Taken(l.waiters[x]) else l.waiters[x])
  }

  function Begin(l: Loop, events: seq<IoEvent>, now: nat): Loop
    requires Shaped(PrepareAll(l.(draining := true), events).ring)
  {
    Expire(PrepareAll(l.(draining := true), events), now)
  }

  /** The coroutine gets control back and its wait call returns: the item leaves every list, its epoll
      registrations are deleted, and it is freed. */
  function Return(l: Loop, x: nat): Loop
    requires x in l.waiters
  {
    var l1 := Unlink(l, x);
    var w := l.waiters[x];
    l1.(waiters := l1.waiters - {x},
        epoll := if w.kind.Poll? then l1.epoll - w.kind.fds else l1.epoll,
        conds := if w.kind.Cond? then l1.conds[w.kind.q := RemoveId(Queue(l1, w.kind.q), x)] else l1.conds,
        wakes := l1.wakes + [Wake(x, l.now, w, w.kind.Cond? && x in Queue(l1, w.kind.q))])
  }

  /** The item is linked in the list of the given ring offset. */
  function PutOn(l: Loop, x: nat, w: Waiter, ring: Ring): Loop
    requires Shaped(l.ring) && l.ring.start <= w.expire
  {
    var o := Offset(l.ring, w.expire);
    With(l.(ring := ring), x,
      w.(link := InSlot(Index(l.ring, o)), lastStart := l.ring.start, slotTime := l.ring.start + o))
  }

  /** One round of the drain: an item taken before its deadline goes back to the wheel, any other item
      is processed. */
  function Pop(l: Loop): Loop
    requires Shaped(l.ring) && l.active != [] && l.active[0] in l.waiters
  {
    var x := l.active[0];
    var w := l.waiters[x].(link := Nowhere);
    var l1 := With(l.(active := l.active[1..]), x, w);
    if w.timedOut && l.now < w.expire then
      match AddTimeout(l.ring, Item(x, w.expire), l.now)
      case Added(ring) => PutOn(l1, x, w.(timedOut := false, requeues := w.requeues + 1), ring)
      case _ => Return(l1, x)
    else Return(l1, x)
  }

  // ----- what a running coroutine does -----

  const INT_MAX := 0x7fff_ffff

  function PollTimeout(timeout: int): int {
    if timeout < 0 then INT_MAX else timeout
  }

  function Fresh(kind: Kind, hasTimeout: bool, expire: nat, since: nat): Waiter {
    Waiter(kind, Nowhere, hasTimeout, expire, false, 0, map[], false, since, since, 0, 0)
  }

  /** epoll_ctl ADD fails for a descriptor that is registered already. */
  function Register(epoll: map<nat, nat>, fds: set<nat>, x: nat): map<nat, nat> {
    map fd | fd in epoll.Keys + fds :: if fd in epoll then epoll[fd] else x
  }

  /** co_poll_inner with a nonzero timeout, up to its yield. When the wheel refuses the item, the call
      returns -1 at once, after deleting its descriptors from epoll. */
  function StartPoll(l: Loop, x: nat, fds: set<nat>, timeout: int, t: nat): Loop
    requires Shaped(l.ring) && timeout != 0
  {
    var w := Fresh(Poll(fds), true, t + PollTimeout(timeout), l.ring.start);
    match AddTimeout(l.ring, Item(x, w.expire), t)
    case Added(ring) => PutOn(l.(epoll := Register(l.epoll, fds, x)), x, w, ring)
    case _ => l.(epoll := l.epoll - fds)
  }

  /** co_cond_timedwait up to its yield; without a positive timeout the item is not put on the wheel. */
  function StartCond(l: Loop, x: nat, q: nat, ms: int, t: nat): Loop
    requires Shaped(l.ring)
  {
    var l1 := l.(conds := l.conds[q := Queue(l, q) + [x]]);
    if ms <= 0 then With(l1, x, Fresh(Cond(q), false, 0, l.ring.start))
    else
      var w := Fresh(Cond(q), true, t + ms, l.ring.start);
      match AddTimeout(l.ring, Item(x, w.expire), t)
      case Added(ring) => PutOn(l1, x, w, ring)
      case _ => l
  }

  function Signal(l: Loop, q: nat): Loop {
    if Queue(l, q) == [] then l
    else
      var x := Queue(l, q)[0];
      AddActive(Unlink(l.(conds := l.conds[q := Queue(l, q)[1..]]), x), x)
  }

  lemma UnlinkKeepsQueues(l: Loop, x: nat)
    ensures Unlink(l, x).conds == l.conds && AddActive(Unlink(l, x), x).conds == l.conds
  {
  }

  function Broadcast(l: Loop, q: nat): Loop
    decreases |Queue(l, q)|
  {
    if Queue(l, q) == [] then l
    else
      var l1 := l.(conds := l.conds[q := Queue(l, q)[1..]]);
      UnlinkKeepsQueues(l1, Queue(l, q)[0]);
      assert Queue(Signal(l, q), q) == Queue(l, q)[1..];
      Broadcast(Signal(l, q), q)
  }
}
