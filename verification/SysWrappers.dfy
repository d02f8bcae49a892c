/** The hooked write and send, which keep writing until everything is out, and the hooked poll, which
    merges duplicate descriptors before it hands them to the scheduler. */
module SysWrappers {
  import opened Basics
  import opened Frames

  // ----- write and send -----

  /** What the kernel does with the calls it gets: it accepts up to as many bytes as the next element of
      the script says, or fails; after the script it fails. */
  class Kernel {
    var sent: seq<Byte>
    var script: seq<int>

    constructor (script: seq<int>)
      ensures this.script == script && sent == []
    {
      this.script, sent := script, [];
    }

    method Write(data: seq<Byte>) returns (ret: int)
      modifies this
      ensures ret == Reply(old(script), |data|) && script == Rest(old(script))
      ensures sent == old(sent) + First(data, ret)
    {
      ret := Reply(script, |data|);
      script := Rest(script);
      sent := sent + First(data, ret);
    }
  }

  function Reply(script: seq<int>, n: nat): (ret: int)
    ensures ret <= n
  {
    if script == [] then -1 else if script[0] > n then n else script[0]
  }

  /** The bytes that an answer accepts. */
  function First(data: seq<Byte>, ret: int): seq<Byte>
    requires ret <= |data|
  {
    if ret > 0 then data[..ret] else []
  }

  lemma FirstMore(sent: seq<Byte>, data: seq<Byte>, wrote: nat, ret: int)
    requires 0 < ret && wrote + ret <= |data|
    ensures sent + First(data, wrote) + First(data[wrote..], ret) == sent + First(data, wrote + ret)
  {
    assert data[..wrote] + data[wrote..][..ret] == data[..wrote + ret];
  }

  function Rest(script: seq<int>): seq<int> {
    if script == [] then [] else script[1..]
  }

  datatype Written = Written(wrote: nat, last: int, script: seq<int>)

  /** The loop: one call after another, each for what is left, until all is out or one call gets nothing. */
  function WriteLoop(n: nat, wrote: nat, last: int, script: seq<int>): (w: Written)
    requires wrote <= n
    ensures wrote <= w.wrote <= n && (w.wrote < n ==> w.last <= 0)
    decreases n - wrote
  {
    if wrote == n then Written(wrote, last, script)
    else
      var ret := Reply(script, n - wrote);
      if ret <= 0 then Written(wrote, ret, Rest(script)) else WriteLoop(n, wrote + ret, ret, Rest(script))
  }

  /** The call returns how many bytes the kernel took, and these are the first ones of the buffer in
      order. It stops short only at a call that got nothing: the last answer was not positive. It returns
      zero or an error only if nothing was sent. The first call may fail (there is no room yet) without
      ending the attempt, but may not return zero. */
  method Write(kernel: Kernel, buf: seq<Byte>, direct: bool) returns (ret: int)
    modifies kernel
    ensures ret <= |buf| && kernel.sent == old(kernel.sent) + First(buf, ret)
    ensures direct ==> ret == Reply(old(kernel.script), |buf|) && kernel.script == Rest(old(kernel.script))
    ensures !direct ==>
      var first := Reply(old(kernel.script), |buf|);
      if first == 0 then ret == 0 && kernel.script == Rest(old(kernel.script))
      else
        var w := WriteLoop(|buf|, if first > 0 then first else 0, first, Rest(old(kernel.script)));
        ret == (if w.last <= 0 && w.wrote == 0 then w.last else w.wrote) && kernel.script == w.script
  {
    var writeRet := kernel.Write(buf);
    if direct || writeRet == 0 { return writeRet; }
    var wrote := 0;
    if writeRet > 0 {
      wrote := writeRet;
    }
    ghost var w := WriteLoop(|buf|, wrote, writeRet, kernel.script);
    while wrote < |buf|
      invariant 0 <= wrote <= |buf| && kernel.sent == old(kernel.sent) + First(buf, wrote)
      invariant WriteLoop(|buf|, wrote, writeRet, kernel.script) == w
      decreases |buf| - wrote
    {
      writeRet := kernel.Write(buf[wrote..]);
      if writeRet <= 0 { break; }
      FirstMore(old(kernel.sent), buf, wrote, writeRet);
      wrote := wrote + writeRet;
    }
    if writeRet <= 0 && wrote == 0 { return writeRet; }
    return wrote;
  }

  /** Whatever the sizes of the partial writes, if none of them is refused the whole buffer goes out. */
  lemma {:induction false} PartialWritesFinish(n: nat, wrote: nat, last: int, script: seq<int>)
    requires wrote <= n && |script| >= n - wrote && forall i :: 0 <= i < |script| ==> script[i] > 0
    ensures WriteLoop(n, wrote, last, script).wrote == n
    decreases n - wrote
  {
    if wrote < n {
      PartialWritesFinish(n, wrote + Reply(script, n - wrote), Reply(script, n - wrote), Rest(script));
    }
  }

  // ----- poll -----

  datatype PollFd = PollFd(fd: int, events: bv16, revents: bv16)

  function IndexOf(m: seq<PollFd>, fd: int): (r: Option<nat>)
    ensures r.Some? ==> r.value < |m| && m[r.value].fd == fd
    ensures r.None? ==> forall i :: 0 <= i < |m| ==> m[i].fd != fd
  {
    if m == [] then None
    else if m[|m| - 1].fd == fd then Some(|m| - 1)
    else IndexOf(m[..|m| - 1], fd)
  }

  function MergeOne(m: seq<PollFd>, f: PollFd): seq<PollFd> {
    match IndexOf(m, f.fd)
    case None => m + [f]
    case Some(j) => m[j := Merged(m[j], f)]
  }

  function Merge(fds: seq<PollFd>): seq<PollFd> {
    if fds == [] then [] else MergeOne(Merge(fds[..|fds| - 1]), fds[|fds| - 1])
  }

  predicate DistinctFds(m: seq<PollFd>) {
    forall i, j :: 0 <= i < j < |m| ==> m[i].fd != m[j].fd
  }

  predicate Overlap(events: bv16, mask: bv16) {
    events & mask != 0
  }

  predicate SlotAsks(f: PollFd, fd: int, mask: bv16) {
    f.fd == fd && Overlap(f.events, mask)
  }

  ghost predicate Asks(fds: seq<PollFd>, fd: int, mask: bv16) {
    exists f :: f in fds && SlotAsks(f, fd, mask)
  }

  ghost predicate HasFd(fds: seq<PollFd>, fd: int) {
    exists f :: f in fds && f.fd == fd
  }

  lemma AndOverOr(a: bv16, b: bv16, mask: bv16)
    ensures (a | b) & mask == (a & mask) | (b & mask)
  {
  }

  lemma OrIsZero(a: bv16, b: bv16)
    ensures a | b == 0 <==> a == 0 && b == 0
  {
  }

  lemma OrBits(a: bv16, b: bv16, mask: bv16)
    ensures Overlap(a | b, mask) <==> Overlap(a, mask) || Overlap(b, mask)
  {
    AndOverOr(a, b, mask);
    OrIsZero(a & mask, b & mask);
  }

  function Merged(a: PollFd, b: PollFd): PollFd {
    a.(events := a.events | b.events)
  }

  lemma OrAsks(a: PollFd, b: PollFd, fd: int, mask: bv16)
    requires a.fd == b.fd
    ensures SlotAsks(Merged(a, b), fd, mask) <==> SlotAsks(a, fd, mask) || SlotAsks(b, fd, mask)
  {
    OrBits(a.events, b.events, mask);
    assert Merged(a, b).fd == a.fd && Merged(a, b).events == a.events | b.events;
  }

  lemma MergeOneAsks(m: seq<PollFd>, f: PollFd, fd: int, mask: bv16)
    ensures Asks(MergeOne(m, f), fd, mask) <==> Asks(m, fd, mask) || SlotAsks(f, fd, mask)
    ensures HasFd(MergeOne(m, f), fd) <==> HasFd(m, fd) || f.fd == fd
  {
    match IndexOf(m, f.fd) {
      case None => AppendAsks(m, f, fd, mask);
      case Some(j) =>
        OrAsks(m[j], f, fd, mask);
        ReplaceAsks(m, j, Merged(m[j], f), fd, mask);
        ReplaceAsks(m, j, m[j], fd, mask);
        assert m[j := m[j]] == m;
    }
  }

  lemma AppendAsks(m: seq<PollFd>, f: PollFd, fd: int, mask: bv16)
    ensures Asks(m + [f], fd, mask) <==> Asks(m, fd, mask) || SlotAsks(f, fd, mask)
    ensures HasFd(m + [f], fd) <==> HasFd(m, fd) || f.fd == fd
  {
    assert forall g :: g in m + [f] <==> g in m || g == f;
    assert f in m + [f];
  }

  /** A replaced slot asks for itself; the others are those before and after it. */
  lemma ReplaceAsks(m: seq<PollFd>, j: nat, g: PollFd, fd: int, mask: bv16)
    requires j < |m| && g.fd == m[j].fd
    ensures Asks(m[j := g], fd, mask) <==> Asks(m[..j] + m[j + 1..], fd, mask) || SlotAsks(g, fd, mask)
    ensures HasFd(m[j := g], fd) <==> HasFd(m, fd)
  {
    var others := m[..j] + m[j + 1..];
    assert m[j := g] == m[..j] + [g] + m[j + 1..] && m == m[..j] + [m[j]] + m[j + 1..];
    assert forall f :: f in m[j := g] <==> f in others || f == g;
    assert forall f :: f in m <==> f in others || f == m[j];
    assert g in m[j := g] && m[j] in m;
  }

  /** The merged list has every descriptor once, and asks of a descriptor for exactly the events that some
      slot asks for. */
  lemma {:induction false} MergeIsUnion(fds: seq<PollFd>, fd: int, mask: bv16)
    ensures DistinctFds(Merge(fds))
    ensures Asks(Merge(fds), fd, mask) <==> Asks(fds, fd, mask)
    ensures HasFd(Merge(fds), fd) <==> HasFd(fds, fd)
    decreases |fds|
  {
    if fds != [] {
      var r, f := fds[..|fds| - 1], fds[|fds| - 1];
      MergeIsUnion(r, fd, mask);
      assert fds == r + [f];
      AppendAsks(r, f, fd, mask);
      MergeOneAsks(Merge(r), f, fd, mask);
    }
  }

  lemma DistinctAppend(r: seq<PollFd>, f: PollFd)
    ensures DistinctFds(r + [f]) <==> DistinctFds(r) && IndexOf(r, f.fd).None?
  {
    var s := r + [f];
    assert forall i :: 0 <= i < |r| ==> s[i] == r[i];
    if IndexOf(r, f.fd).Some? {
      assert s[IndexOf(r, f.fd).value].fd == s[|r|].fd;
    }
  }

  lemma {:induction false} MergeOfDistinct(fds: seq<PollFd>)
    requires DistinctFds(fds)
    ensures Merge(fds) == fds
    decreases |fds|
  {
    if fds != [] {
      var r, f := fds[..|fds| - 1], fds[|fds| - 1];
      assert fds == r + [f];
      DistinctAppend(r, f);
      MergeOfDistinct(r);
    }
  }

  lemma {:induction false} MergeShortens(fds: seq<PollFd>)
    ensures |Merge(fds)| <= |fds| && DistinctFds(Merge(fds))
    decreases |fds|
  {
    if fds != [] {
      var r, f := fds[..|fds| - 1], fds[|fds| - 1];
      MergeShortens(r);
      if IndexOf(Merge(r), f.fd).None? { DistinctAppend(Merge(r), f); }
    }
  }

  /** Merging changes the number of descriptors exactly if there are duplicates; without any it changes
      nothing. */
  lemma {:induction false} MergeIff(fds: seq<PollFd>)
    ensures |Merge(fds)| == |fds| <==> DistinctFds(fds)
    ensures DistinctFds(fds) ==> Merge(fds) == fds
    decreases |fds|
  {
    if DistinctFds(fds) {
      MergeOfDistinct(fds);
    } else {
      var r, f := fds[..|fds| - 1], fds[|fds| - 1];
      assert fds == r + [f];
      MergeShortens(r);
      MergeIff(r);
      DistinctAppend(r, f);
    }
  }

  /** What co_poll_inner returns and writes into the revents of the descriptors it was given. */
  datatype Answer = Answer(ret: int, revents: seq<bv16>)

  /** revents of slot i after the call. */
  function Revents(fds: seq<PollFd>, a: Answer, i: nat): bv16
    requires i < |fds| && |a.revents| == |Merge(fds)|
  {
    if |Merge(fds)| == |fds| then a.revents[i]
    else
      match IndexOf(Merge(fds), fds[i].fd)
      case Some(j) => if a.ret > 0 then a.revents[j] & fds[i].events else fds[i].revents
      case None => fds[i].revents
  }

  // ----- what a slot is told -----

  const POLLIN: bv16 := 0x001
  const POLLOUT: bv16 := 0x004
  const POLLERR: bv16 := 0x008
  const POLLHUP: bv16 := 0x010

  /** The events that can be asked of epoll (POLLRDNORM and POLLWRNORM are the others), and those it
      reports unasked. */
  const KNOWN: bv16 := 0x15d
  const UNASKED: bv16 := 0x018

  /** What a slot is told when its descriptor is registered for it alone and is in state `ready`. */
  function Report(ready: bv16, f: PollFd): bv16 {
    if f.fd < 0 then 0 else ready & ((f.events & KNOWN) | UNASKED)
  }

  /** The scheduler's answer for a list of descriptors: their states, or nothing if the call times out or
      fails. */
  ghost predicate Answers(ready: int -> bv16, fds: seq<PollFd>, a: Answer) {
    && |a.revents| == |fds| && (forall i :: 0 <= i < |fds| ==> a.revents[i] == Report(ready(fds[i].fd), fds[i]))
    && (a.ret <= 0 ==> forall i :: 0 <= i < |fds| ==> a.revents[i] == 0)
  }

  ghost predicate Covers(whole: bv16, part: bv16) {
    whole & part == part
  }

  lemma OrCovers(a: bv16, b: bv16)
    ensures Covers(a | b, a) && Covers(a | b, b)
  {
  }

  lemma CoversMore(a: bv16, b: bv16, part: bv16)
    requires Covers(a, part)
    ensures Covers(a | b, part)
  {
  }

  /** The position of a slot's descriptor in the merged list, which asks for all that the slot asks for. */
  lemma {:induction false} MergeCovers(fds: seq<PollFd>, i: nat)
    requires i < |fds|
    ensures IndexOf(Merge(fds), fds[i].fd).Some?
    ensures Covers(Merge(fds)[IndexOf(Merge(fds), fds[i].fd).value].events, fds[i].events)
    decreases |fds|
  {
    var r, f := fds[..|fds| - 1], fds[|fds| - 1];
    if i < |r| {
      assert r[i] == fds[i];
      MergeCovers(r, i);
      CoversStill(Merge(r), f, fds[i]);
    } else {
      CoversNew(Merge(r), f);
    }
  }

  /** m has a slot for f's descriptor that asks for all that f asks for. */
  ghost predicate AsksFor(m: seq<PollFd>, f: PollFd) {
    IndexOf(m, f.fd).Some? && Covers(m[IndexOf(m, f.fd).value].events, f.events)
  }

  lemma CoversStill(m: seq<PollFd>, f: PollFd, g: PollFd)
    requires AsksFor(m, g)
    ensures AsksFor(MergeOne(m, f), g)
  {
    MergeOneIndex(m, f);
    CoversMore(m[IndexOf(m, g.fd).value].events, f.events, g.events);
  }

  lemma CoversNew(m: seq<PollFd>, f: PollFd)
    ensures AsksFor(MergeOne(m, f), f)
  {
    MergeOneIndex(m, f);
    match IndexOf(m, f.fd)
    case Some(j) => OrCovers(m[j].events, f.events);
    case None => CoversItself(f.events);
  }

  lemma CoversItself(a: bv16)
    ensures Covers(a, a)
  {
  }

  /** The mask of the merged call hides what was reported unasked, and nothing else. */
  lemma MaskBits(ready: bv16, all: bv16, events: bv16)
    requires Covers(all, events)
    ensures var alone := ready & ((events & KNOWN) | UNASKED);
      ready & ((all & KNOWN) | UNASKED) & events == alone <==> alone & !events == 0
  {
  }

  lemma NothingAlone(ready: bv16, all: bv16, events: bv16)
    requires Covers(all, events) && ready & ((all & KNOWN) | UNASKED) == 0
    ensures ready & ((events & KNOWN) | UNASKED) == 0
  {
  }

  /** Transparency: a slot is told what it would be told if its descriptor were polled for it alone, if
      and only if there are no duplicates, or something is reported and its own report lies within its
      events, or nothing is reported and its revents were zero before the call. */
  lemma TransparentIff(fds: seq<PollFd>, ready: int -> bv16, a: Answer, i: nat)
    requires i < |fds| && Answers(ready, Merge(fds), a)
    ensures Revents(fds, a, i) == Report(ready(fds[i].fd), fds[i]) <==>
      || DistinctFds(fds)
      || (a.ret > 0 && Report(ready(fds[i].fd), fds[i]) & !fds[i].events == 0)
      || (a.ret <= 0 && fds[i].revents == 0)
  {
    var f, alone := fds[i], Report(ready(fds[i].fd), fds[i]);
    MergeIff(fds);
    if !DistinctFds(fds) {
      MergeCovers(fds, i);
      var j := IndexOf(Merge(fds), f.fd).value;
      if f.fd >= 0 {
        MaskBits(ready(f.fd), Merge(fds)[j].events, f.events);
        if a.ret <= 0 { NothingAlone(ready(f.fd), Merge(fds)[j].events, f.events); }
      }
    }
  }

  /** Whatever states the descriptors are in and whatever the scheduler answers, slot i is told what it
      would be told on its own. */
  ghost predicate Transparent(fds: seq<PollFd>, i: nat)
    requires i < |fds|
  {
    forall ready, a :: Answers(ready, Merge(fds), a) ==> Revents(fds, a, i) == Report(ready(fds[i].fd), fds[i])
  }

  /** What a caller can check before the call: there are no duplicates, or the slot comes with its revents
      cleared and asks for all that epoll reports unasked. */
  predicate Prepared(fds: seq<PollFd>, i: nat)
    requires i < |fds|
  {
    DistinctFds(fds) || (fds[i].revents == 0 && (fds[i].fd < 0 || UNASKED & !fds[i].events == 0))
  }

  lemma ReportWithin(ready: bv16, events: bv16)
    requires UNASKED & !events == 0
    ensures ready & ((events & KNOWN) | UNASKED) & !events == 0
  {
  }

  lemma HangupReported(events: bv16)
    requires UNASKED & !events != 0
    ensures UNASKED & ((events & KNOWN) | UNASKED) & !events != 0
  {
  }

  /** The scheduler's answer when the states are `ready`. */
  ghost function AnswerFor(ready: int -> bv16, fds: seq<PollFd>, ret: int): (a: Answer)
    requires ret > 0
    ensures Answers(ready, fds, a) && a.ret == ret
  {
    Answer(ret, seq(|fds|, i requires 0 <= i < |fds| => Report(ready(fds[i].fd), fds[i])))
  }

  /** Transparency for all states and answers, by a condition on the caller's list. */
  lemma TransparentForAll(fds: seq<PollFd>, i: nat)
    requires i < |fds|
    ensures Transparent(fds, i) <==> Prepared(fds, i)
  {
    if Prepared(fds, i) {
      forall ready, a | Answers(ready, Merge(fds), a)
        ensures Revents(fds, a, i) == Report(ready(fds[i].fd), fds[i])
      {
        TransparentIff(fds, ready, a, i);
        if fds[i].fd >= 0 && UNASKED & !fds[i].events == 0 { ReportWithin(ready(fds[i].fd), fds[i].events); }
      }
    } else if fds[i].revents != 0 {
      var ready: int -> bv16 := _ => 0;
      var a := Answer(0, seq(|Merge(fds)|, _ => 0));
      assert Answers(ready, Merge(fds), a);
      TransparentIff(fds, ready, a, i);
    } else {
      var ready: int -> bv16 := fd => if fd == fds[i].fd then UNASKED else 0;
      var a := AnswerFor(ready, Merge(fds), 1);
      HangupReported(fds[i].events);
      TransparentIff(fds, ready, a, i);
    }
  }

  function WithRevents(fds: seq<PollFd>, i: nat, v: bv16): seq<PollFd>
    requires i < |fds|
  {
    fds[i := fds[i].(revents := v)]
  }

  ghost predicate Alike(a: seq<PollFd>, b: seq<PollFd>) {
    |a| == |b| && forall i :: 0 <= i < |a| ==> a[i].fd == b[i].fd
  }

  lemma {:induction false} MergeAlike(a: seq<PollFd>, b: seq<PollFd>)
    requires Alike(a, b)
    ensures Alike(Merge(a), Merge(b))
    decreases |a|
  {
    if a != [] {
      MergeAlike(a[..|a| - 1], b[..|b| - 1]);
      MergeOneAlike(Merge(a[..|a| - 1]), Merge(b[..|b| - 1]), a[|a| - 1], b[|b| - 1]);
    }
  }

  lemma MergeOneAlike(a: seq<PollFd>, b: seq<PollFd>, f: PollFd, g: PollFd)
    requires Alike(a, b) && f.fd == g.fd
    ensures Alike(MergeOne(a, f), MergeOne(b, g))
  {
    SameFds(a, b, f.fd);
  }

  /** Slot i comes out of the call with whatever revents it had before. */
  ghost predicate Stale(fds: seq<PollFd>, a: Answer, i: nat)
    requires i < |fds|
  {
    forall v :: |Merge(WithRevents(fds, i, v))| == |a.revents| && Revents(WithRevents(fds, i, v), a, i) == v
  }

  /** Revents of slot i if it holds v before the call. */
  ghost function ToldOver(fds: seq<PollFd>, a: Answer, i: nat, v: bv16): bv16
    requires i < |fds| && |a.revents| == |Merge(fds)| && IndexOf(Merge(fds), fds[i].fd).Some?
  {
    if DistinctFds(fds) then (MergeIff(fds); a.revents[i])
    else if a.ret > 0 then a.revents[IndexOf(Merge(fds), fds[i].fd).value] & fds[i].events
    else v
  }

  lemma ReventsOver(fds: seq<PollFd>, a: Answer, i: nat, v: bv16)
    requires i < |fds| && |a.revents| == |Merge(fds)|
    ensures IndexOf(Merge(fds), fds[i].fd).Some? && |Merge(WithRevents(fds, i, v))| == |a.revents|
    ensures Revents(WithRevents(fds, i, v), a, i) == ToldOver(fds, a, i, v)
  {
    MergeAlike(WithRevents(fds, i, v), fds);
    SameFds(Merge(WithRevents(fds, i, v)), Merge(fds), fds[i].fd);
    MergeIff(fds);
    MergeCovers(fds, i);
  }

  lemma NotSelf(v: bv16)
    ensures !v != v
  {
  }

  /** This happens exactly with duplicates, when the scheduler has nothing to report or fails. */
  lemma StaleIff(fds: seq<PollFd>, a: Answer, i: nat)
    requires i < |fds| && |a.revents| == |Merge(fds)|
    ensures Stale(fds, a, i) <==> !DistinctFds(fds) && a.ret <= 0
  {
    if !DistinctFds(fds) && a.ret <= 0 {
      forall v ensures |Merge(WithRevents(fds, i, v))| == |a.revents| && Revents(WithRevents(fds, i, v), a, i) == v {
        ReventsOver(fds, a, i, v);
      }
    } else {
      ReventsOver(fds, a, i, 0);
      var told := ToldOver(fds, a, i, 0);
      ReventsOver(fds, a, i, !told);
      NotSelf(told);
      assert Revents(WithRevents(fds, i, !told), a, i) == told;
    }
  }

  /** The two failures, at an input. Two slots for one descriptor that hangs up: poll returns 1, and neither
      slot is told, while a single slot is. */
  lemma HangupHidden(ready: int -> bv16)
    requires ready(3) == POLLHUP
    ensures var fds, a := [PollFd(3, POLLIN, 0), PollFd(3, POLLOUT, 0)], Answer(1, [POLLHUP]);
      Answers(ready, Merge(fds), a) && Revents(fds, a, 0) == 0 && Revents(fds, a, 1) == 0
    ensures var fds, a := [PollFd(3, POLLIN, 0)], Answer(1, [POLLHUP]);
      Answers(ready, Merge(fds), a) && Revents(fds, a, 0) == POLLHUP
  {
    MergeTwo(PollFd(3, POLLIN, 0), PollFd(3, POLLOUT, 0));
    MergeOneOnly(PollFd(3, POLLIN, 0));
  }

  /** And if nothing happens before the timeout, an event of an earlier call is told again. */
  lemma OldEventTold(ready: int -> bv16)
    ensures var fds, a := [PollFd(3, POLLIN, POLLIN), PollFd(3, POLLOUT, 0)], Answer(0, [0]);
      |Merge(fds)| == 1 && Revents(fds, a, 0) == POLLIN
  {
    MergeTwo(PollFd(3, POLLIN, POLLIN), PollFd(3, POLLOUT, 0));
  }

  lemma MergeOneOnly(f: PollFd)
    ensures Merge([f]) == [f]
  {
    assert [f][..0] == [];
  }

  lemma MergeTwo(f: PollFd, g: PollFd)
    requires f.fd == g.fd
    ensures Merge([f, g]) == [Merged(f, g)] && IndexOf([Merged(f, g)], f.fd) == Some(0)
  {
    assert [f, g] == [f] + [g];
    MergeAppend([f], g);
    MergeOneOnly(f);
    IndexOfOne(f);
    IndexOfOne(Merged(f, g));
    assert [f][0 := Merged(f, g)] == [Merged(f, g)];
  }

  lemma MergeAppend(r: seq<PollFd>, f: PollFd)
    ensures Merge(r + [f]) == MergeOne(Merge(r), f)
  {
    assert (r + [f])[..|r|] == r;
  }

  lemma IndexOfOne(f: PollFd)
    ensures IndexOf([f], f.fd) == Some(0)
  {
  }

  method MergeFds(fds: seq<PollFd>) returns (merge: seq<PollFd>, m: map<int, nat>)
    ensures merge == Merge(fds)
    ensures forall fd :: IndexOf(merge, fd) == if fd in m then Some(m[fd]) else None
  {
    merge, m := [], map[];
    for i := 0 to |fds|
      invariant merge == Merge(fds[..i])
      invariant forall fd :: IndexOf(merge, fd) == if fd in m then Some(m[fd]) else None
    {
      assert fds[..i + 1][..i] == fds[..i];
      assert IndexOf(merge, fds[i].fd) == if fds[i].fd in m then Some(m[fds[i].fd]) else None;
      ghost var before := merge;
      if fds[i].fd !in m {
        merge := merge + [fds[i]];
        m := m[fds[i].fd := |merge| - 1];
      } else {
        var j := m[fds[i].fd];
        merge := merge[j := Merged(merge[j], fds[i])];
      }
      MergeOneIndex(before, fds[i]);
    }
    assert fds[..|fds|] == fds;
  }

  lemma MergeOneIndex(m: seq<PollFd>, f: PollFd)
    ensures forall fd ::
      IndexOf(MergeOne(m, f), fd) == if fd == f.fd && IndexOf(m, fd).None? then Some(|m|) else IndexOf(m, fd)
  {
    match IndexOf(m, f.fd) {
      case None => assert (m + [f])[..|m|] == m;
      case Some(j) => forall fd ensures IndexOf(MergeOne(m, f), fd) == IndexOf(m, fd) {
        SameFds(MergeOne(m, f), m, fd);
      }
    }
  }

  lemma {:induction false} SameFds(a: seq<PollFd>, b: seq<PollFd>, fd: int)
    requires |a| == |b| && forall i :: 0 <= i < |a| ==> a[i].fd == b[i].fd
    ensures IndexOf(a, fd) == IndexOf(b, fd)
  {
    if a != [] { SameFds(a[..|a| - 1], b[..|b| - 1], fd); }
  }

  ghost predicate Answered(was: seq<PollFd>, a: Answer, now: seq<PollFd>) {
    && |a.revents| == |Merge(was)| && |now| == |was|
    && forall i :: 0 <= i < |was| ==> now[i] == was[i].(revents := Revents(was, a, i))
  }

  /** The hooked poll. Outside hooked coroutines, and with a zero timeout, the system's poll is called. */
  method Poll(fds: array<PollFd>, timeout: int, hooked: bool,
              inner: seq<PollFd> -> Answer, system: seq<PollFd> -> Answer)
      returns (ret: int)
    requires forall s :: |inner(s).revents| == |s|
    requires forall s :: |system(s).revents| == |s|
    modifies fds
    ensures hooked && timeout != 0 ==>
      ret == inner(Merge(old(fds[..]))).ret && Answered(old(fds[..]), inner(Merge(old(fds[..]))), fds[..])
    ensures !hooked || timeout == 0 ==> ret == system(old(fds[..])).ret
    ensures !hooked || timeout == 0 ==>
      forall k :: 0 <= k < fds.Length ==> fds[k] == old(fds[k]).(revents := system(old(fds[..])).revents[k])
  {
    if !hooked || timeout == 0 {
      var a := system(fds[..]);
      CopyRevents(fds, a);
      return a.ret;
    }
    ret := PollHooked(fds, inner);
  }

  method PollHooked(fds: array<PollFd>, inner: seq<PollFd> -> Answer) returns (ret: int)
    requires forall s :: |inner(s).revents| == |s|
    modifies fds
    ensures ret == inner(Merge(old(fds[..]))).ret
    ensures Answered(old(fds[..]), inner(Merge(old(fds[..]))), fds[..])
  {
    MergeIff(fds[..]);
    var merge, m := MergeFds(fds[..]);
    if |merge| == fds.Length || fds.Length == 1 {
      assert fds.Length == 1 ==> DistinctFds(fds[..]);
      var a := inner(fds[..]);
      CopyRevents(fds, a);
      return a.ret;
    }
    var a := inner(merge);
    if a.ret > 0 {
      Distribute(fds, m, a);
    }
    ret := a.ret;
  }

  method CopyRevents(fds: array<PollFd>, a: Answer)
    requires |a.revents| == fds.Length
    modifies fds
    ensures forall k :: 0 <= k < fds.Length ==> fds[k] == old(fds[k]).(revents := a.revents[k])
  {
    for i := 0 to fds.Length
      invariant forall k :: 0 <= k < fds.Length ==>
        fds[k] == if k < i then old(fds[k]).(revents := a.revents[k]) else old(fds[k])
    {
      fds[i] := fds[i].(revents := a.revents[i]);
    }
  }

  /** The slots with the revents that they come out with. */
  ghost function Told(was: seq<PollFd>, a: Answer): (now: seq<PollFd>)
    requires |a.revents| == |Merge(was)|
    ensures Answered(was, a, now)
  {
    seq(|was|, i requires 0 <= i < |was| => was[i].(revents := Revents(was, a, i)))
  }

  /** The positions of the descriptors in the merged list. */
  ghost predicate Positions(was: seq<PollFd>, m: map<int, nat>) {
    forall fd :: IndexOf(Merge(was), fd) == if fd in m then Some(m[fd]) else None
  }

  method DistributeOne(fds: array<PollFd>, m: map<int, nat>, a: Answer, i: nat, ghost was: seq<PollFd>)
    requires |a.revents| == |Merge(was)| != |was| && a.ret > 0 && Positions(was, m)
    requires |was| == fds.Length && i < fds.Length && fds[i] == was[i]
    modifies fds
    ensures fds[i] == Told(was, a)[i] && forall k :: 0 <= k < fds.Length && k != i ==> fds[k] == old(fds[k])
  {
    assert IndexOf(Merge(was), was[i].fd) == if was[i].fd in m then Some(m[was[i].fd]) else None;
    if fds[i].fd in m {
      fds[i] := fds[i].(revents := a.revents[m[fds[i].fd]] & fds[i].events);
    }
  }

  method Distribute(fds: array<PollFd>, m: map<int, nat>, a: Answer)
    requires |a.revents| == |Merge(fds[..])| != fds.Length && a.ret > 0 && Positions(fds[..], m)
    modifies fds
    ensures Answered(old(fds[..]), a, fds[..])
  {
    ghost var was := fds[..];
    for i := 0 to fds.Length
      invariant fds[..i] == Told(was, a)[..i] && fds[i..] == was[i..]
    {
      assert fds[i..][0] == was[i..][0];
      ghost var rest, done := fds[i + 1..], fds[..i];
      DistributeOne(fds, m, a, i, was);
      assert fds[i + 1..] == rest == was[i..][1..] && fds[..i] == done;
    }
    assert fds[..] == Told(was, a);
  }
}
