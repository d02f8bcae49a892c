/** What the hooked poll returns: the number of descriptors with events, which is not always the number of
    slots that are told some. */
module PollCount {
  import opened Basics
  import opened SysWrappers

  function Nonzero(s: seq<bv16>): nat {
    if s == [] then 0 else Nonzero(s[..|s| - 1]) + if s[|s| - 1] != 0 then 1 else 0
  }

  /** An answer of the scheduler that counts the descriptors with events. */
  ghost predicate Counted(ready: int -> bv16, fds: seq<PollFd>, a: Answer) {
    Answers(ready, fds, a) && a.ret == Nonzero(a.revents)
  }

  ghost function SlotRevents(fds: seq<PollFd>, a: Answer): seq<bv16>
    requires |a.revents| == |Merge(fds)|
  {
    seq(|fds|, i requires 0 <= i < |fds| => Revents(fds, a, i))
  }

  /** poll returns the number of slots with events, whatever happens. */
  ghost predicate CountsSlots(fds: seq<PollFd>) {
    forall ready, a :: Counted(ready, Merge(fds), a) ==> a.ret == Nonzero(SlotRevents(fds, a))
  }

  /** Slot i alone speaks for descriptor fd: it asks for all that is reported unasked, and the other slots
      of that descriptor ask for nothing that can be reported. */
  predicate Speaks(fds: seq<PollFd>, fd: int, i: nat) {
    && i < |fds| && fds[i].fd == fd && UNASKED & !fds[i].events == 0
    && forall k :: 0 <= k < |fds| && k != i && fds[k].fd == fd ==> fds[k].events & KNOWN == 0
  }

  ghost predicate OneSpeaker(fds: seq<PollFd>) {
    && (forall f :: f in fds ==> f.revents == 0)
    && (forall f :: f in fds && f.fd >= 0 ==> exists i :: Speaks(fds, f.fd, i))
  }

  // ----- counting -----

  lemma {:induction false} NoneNonzero(s: seq<bv16>)
    requires forall i :: 0 <= i < |s| ==> s[i] == 0
    ensures Nonzero(s) == 0
  {
    if s != [] {
      NoneNonzero(s[..|s| - 1]);
    }
  }

  lemma {:induction false} OneLess(s: seq<bv16>, i: nat)
    requires i < |s| && s[i] != 0
    ensures Nonzero(s) == Nonzero(s[i := 0]) + 1
  {
    var n := |s| - 1;
    if i < n {
      OneLess(s[..n], i);
      assert s[i := 0][..n] == s[..n][i := 0];
    } else {
      assert s[i := 0][..n] == s[..n];
    }
  }

  lemma OnlyOne(s: seq<bv16>, i: nat)
    requires i < |s| && s[i] != 0 && forall k :: 0 <= k < |s| && k != i ==> s[k] == 0
    ensures Nonzero(s) == 1
  {
    OneLess(s, i);
    NoneNonzero(s[i := 0]);
  }

  lemma AtMostOne(s: seq<bv16>, i: nat, k: nat)
    requires Nonzero(s) == 1 && i < |s| && k < |s| && s[i] != 0 && s[k] != 0
    ensures i == k
  {
    if i != k {
      OneLess(s, i);
      OneLess(s[i := 0], k);
    }
  }

  lemma SomeNonzero(s: seq<bv16>) returns (i: nat)
    requires Nonzero(s) > 0
    ensures i < |s| && s[i] != 0
  {
    if s[|s| - 1] != 0 { i := |s| - 1; } else { i := SomeNonzero(s[..|s| - 1]); }
  }

  /** The nonzero entries of t are paired off with those of s. */
  ghost predicate Paired(s: seq<bv16>, t: seq<bv16>, pos: seq<nat>) {
    && |pos| == |t|
    && (forall j :: 0 <= j < |t| && t[j] != 0 ==> pos[j] < |s| && s[pos[j]] != 0)
    && (forall j, k :: 0 <= j < k < |t| && t[j] != 0 && t[k] != 0 ==> pos[j] != pos[k])
    && (forall i :: 0 <= i < |s| && s[i] != 0 ==> exists j :: 0 <= j < |t| && t[j] != 0 && pos[j] == i)
  }

  lemma PairedSkip(s: seq<bv16>, t: seq<bv16>, pos: seq<nat>, n: nat)
    requires Paired(s, t, pos) && |t| == n + 1 && t[n] == 0
    ensures Paired(s, t[..n], pos[..n])
  {
    forall i | 0 <= i < |s| && s[i] != 0
      ensures exists j :: 0 <= j < n && t[..n][j] != 0 && pos[..n][j] == i
    {
      var j :| 0 <= j < |t| && t[j] != 0 && pos[j] == i;
      assert t[..n][j] == t[j] && pos[..n][j] == i;
    }
  }

  lemma PairedDrop(s: seq<bv16>, t: seq<bv16>, pos: seq<nat>, n: nat)
    requires Paired(s, t, pos) && |t| == n + 1 && t[n] != 0
    ensures Paired(s[pos[n] := 0], t[..n], pos[..n])
  {
    var s' := s[pos[n] := 0];
    forall i | 0 <= i < |s'| && s'[i] != 0
      ensures exists j :: 0 <= j < n && t[..n][j] != 0 && pos[..n][j] == i
    {
      var j :| 0 <= j < |t| && t[j] != 0 && pos[j] == i;
      assert t[..n][j] == t[j] && pos[..n][j] == i;
    }
  }

  lemma {:induction false} PairedCount(s: seq<bv16>, t: seq<bv16>, pos: seq<nat>)
    requires Paired(s, t, pos)
    ensures Nonzero(s) == Nonzero(t)
    decreases |t|
  {
    if t == [] {
      NoneNonzero(s);
    } else {
      var n := |t| - 1;
      if t[n] == 0 {
        PairedSkip(s, t, pos, n);
        PairedCount(s, t[..n], pos[..n]);
      } else {
        OneLess(s, pos[n]);
        PairedDrop(s, t, pos, n);
        PairedCount(s[pos[n] := 0], t[..n], pos[..n]);
      }
    }
  }

  // ----- a speaker for every descriptor -----

  lemma ReportKnown(ready: bv16, f: PollFd)
    ensures Report(ready, f) & !KNOWN == 0
  {
  }

  lemma KnownOnly(rev: bv16, events: bv16)
    requires rev & !KNOWN == 0 && events & KNOWN == 0
    ensures rev & events == 0
  {
  }

  lemma SpeakerTold(ready: bv16, all: bv16, events: bv16)
    requires UNASKED & !events == 0
    ensures var rev := ready & ((all & KNOWN) | UNASKED);
      rev != 0 && rev & events == 0 ==> all & rev != 0
  {
  }

  /** A reported event reaches the speaker and nobody else. */
  lemma SpeakerHears(fds: seq<PollFd>, j: nat, i: nat, ready: bv16)
    requires j < |Merge(fds)| && Merge(fds)[j].fd >= 0 && Speaks(fds, Merge(fds)[j].fd, i)
    ensures var rev := Report(ready, Merge(fds)[j]);
      rev != 0 ==>
        forall k :: 0 <= k < |fds| && fds[k].fd == Merge(fds)[j].fd ==> (rev & fds[k].events != 0 <==> k == i)
  {
    var f := Merge(fds)[j];
    var rev := Report(ready, f);
    ReportKnown(ready, f);
    if rev != 0 {
      forall k | 0 <= k < |fds| && fds[k].fd == f.fd && k != i ensures rev & fds[k].events == 0 {
        KnownOnly(rev, fds[k].events);
      }
      if rev & fds[i].events == 0 {
        SpeakerTold(ready, f.events, fds[i].events);
        assert SlotAsks(f, f.fd, rev) && f in Merge(fds);
        MergeIsUnion(fds, f.fd, rev);
        var g :| g in fds && SlotAsks(g, f.fd, rev);
        var k :| 0 <= k < |fds| && fds[k] == g;
        AndSwaps(g.events, rev);
        assert k == i;
      }
    }
  }

  lemma AndSwaps(a: bv16, b: bv16)
    ensures a & b == b & a
  {
  }

  /** The position of a slot's descriptor in the merged list. */
  lemma Position(fds: seq<PollFd>, i: nat) returns (j: nat)
    requires i < |fds|
    ensures IndexOf(Merge(fds), fds[i].fd) == Some(j) && j < |Merge(fds)| && Merge(fds)[j].fd == fds[i].fd
    ensures Covers(Merge(fds)[j].events, fds[i].events)
    ensures forall k :: 0 <= k < |Merge(fds)| && Merge(fds)[k].fd == fds[i].fd ==> k == j
  {
    MergeCovers(fds, i);
    MergeShortens(fds);
    j := IndexOf(Merge(fds), fds[i].fd).value;
  }

  /** What slot i is told when something is reported. */
  lemma SlotTold(fds: seq<PollFd>, a: Answer, i: nat, j: nat)
    requires !DistinctFds(fds) && |a.revents| == |Merge(fds)| && a.ret > 0 && i < |fds|
    requires IndexOf(Merge(fds), fds[i].fd) == Some(j)
    ensures j < |a.revents| && SlotRevents(fds, a)[i] == a.revents[j] & fds[i].events
  {
    MergeIff(fds);
  }

  lemma SlotQuiet(fds: seq<PollFd>, a: Answer, i: nat)
    requires !DistinctFds(fds) && |a.revents| == |Merge(fds)| && a.ret <= 0 && i < |fds|
    ensures SlotRevents(fds, a)[i] == fds[i].revents
  {
    MergeIff(fds);
  }

  ghost function Speaker(fds: seq<PollFd>, fd: int): (i: nat)
    requires exists i :: Speaks(fds, fd, i)
    ensures Speaks(fds, fd, i)
  {
    var i: nat :| Speaks(fds, fd, i);
    i
  }

  lemma HasSpeaker(fds: seq<PollFd>, j: nat)
    requires OneSpeaker(fds) && j < |Merge(fds)| && Merge(fds)[j].fd >= 0
    ensures exists i :: Speaks(fds, Merge(fds)[j].fd, i)
  {
    var fd := Merge(fds)[j].fd;
    assert HasFd(Merge(fds), fd);
    MergeIsUnion(fds, fd, 0);
  }

  ghost function Speakers(fds: seq<PollFd>): (pos: seq<nat>)
    requires OneSpeaker(fds)
    ensures |pos| == |Merge(fds)|
    ensures forall j :: 0 <= j < |pos| && Merge(fds)[j].fd >= 0 ==> Speaks(fds, Merge(fds)[j].fd, pos[j])
  {
    seq(|Merge(fds)|, j requires 0 <= j < |Merge(fds)| =>
      if Merge(fds)[j].fd < 0 then 0 else (HasSpeaker(fds, j); Speaker(fds, Merge(fds)[j].fd)))
  }

  /** A reported descriptor tells exactly its speaker. */
  lemma TellsSpeaker(fds: seq<PollFd>, ready: int -> bv16, a: Answer, i: nat) returns (j: nat)
    requires !DistinctFds(fds) && OneSpeaker(fds) && Counted(ready, Merge(fds), a) && a.ret > 0 && i < |fds|
    ensures j < |Merge(fds)| && Merge(fds)[j].fd == fds[i].fd
    ensures SlotRevents(fds, a)[i] != 0 <==> a.revents[j] != 0 && i == Speakers(fds)[j]
  {
    j := Position(fds, i);
    SlotTold(fds, a, i, j);
    if Merge(fds)[j].fd >= 0 {
      SpeakerHears(fds, j, Speakers(fds)[j], ready(Merge(fds)[j].fd));
    }
    if a.revents[j] == 0 { assert a.revents[j] & fds[i].events == 0; }
  }

  lemma SpeakersPaired(fds: seq<PollFd>, ready: int -> bv16, a: Answer)
    requires !DistinctFds(fds) && OneSpeaker(fds) && Counted(ready, Merge(fds), a) && a.ret > 0
    ensures Paired(SlotRevents(fds, a), a.revents, Speakers(fds))
  {
    var s, pos := SlotRevents(fds, a), Speakers(fds);
    MergeShortens(fds);
    forall j | 0 <= j < |a.revents| && a.revents[j] != 0 ensures pos[j] < |s| && s[pos[j]] != 0 {
      var k := TellsSpeaker(fds, ready, a, pos[j]);
      assert k == j;
    }
    forall i | 0 <= i < |s| && s[i] != 0
      ensures exists j :: 0 <= j < |a.revents| && a.revents[j] != 0 && pos[j] == i
    {
      var j := TellsSpeaker(fds, ready, a, i);
      assert pos[j] == i;
    }
  }

  lemma SpeakersCount(fds: seq<PollFd>, ready: int -> bv16, a: Answer)
    requires !DistinctFds(fds) && OneSpeaker(fds) && Counted(ready, Merge(fds), a)
    ensures a.ret == Nonzero(SlotRevents(fds, a))
  {
    if a.ret > 0 {
      SpeakersPaired(fds, ready, a);
      PairedCount(SlotRevents(fds, a), a.revents, Speakers(fds));
    } else {
      forall i | 0 <= i < |fds| ensures SlotRevents(fds, a)[i] == 0 {
        SlotQuiet(fds, a, i);
        assert fds[i] in fds;
      }
      NoneNonzero(SlotRevents(fds, a));
    }
  }

  lemma DistinctCount(fds: seq<PollFd>, a: Answer)
    requires DistinctFds(fds) && |a.revents| == |Merge(fds)|
    ensures SlotRevents(fds, a) == a.revents
  {
    MergeIff(fds);
  }

  // ----- and only then -----

  /** An answer with events for the j-th merged descriptor alone. */
  ghost predicate OnlyAt(fds: seq<PollFd>, a: Answer, j: nat, r: bv16) {
    && |a.revents| == |Merge(fds)| && a.ret == 1 && j < |Merge(fds)| && Merge(fds)[j].fd >= 0
    && a.revents[j] == r & ((Merge(fds)[j].events & KNOWN) | UNASKED) != 0
    && forall k :: 0 <= k < |a.revents| && k != j ==> a.revents[k] == 0
  }

  /** If the count is right, such an answer tells one slot. */
  lemma AnswerAt(fds: seq<PollFd>, j: nat, r: bv16) returns (a: Answer)
    requires CountsSlots(fds) && j < |Merge(fds)| && Merge(fds)[j].fd >= 0 && r & UNASKED != 0
    ensures OnlyAt(fds, a, j, r) && Nonzero(SlotRevents(fds, a)) == 1
  {
    var fd := Merge(fds)[j].fd;
    var ready: int -> bv16 := x => if x == fd then r else 0;
    a := AnswerFor(ready, Merge(fds), 1);
    MergeShortens(fds);
    ReportHas(r, Merge(fds)[j].events);
    OnlyOne(a.revents, j);
    assert Counted(ready, Merge(fds), a);
  }

  lemma SlotOnly(fds: seq<PollFd>, a: Answer, j: nat, r: bv16, k: nat)
    requires !DistinctFds(fds) && OnlyAt(fds, a, j, r) && k < |fds|
    ensures SlotRevents(fds, a)[k] != 0 <==> fds[k].fd == Merge(fds)[j].fd && a.revents[j] & fds[k].events != 0
    ensures fds[k].fd == Merge(fds)[j].fd ==> Covers(Merge(fds)[j].events, fds[k].events)
  {
    var jk := Position(fds, k);
    SlotTold(fds, a, k, jk);
    if jk != j { assert a.revents[jk] & fds[k].events == 0; }
  }

  /** Slot i is the one that hears of r. */
  ghost predicate HearsAlone(fds: seq<PollFd>, all: bv16, fd: int, r: bv16, i: nat) {
    var rev := r & ((all & KNOWN) | UNASKED);
    && i < |fds| && fds[i].fd == fd
    && forall k :: 0 <= k < |fds| && fds[k].fd == fd ==> (rev & fds[k].events != 0 <==> k == i)
  }

  lemma TellsOne(fds: seq<PollFd>, j: nat, r: bv16) returns (i: nat)
    requires !DistinctFds(fds) && CountsSlots(fds) && j < |Merge(fds)| && Merge(fds)[j].fd >= 0 && r & UNASKED != 0
    ensures HearsAlone(fds, Merge(fds)[j].events, Merge(fds)[j].fd, r, i)
  {
    var a := AnswerAt(fds, j, r);
    i := SomeNonzero(SlotRevents(fds, a));
    SlotOnly(fds, a, j, r, i);
    forall k | 0 <= k < |fds| && fds[k].fd == Merge(fds)[j].fd
      ensures a.revents[j] & fds[k].events != 0 <==> k == i
    {
      SlotOnly(fds, a, j, r, k);
      if a.revents[j] & fds[k].events != 0 { AtMostOne(SlotRevents(fds, a), i, k); }
    }
  }

  lemma HearsHangup(all: bv16, events: bv16, r: bv16)
    requires POLLHUP & ((all & KNOWN) | UNASKED) & events != 0
    ensures (POLLHUP | r) & ((all & KNOWN) | UNASKED) & events != 0
  {
  }

  lemma HearsError(all: bv16, events: bv16)
    requires POLLERR & ((all & KNOWN) | UNASKED) & events != 0
    ensures UNASKED & ((all & KNOWN) | UNASKED) & events != 0
  {
  }

  lemma HearsBoth(all: bv16, events: bv16)
    requires POLLHUP & ((all & KNOWN) | UNASKED) & events != 0
    requires POLLERR & ((all & KNOWN) | UNASKED) & events != 0
    ensures UNASKED & !events == 0
  {
  }

  lemma HearsOwn(all: bv16, events: bv16)
    requires Covers(all, events) && events & KNOWN != 0
    ensures (POLLHUP | (events & KNOWN)) & ((all & KNOWN) | UNASKED) & events != 0
  {
  }

  /** Hang-ups and errors reach one and the same slot, and it is the only one that hears anything. */
  lemma MustSpeak(fds: seq<PollFd>, i0: nat) returns (i: nat)
    requires !DistinctFds(fds) && CountsSlots(fds) && i0 < |fds| && fds[i0].fd >= 0
    ensures Speaks(fds, fds[i0].fd, i)
  {
    var j := Position(fds, i0);
    var all := Merge(fds)[j].events;
    i := TellsOne(fds, j, POLLHUP);
    var e := TellsOne(fds, j, POLLERR);
    var both := TellsOne(fds, j, UNASKED);
    HearsHangup(all, fds[i].events, POLLERR);
    assert POLLHUP | POLLERR == UNASKED;
    HearsError(all, fds[e].events);
    assert i == both == e;
    HearsBoth(all, fds[i].events);
    forall k | 0 <= k < |fds| && k != i && fds[k].fd == fds[i0].fd ensures fds[k].events & KNOWN == 0 {
      if fds[k].events & KNOWN != 0 { OwnHeard(fds, j, i, k); }
    }
  }

  /** Whoever asks for something hears of it together with a hang-up. */
  lemma OwnHeard(fds: seq<PollFd>, j: nat, i: nat, k: nat)
    requires !DistinctFds(fds) && CountsSlots(fds) && j < |Merge(fds)| && Merge(fds)[j].fd >= 0
    requires HearsAlone(fds, Merge(fds)[j].events, Merge(fds)[j].fd, POLLHUP, i)
    requires k < |fds| && fds[k].fd == Merge(fds)[j].fd && fds[k].events & KNOWN != 0
    ensures k == i
  {
    var jk := Position(fds, k);
    var all, own := Merge(fds)[j].events, fds[k].events & KNOWN;
    HangupAndMore(own);
    var t := TellsOne(fds, j, POLLHUP | own);
    HearsHangup(all, fds[i].events, own);
    HearsOwn(all, fds[k].events);
  }

  lemma HangupAndMore(r: bv16)
    ensures (POLLHUP | r) & UNASKED != 0
  {
  }

  lemma MustBeClear(fds: seq<PollFd>)
    requires !DistinctFds(fds) && CountsSlots(fds)
    ensures forall f :: f in fds ==> f.revents == 0
  {
    var ready: int -> bv16 := _ => 0;
    var a := Answer(0, seq(|Merge(fds)|, _ => 0));
    NoneNonzero(a.revents);
    assert Counted(ready, Merge(fds), a);
    forall f | f in fds ensures f.revents == 0 {
      var i :| 0 <= i < |fds| && fds[i] == f;
      SlotQuiet(fds, a, i);
      if f.revents != 0 { OneLess(SlotRevents(fds, a), i); }
    }
  }

  /** poll returns the number of slots with events, for all states of the descriptors, if and only if there
      are no duplicates, or all slots come with their revents cleared and one slot speaks for every
      descriptor. */
  lemma CountsIff(fds: seq<PollFd>)
    ensures CountsSlots(fds) <==> DistinctFds(fds) || OneSpeaker(fds)
  {
    if DistinctFds(fds) {
      forall ready, a | Counted(ready, Merge(fds), a) ensures a.ret == Nonzero(SlotRevents(fds, a)) {
        DistinctCount(fds, a);
      }
    } else if OneSpeaker(fds) {
      forall ready, a | Counted(ready, Merge(fds), a) ensures a.ret == Nonzero(SlotRevents(fds, a)) {
        SpeakersCount(fds, ready, a);
      }
    } else if CountsSlots(fds) {
      MustBeClear(fds);
      forall f | f in fds && f.fd >= 0 ensures exists i :: Speaks(fds, f.fd, i) {
        var i0 :| 0 <= i0 < |fds| && fds[i0] == f;
        var i := MustSpeak(fds, i0);
      }
    }
  }

  lemma ReportHas(r: bv16, all: bv16)
    requires r & UNASKED != 0
    ensures var rev := r & ((all & KNOWN) | UNASKED); rev != 0 && Covers(rev, r & UNASKED) && rev & !r == 0
  {
  }
}
