/** How the server cuts the byte stream of a connection into messages. A message starts with a header
    of two 32-bit little-endian words, the command and the length of the message, header included. */
module Frames {
  import opened Basics

  const HEADER := 8
  const BUFFER_LENGTH := 1024 * 1024

  /** m_dataLength of the header at the start of b. */
  function DataLength(b: seq<Byte>): int
    requires |b| >= HEADER
  {
    var u := b[4] as int + 0x100 * b[5] as int + 0x1_0000 * b[6] as int + 0x100_0000 * b[7] as int;
    if u < 0x8000_0000 then u else u - 0x1_0000_0000
  }

  /** The messages handed to co_work and what stays in the buffer; `stuck` if the loop does not get there. */
  datatype Parsed = Parsed(frames: seq<seq<Byte>>, rest: seq<Byte>, stuck: bool)

  function Parse(b: seq<Byte>): Parsed
    decreases |b|
  {
    if |b| < HEADER || |b| < DataLength(b) then Parsed([], b, false)
    else if DataLength(b) <= 0 then Parsed([], b, true)
    else
      var p := Parse(b[DataLength(b)..]);
      p.(frames := [b[..DataLength(b)]] + p.frames)
  }

  lemma LengthOfPrefix(a: seq<Byte>, b: seq<Byte>)
    requires |a| >= HEADER
    ensures DataLength(a + b) == DataLength(a)
  {
    assert forall i :: 0 <= i < HEADER ==> (a + b)[i] == a[i];
  }

  lemma FlattenCons(f: seq<Byte>, fs: seq<seq<Byte>>)
    ensures Flatten([f] + fs) == f + Flatten(fs)
  {
    assert ([f] + fs)[1..] == fs;
  }

  lemma Assoc<T>(a: seq<T>, b: seq<T>, c: seq<T>)
    ensures (a + b) + c == a + (b + c)
  {
  }

  predicate Ready(b: seq<Byte>) {
    |b| >= HEADER && 0 < DataLength(b) <= |b|
  }

  /** One round of the loop. */
  lemma ParseOne(b: seq<Byte>)
    requires Ready(b)
    ensures var h, t := b[..DataLength(b)], b[DataLength(b)..];
      b == h + t && Parse(b) == Parsed([h] + Parse(t).frames, Parse(t).rest, Parse(t).stuck)
  {
  }

  // ----- an independent description -----

  predicate Complete(f: seq<Byte>) {
    |f| >= HEADER && DataLength(f) == |f|
  }

  predicate Incomplete(b: seq<Byte>) {
    |b| < HEADER || |b| < DataLength(b)
  }

  function Flatten(s: seq<seq<Byte>>): seq<Byte> {
    if s == [] then [] else s[0] + Flatten(s[1..])
  }

  /** A stream of complete messages and an incomplete one is cut into exactly these. */
  lemma {:induction false} ParseFrames(frames: seq<seq<Byte>>, rest: seq<Byte>)
    requires (forall f :: f in frames ==> Complete(f)) && Incomplete(rest)
    ensures Parse(Flatten(frames) + rest) == Parsed(frames, rest, false)
  {
    if frames == [] {
      assert Flatten(frames) + rest == rest;
    } else {
      var b := Flatten(frames) + rest;
      var tail := Flatten(frames[1..]) + rest;
      assert b == frames[0] + tail && Complete(frames[0]);
      LengthOfPrefix(frames[0], tail);
      assert b[|frames[0]|..] == tail && b[..|frames[0]|] == frames[0];
      ParseFrames(frames[1..], rest);
      assert [frames[0]] + frames[1..] == frames;
    }
  }

  /** Conversely, what the loop hands out and keeps makes up the stream, and it keeps no whole message. */
  lemma {:induction false} ParseSplits(b: seq<Byte>)
    ensures Flatten(Parse(b).frames) + Parse(b).rest == b
    ensures !Parse(b).stuck ==> Incomplete(Parse(b).rest)
    decreases |b|
  {
    if Ready(b) {
      var h, t := b[..DataLength(b)], b[DataLength(b)..];
      ParseOne(b);
      ParseSplits(t);
      FlattenCons(h, Parse(t).frames);
      Assoc(h, Flatten(Parse(t).frames), Parse(t).rest);
    }
  }

  // ----- the rounds of the loop, and how it can fail to end -----

  /** What one round does with the buffer: stop, hand out a message and go on with the rest, or copy from
      outside the buffer. */
  datatype Round = Stop | Next(frame: seq<Byte>, rest: seq<Byte>) | Outside

  function RoundOf(b: seq<Byte>): Round {
    if |b| < HEADER || |b| < DataLength(b) then Stop
    else if DataLength(b) < 0 then Outside
    else Next(b[..DataLength(b)], b[DataLength(b)..])
  }

  /** The buffer after n rounds, if there are so many. */
  function After(b: seq<Byte>, n: nat): Option<seq<Byte>> {
    if n == 0 then Some(b) else match RoundOf(b)
      case Next(_, rest) => After(rest, n - 1)
      case _ => None
  }

  ghost predicate ComesTo(b: seq<Byte>, n: nat, round: Round) {
    After(b, n).Some? && RoundOf(After(b, n).value) == round
  }

  ghost predicate Ends(b: seq<Byte>) {
    exists n: nat :: ComesTo(b, n, Stop)
  }

  ghost predicate Escapes(b: seq<Byte>) {
    exists n: nat :: ComesTo(b, n, Outside)
  }

  ghost predicate RunsForEver(b: seq<Byte>) {
    forall n: nat :: After(b, n).Some?
  }

  /** Following the lengths from the start of the stream leads to a header at position p. */
  predicate Reach(b: seq<Byte>, p: nat)
    decreases |b|
  {
    p == 0 || (Ready(b) && DataLength(b) <= p && Reach(b[DataLength(b)..], p - DataLength(b)))
  }

  /** That header gives the length n. */
  predicate LengthAt(b: seq<Byte>, p: nat, n: int) {
    Reach(b, p) && p + HEADER <= |b| && DataLength(b[p..]) == n
  }

  /** Behind the first message positions shift by its length. */
  lemma LengthBehind(b: seq<Byte>, p: nat, n: int)
    requires Ready(b)
    ensures LengthAt(b[DataLength(b)..], p, n) <==> LengthAt(b, DataLength(b) + p, n)
  {
    if DataLength(b) + p <= |b| {
      assert b[DataLength(b)..][p..] == b[DataLength(b) + p..];
    }
  }

  lemma LengthNotInside(b: seq<Byte>, p: nat, n: int)
    requires Ready(b) && LengthAt(b, p, n) && n <= 0
    ensures p >= DataLength(b) && LengthAt(b[DataLength(b)..], p - DataLength(b), n)
  {
    LengthBehind(b, p - DataLength(b), n);
  }

  /** A round that hands out a message of positive length does not change how the loop goes on. */
  lemma RoundShifts(b: seq<Byte>, n: nat, round: Round)
    requires Ready(b)
    ensures ComesTo(b[DataLength(b)..], n, round) <==> ComesTo(b, n + 1, round)
  {
  }

  /** The loop's three fates, by the first length that is not positive. */
  datatype Fate = Ending(rounds: nat) | Repeating(at: nat) | Escaping(at: nat, n: int)

  ghost predicate IsFate(b: seq<Byte>, f: Fate) {
    match f
    case Ending(n) => ComesTo(b, n, Stop) && forall p, m :: LengthAt(b, p, m) ==> m > 0
    case Repeating(p) => LengthAt(b, p, 0) && RunsForEver(b) && forall q, m :: LengthAt(b, q, m) && m <= 0 ==> m == 0
    case Escaping(p, m) =>
      LengthAt(b, p, m) && m < 0 && Escapes(b) && forall q, k :: LengthAt(b, q, k) && k <= 0 ==> k < 0
  }

  /** A message of length zero is handed out again and again, from the same buffer. */
  lemma {:induction false} ZeroRepeats(b: seq<Byte>, n: nat)
    requires |b| >= HEADER && DataLength(b) == 0
    ensures RoundOf(b) == Next([], b) && After(b, n) == Some(b)
  {
    assert b[..0] == [] && b[0..] == b;
    if n > 0 {
      ZeroRepeats(b, n - 1);
    }
  }

  lemma FateHere(b: seq<Byte>) returns (f: Fate)
    requires !Ready(b)
    ensures IsFate(b, f)
  {
    assert b[0..] == b && forall p :: Reach(b, p) ==> p == 0;
    if |b| < HEADER || |b| < DataLength(b) {
      f := Ending(0);
      assert ComesTo(b, 0, Stop);
    } else if DataLength(b) == 0 {
      f := Repeating(0);
      forall n: nat ensures After(b, n).Some? { ZeroRepeats(b, n); }
    } else {
      f := Escaping(0, DataLength(b));
      assert ComesTo(b, 0, Outside);
    }
  }

  lemma {:induction false} FateOf(b: seq<Byte>) returns (f: Fate)
    ensures IsFate(b, f)
    decreases |b|
  {
    if !Ready(b) {
      f := FateHere(b);
    } else {
      var t := b[DataLength(b)..];
      var g := FateOf(t);
      f := FateBehind(b, g);
    }
  }

  lemma FateBehind(b: seq<Byte>, g: Fate) returns (f: Fate)
    requires Ready(b) && IsFate(b[DataLength(b)..], g)
    ensures IsFate(b, f)
  {
    match g {
      case Ending(n) =>
        f := Ending(n + 1);
        EndingBehind(b, n);
      case Repeating(p) =>
        f := Repeating(DataLength(b) + p);
        RepeatingBehind(b, p);
      case Escaping(p, m) =>
        f := Escaping(DataLength(b) + p, m);
        EscapingBehind(b, p, m);
    }
  }

  lemma EndingBehind(b: seq<Byte>, n: nat)
    requires Ready(b) && IsFate(b[DataLength(b)..], Ending(n))
    ensures IsFate(b, Ending(n + 1))
  {
    RoundShifts(b, n, Stop);
    forall p: nat, m | LengthAt(b, p, m) ensures m > 0 {
      if m <= 0 { LengthNotInside(b, p, m); }
    }
  }

  lemma RepeatingBehind(b: seq<Byte>, p: nat)
    requires Ready(b) && IsFate(b[DataLength(b)..], Repeating(p))
    ensures IsFate(b, Repeating(DataLength(b) + p))
  {
    LengthBehind(b, p, 0);
    forall n: nat ensures After(b, n).Some? {
      if n > 0 { assert After(b[DataLength(b)..], n - 1).Some?; }
    }
    forall q: nat, m | LengthAt(b, q, m) && m <= 0 ensures m == 0 { LengthNotInside(b, q, m); }
  }

  lemma EscapingBehind(b: seq<Byte>, p: nat, m: int)
    requires Ready(b) && IsFate(b[DataLength(b)..], Escaping(p, m))
    ensures IsFate(b, Escaping(DataLength(b) + p, m))
  {
    LengthBehind(b, p, m);
    var n :| ComesTo(b[DataLength(b)..], n, Outside);
    RoundShifts(b, n, Outside);
    forall q: nat, k | LengthAt(b, q, k) && k <= 0 ensures k < 0 { LengthNotInside(b, q, k); }
  }

  lemma {:induction false} EndExcludes(b: seq<Byte>, n: nat, k: nat)
    requires ComesTo(b, n, Stop) || ComesTo(b, n, Outside)
    ensures After(b, k).Some? ==> k <= n
    ensures k > n ==> After(b, k).None?
    decreases n
  {
    if n > 0 && k > 0 {
      match RoundOf(b) {
        case Next(_, rest) => EndExcludes(rest, n - 1, k - 1);
        case _ =>
      }
    }
  }

  /** Exactly when the loop ends, repeats for ever, or leaves the buffer, by the lengths in the stream. */
  lemma FateIff(b: seq<Byte>)
    ensures Ends(b) <==> forall p, n :: LengthAt(b, p, n) ==> n > 0
    ensures RunsForEver(b) <==> exists p :: LengthAt(b, p, 0)
    ensures Escapes(b) <==> exists p, n :: LengthAt(b, p, n) && n < 0
  {
    var f := FateOf(b);
    match f {
      case Ending(n) => EndOnce(b, n, Stop);
      case Repeating(p) => NeverEnds(b);
      case Escaping(p, m) =>
        var n :| ComesTo(b, n, Outside);
        EndOnce(b, n, Outside);
    }
  }

  lemma EndOnce(b: seq<Byte>, n: nat, round: Round)
    requires ComesTo(b, n, round) && !round.Next?
    ensures !RunsForEver(b) && (forall k, other: Round :: ComesTo(b, k, other) && !other.Next? ==> other == round)
  {
    EndExcludes(b, n, n + 1);
    forall k, other: Round | ComesTo(b, k, other) && !other.Next? ensures other == round {
      EndExcludes(b, n, k);
      EndExcludes(b, k, n);
    }
  }

  lemma NeverEnds(b: seq<Byte>)
    requires RunsForEver(b)
    ensures !Ends(b) && !Escapes(b)
  {
    forall n: nat, round: Round | !round.Next? ensures !ComesTo(b, n, round) {
      if ComesTo(b, n, round) {
        EndExcludes(b, n, n + 1);
      }
    }
  }

  /** Parse hands out what the rounds hand out and keeps what they leave; it gives up exactly where the
      loop fails to end. */
  lemma {:induction false} ParseIsRounds(b: seq<Byte>)
    ensures After(b, |Parse(b).frames|) == Some(Parse(b).rest)
    ensures Parse(b).stuck <==> !Ends(b)
    decreases |b|
  {
    if Ready(b) {
      ParseOne(b);
      ParseIsRounds(b[DataLength(b)..]);
      EndsBehind(b);
    } else {
      FateIff(b);
      assert b[0..] == b && (|b| >= HEADER ==> LengthAt(b, 0, DataLength(b)));
    }
  }

  lemma EndsBehind(b: seq<Byte>)
    requires Ready(b)
    ensures Ends(b) <==> Ends(b[DataLength(b)..])
  {
    if Ends(b) {
      var n: nat :| ComesTo(b, n, Stop);
      RoundShifts(b, n - 1, Stop);
    }
    if Ends(b[DataLength(b)..]) {
      var n: nat :| ComesTo(b[DataLength(b)..], n, Stop);
      RoundShifts(b, n, Stop);
    }
  }

  /** Parse gives up exactly if following the lengths leads to one that is not positive. */
  lemma StuckIff(b: seq<Byte>)
    ensures Parse(b).stuck <==> exists p, n :: LengthAt(b, p, n) && n <= 0
  {
    FateIff(b);
    ParseIsRounds(b);
  }

  // ----- reads -----

  /** What arrives later does not change what has been cut already. */
  lemma {:induction false} ParseAppend(a: seq<Byte>, b: seq<Byte>)
    requires !Parse(a).stuck
    ensures var p := Parse(Parse(a).rest + b); Parse(a + b) == p.(frames := Parse(a).frames + p.frames)
    decreases |a|
  {
    if !Ready(a) {
      assert Parse(a).frames + Parse(a + b).frames == Parse(a + b).frames;
    } else {
      var h, t := a[..DataLength(a)], a[DataLength(a)..];
      ParseOne(a);
      ParseOneMore(a, b);
      ParseAppend(t, b);
      Assoc([h], Parse(t).frames, Parse(Parse(t).rest + b).frames);
    }
  }

  lemma ParseOneMore(a: seq<Byte>, b: seq<Byte>)
    requires Ready(a)
    ensures var h, t := a[..DataLength(a)], a[DataLength(a)..];
      Parse(a + b) == Parsed([h] + Parse(t + b).frames, Parse(t + b).rest, Parse(t + b).stuck)
  {
    LengthOfPrefix(a, b);
    ParseOne(a + b);
    assert (a + b)[..DataLength(a)] == a[..DataLength(a)] && (a + b)[DataLength(a)..] == a[DataLength(a)..] + b;
  }

  /** A length that stops the loop stops it for every longer stream too. */
  lemma {:induction false} StuckStays(a: seq<Byte>, b: seq<Byte>)
    requires Parse(a).stuck
    ensures Parse(a + b).stuck
    decreases |a|
  {
    var n := DataLength(a);
    LengthOfPrefix(a, b);
    if n > 0 {
      assert (a + b)[n..] == a[n..] + b;
      StuckStays(a[n..], b);
    }
  }

  /** The connection: all messages handed to co_work so far, and the buffer. */
  datatype Conn = Conn(handed: seq<seq<Byte>>, buffer: seq<Byte>)

  /** co_recvData on a successful read. */
  function Receive(c: Conn, chunk: seq<Byte>): Conn {
    var p := Parse(c.buffer + chunk);
    Conn(c.handed + p.frames, p.rest)
  }

  function ReceiveAll(c: Conn, chunks: seq<seq<Byte>>): Conn
    decreases |chunks|
  {
    if chunks == [] then c else ReceiveAll(Receive(c, chunks[0]), chunks[1..])
  }

  lemma {:induction false} ReceiveAllIsParse(c: Conn, chunks: seq<seq<Byte>>)
    requires !Parse(c.buffer + Flatten(chunks)).stuck && (chunks == [] ==> Incomplete(c.buffer))
    ensures var p := Parse(c.buffer + Flatten(chunks)); ReceiveAll(c, chunks) == Conn(c.handed + p.frames, p.rest)
    decreases |chunks|
  {
    if chunks == [] {
      assert c.buffer + Flatten(chunks) == c.buffer && c.handed + [] == c.handed;
    } else {
      var a, b := c.buffer + chunks[0], Flatten(chunks[1..]);
      Assoc(c.buffer, chunks[0], b);
      NotStuckBefore(a, b);
      ParseAppend(a, b);
      ParseSplits(a);
      var c1 := Receive(c, chunks[0]);
      ReceiveAllIsParse(c1, chunks[1..]);
      Assoc(c.handed, Parse(a).frames, Parse(c1.buffer + b).frames);
    }
  }

  lemma NotStuckBefore(a: seq<Byte>, b: seq<Byte>)
    requires !Parse(a + b).stuck
    ensures !Parse(a).stuck
  {
    if Parse(a).stuck { StuckStays(a, b); }
  }

  /** Reassembly does not depend on how the stream was cut into reads: the messages handed out over all
      calls are exactly the complete messages received so far, in order and once each, and the buffer
      holds exactly the incomplete rest. */
  lemma ChunkingDoesNotMatter(frames: seq<seq<Byte>>, rest: seq<Byte>, chunks: seq<seq<Byte>>)
    requires (forall f :: f in frames ==> Complete(f)) && Incomplete(rest)
    requires Flatten(chunks) == Flatten(frames) + rest
    ensures ReceiveAll(Conn([], []), chunks) == Conn(frames, rest)
  {
    ParseFrames(frames, rest);
    NothingPlus(Flatten(chunks));
    ReceiveAllIsParse(Conn([], []), chunks);
    NothingPlus(frames);
  }

  lemma NothingPlus<T>(s: seq<T>)
    ensures [] + s == s
  {
  }

  // ----- the sender's side -----

  /** A 32-bit word as it goes over the wire, lowest byte first. */
  function Word(n: nat): seq<Byte> {
    [(n % 256) as Byte, (n / 0x100 % 256) as Byte, (n / 0x1_0000 % 256) as Byte, (n / 0x100_0000 % 256) as Byte]
  }

  /** A command with its payload, behind a header that holds the command and the length of it all. */
  function Message(cmd: nat, payload: seq<Byte>): seq<Byte> {
    Word(cmd) + Word(8 + |payload|) + payload
  }

  lemma WordSum(n: nat)
    requires n < 0x1_0000_0000
    ensures var w := Word(n);
      n == w[0] as int + 0x100 * w[1] as int + 0x1_0000 * w[2] as int + 0x100_0000 * w[3] as int
  {
    var a := n / 0x100;
    var b := a / 0x100;
    assert n / 0x1_0000 == b && n / 0x100_0000 == b / 0x100;
  }

  /** The receiver takes the second word of the header as an int, whatever the first one is. */
  lemma LengthWord(cmd: nat, n: nat, more: seq<Byte>)
    requires n < 0x1_0000_0000
    ensures var len := DataLength(Word(cmd) + Word(n) + more);
      len == if n < 0x8000_0000 then n else n - 0x1_0000_0000
  {
    var b := Word(cmd) + Word(n) + more;
    WordSum(n);
    assert b[4..8] == Word(n);
    assert forall k :: 0 <= k < 4 ==> b[4 + k] == b[4..8][k];
  }

  /** It reads the length that the sender wrote from the header alone, so it takes the message as complete
      once all of it has come and not before. */
  lemma MessageLength(cmd: nat, payload: seq<Byte>, more: seq<Byte>)
    requires 8 + |payload| < 0x8000_0000
    ensures var m := Message(cmd, payload); |m| == 8 + |payload| && DataLength(m + more) == |m|
  {
    LengthWord(cmd, 8 + |payload|, payload + more);
    assert Message(cmd, payload) + more == Word(cmd) + Word(8 + |payload|) + (payload + more);
  }

  lemma MessageComplete(cmd: nat, payload: seq<Byte>)
    requires 8 + |payload| < 0x8000_0000
    ensures Complete(Message(cmd, payload))
  {
    MessageLength(cmd, payload, []);
    assert Message(cmd, payload) + [] == Message(cmd, payload);
  }

  lemma PartIncomplete(cmd: nat, payload: seq<Byte>, n: nat)
    requires 8 + |payload| < 0x8000_0000 && n < 8 + |payload|
    ensures Incomplete(Message(cmd, payload)[..n])
  {
    var m := Message(cmd, payload);
    if n >= HEADER {
      MessageComplete(cmd, payload);
      LengthOfPrefix(m[..n], m[n..]);
      assert m[..n] + m[n..] == m;
    }
  }

  datatype Sent = Sent(cmd: nat, payload: seq<Byte>)

  function Messages(s: seq<Sent>): (r: seq<seq<Byte>>)
    ensures |r| == |s| && forall i :: 0 <= i < |s| ==> r[i] == Message(s[i].cmd, s[i].payload)
  {
    if s == [] then [] else [Message(s[0].cmd, s[0].payload)] + Messages(s[1..])
  }

  /** What was sent is what is handed out: however the bytes of a sequence of messages and the first n bytes
      of one more are cut into reads, exactly these messages are handed to co_work, in order, and the n
      bytes are kept. */
  lemma SentIsHanded(sent: seq<Sent>, next: Sent, n: nat, chunks: seq<seq<Byte>>)
    requires forall s :: s in sent + [next] ==> 8 + |s.payload| < 0x8000_0000
    requires n < 8 + |next.payload|
    requires Flatten(chunks) == Flatten(Messages(sent)) + Message(next.cmd, next.payload)[..n]
    ensures ReceiveAll(Conn([], []), chunks) == Conn(Messages(sent), Message(next.cmd, next.payload)[..n])
  {
    assert next in sent + [next];
    PartIncomplete(next.cmd, next.payload, n);
    forall f | f in Messages(sent) ensures Complete(f) {
      var i :| 0 <= i < |sent| && f == Messages(sent)[i];
      assert sent[i] in sent + [next];
      MessageComplete(sent[i].cmd, sent[i].payload);
    }
    ChunkingDoesNotMatter(Messages(sent), Message(next.cmd, next.payload)[..n], chunks);
  }

  // ----- the size of the buffer -----

  /** Every length the loop meets in b stays within the limit. */
  predicate LengthsWithin(b: seq<Byte>, limit: int)
    decreases |b|
  {
    |b| >= HEADER ==> DataLength(b) <= limit && (0 < DataLength(b) <= |b| ==> LengthsWithin(b[DataLength(b)..], limit))
  }

  lemma {:induction false} RestIsShort(b: seq<Byte>, limit: int)
    requires LengthsWithin(b, limit) && limit >= HEADER && !Parse(b).stuck
    ensures |Parse(b).rest| < limit
    decreases |b|
  {
    if !(|b| < HEADER || |b| < DataLength(b)) {
      RestIsShort(b[DataLength(b)..], limit);
    }
  }

  const LONGEST := 7 * BUFFER_LENGTH + 1

  /** With no message longer than seven reads and a byte, the buffer never overflows, whatever the reads. */
  lemma {:induction false} BufferSuffices(c: Conn, chunks: seq<seq<Byte>>, next: seq<Byte>)
    requires |c.buffer| < LONGEST && !Parse(c.buffer + Flatten(chunks)).stuck
    requires LengthsWithin(c.buffer + Flatten(chunks), LONGEST)
    requires |next| <= 0x10_0000
    ensures |ReceiveAll(c, chunks).buffer| + |next| <= 0x80_0000
    decreases |chunks|
  {
    if chunks != [] {
      var a, b := c.buffer + chunks[0], Flatten(chunks[1..]);
      Assoc(c.buffer, chunks[0], b);
      NotStuckBefore(a, b);
      ParseAppend(a, b);
      WithinAppend(a, b, LONGEST);
      RestIsShort(a, LONGEST);
      BufferSuffices(Receive(c, chunks[0]), chunks[1..], next);
    }
  }

  lemma {:induction false} WithinAppend(a: seq<Byte>, b: seq<Byte>, limit: int)
    requires LengthsWithin(a + b, limit) && !Parse(a).stuck
    ensures LengthsWithin(a, limit) && LengthsWithin(Parse(a).rest + b, limit)
    decreases |a|
  {
    if |a| >= HEADER {
      LengthOfPrefix(a, b);
      if DataLength(a) <= |a| {
        assert (a + b)[DataLength(a)..] == a[DataLength(a)..] + b;
        WithinAppend(a[DataLength(a)..], b, limit);
      }
    }
  }

  function Cut(b: seq<Byte>, n: nat): (chunks: seq<seq<Byte>>)
    requires n > 0
    ensures Flatten(chunks) == b && forall c :: c in chunks ==> |c| <= n
  {
    if |b| <= n then
      FlattenCons(b, []);
      [b]
    else
      FlattenCons(b[..n], Cut(b[n..], n));
      [b[..n]] + Cut(b[n..], n)
  }

  /** One byte more is too much: with any longer message there are reads after which a full read no longer
      fits. */
  lemma LongerOverflows(f: seq<Byte>)
    requires Complete(f) && |f| > LONGEST
    ensures exists chunks ::
      && (forall c :: c in chunks ==> |c| <= 0x10_0000) && Flatten(chunks) <= f
      && |ReceiveAll(Conn([], []), chunks).buffer| + 0x10_0000 > 0x80_0000
  {
    var a := f[..LONGEST];
    var chunks := Cut(a, BUFFER_LENGTH);
    assert f == a + f[LONGEST..];
    LengthOfPrefix(a, f[LONGEST..]);
    assert [] + Flatten(chunks) == a;
    ReceiveAllIsParse(Conn([], []), chunks);
  }
}
