/** co_recvData on the message buffer of a connection, an array that is shifted in place. */
module Connection {
  import opened Basics
  import opened Frames

  class Env {
    const msgBuffer: array<Byte>
    var msgLength: nat
    ghost var handed: seq<seq<Byte>>

    ghost predicate Valid()
      reads this
    {
      msgLength <= msgBuffer.Length
    }

    ghost function Abs(): Conn
      requires Valid()
      reads this, msgBuffer
    {
      Conn(handed, msgBuffer[..msgLength])
    }

    constructor ()
      ensures Valid() && fresh(msgBuffer) && msgBuffer.Length == 0x80_0000 && Abs() == Conn([], [])
    {
      msgBuffer := new Byte[8 * BUFFER_LENGTH](_ => 0);
      msgLength, handed := 0, [];
    }

    /** `recvLen` is what read returned and `chunk` the bytes it delivered. The buffer must have room for
        them, and the lengths in it must let the loop end; both are properties of the peer's stream that
        the code does not check. */
    method CoRecvData(recvLen: int, chunk: seq<Byte>) returns (ret: int)
      requires Valid()
      requires recvLen > 0 ==> |chunk| == recvLen && msgLength + recvLen <= msgBuffer.Length
      requires recvLen > 0 ==> !Parse(Abs().buffer + chunk).stuck
      modifies this, msgBuffer
      ensures Valid()
      ensures ret == if recvLen <= 0 then -1 else 0
      ensures Abs() == if recvLen <= 0 then old(Abs()) else Receive(old(Abs()), chunk)
    {
      if recvLen <= 0 { return -1; }
      Append(chunk);
      ghost var h, b := handed, Abs().buffer;
      Assoc(h, [], Parse(b).frames);
      while msgLength >= HEADER
        invariant Valid() && !Parse(Abs().buffer).stuck
        invariant Conn(handed + Parse(Abs().buffer).frames, Parse(Abs().buffer).rest) ==
          Conn(h + Parse(b).frames, Parse(b).rest)
        decreases msgLength
      {
        ghost var now, done := Abs().buffer, handed;
        var len := ReadLength();
        if msgLength < len { break; }
        ParseOne(now);
        Assoc(done, [now[..len]], Parse(now[len..]).frames);
        handed := handed + [now[..len]];
        Shift(len);
      }
      return 0;
    }

    /** memcpy of the bytes read to the end of the data. */
    method Append(chunk: seq<Byte>)
      requires Valid() && msgLength + |chunk| <= msgBuffer.Length
      modifies this`msgLength, msgBuffer
      ensures Valid() && msgBuffer[..msgLength] == old(msgBuffer[..msgLength]) + chunk
    {
      for i := 0 to |chunk|
        invariant msgBuffer[..msgLength] == old(msgBuffer[..msgLength])
        invariant msgBuffer[msgLength..msgLength + i] == chunk[..i]
        modifies msgBuffer
      {
        msgBuffer[msgLength + i] := chunk[i];
      }
      msgLength := msgLength + |chunk|;
    }

    method ReadLength() returns (len: int)
      requires Valid() && msgLength >= HEADER
      ensures len == DataLength(msgBuffer[..msgLength])
    {
      var u := msgBuffer[4] as int + 0x100 * msgBuffer[5] as int
              + 0x1_0000 * msgBuffer[6] as int + 0x100_0000 * msgBuffer[7] as int;
      len := if u < 0x8000_0000 then u else u - 0x1_0000_0000;
    }

    /** The data after the first n bytes moves to the front. */
    method Shift(n: nat)
      requires Valid() && n <= msgLength
      modifies this`msgLength, msgBuffer
      ensures Valid() && msgBuffer[..msgLength] == old(msgBuffer[n..msgLength])
    {
      var size := msgLength - n;
      for i := 0 to size
        invariant msgBuffer[..i] == old(msgBuffer[n..n + i])
        invariant forall j :: i <= j < msgBuffer.Length ==> msgBuffer[j] == old(msgBuffer[j])
        modifies msgBuffer
      {
        msgBuffer[i] := msgBuffer[i + n];
      }
      msgLength := size;
    }
  }
}
