/** The ring of module LibcoWheel as the program keeps it: an array of lists updated in place. */
module LibcoTimeout {
  import opened Basics
  import opened LibcoWheel

  class Timeout {
    var items: array<seq<Item>>
    var start: nat
    var startIdx: int

    ghost function Abs(): Ring
      reads this, items
    {
      Ring(items[..], start, startIdx)
    }

    constructor (size: nat, now: nat)
      requires size > 0
      ensures Sized(Abs()) && fresh(items) && items.Length == size && start == now
      ensures forall j :: 0 <= j < size ==> items[j] == []
    {
      items := new seq<Item>[size](_ => []);
      start, startIdx := now, 0;
    }

    /** A start of zero counts as not set yet. */
    method Open(now: nat)
      modifies this`start, this`startIdx
      ensures Abs() == Opened(old(Abs()), now)
    {
      if start == 0 {
        start, startIdx := now, 0;
      }
    }

    /** AddTimeout of an unlinked item; 0, or the line number of the check that failed. */
    method AddTimeout(item: Item, now: nat) returns (ret: int)
      requires Sized(Abs())
      modifies this`start, this`startIdx, items
      ensures match LibcoWheel.AddTimeout(old(Abs()), item, now)
        case Added(ring) => ret == 0 && Abs() == ring
        case ClockBehindStart => ret == 390 && Abs() == Opened(old(Abs()), now)
        case AlreadyExpired => ret == 397 && Abs() == Opened(old(Abs()), now)
    {
      Open(now);
      if now < start { return 390; }
      if item.expire < now { return 397; }
      var diff := item.expire - start;
      if diff >= items.Length {
        diff := items.Length - 1;
      }
      var idx := (startIdx + diff) % items.Length;
      items[idx] := items[idx] + [item];
      return 0;
    }

    /** The lists of the first cnt offsets, joined in order and emptied. */
    method Drain(cnt: nat) returns (result: seq<Item>)
      requires Sized(Abs())
      modifies items
      ensures result == Taken(old(Abs()), cnt) && items[..] == Emptied(old(Abs()), cnt)
    {
      result := [];
      ghost var r := Abs();
      for i := 0 to cnt
        invariant result == Taken(r, i) && items[..] == Emptied(r, i)
      {
        var idx := (startIdx + i) % items.Length;
        assert idx == Index(r, i);
        result := result + items[idx];
        items[idx] := [];
        assert items[..] == Emptied(r, i)[idx := []];
      }
    }

    /** TakeAllTimeout into an initially empty list. */
    method TakeAllTimeout(now: nat) returns (result: seq<Item>)
      requires Sized(Abs())
      modifies this`start, this`startIdx, items
      ensures TakeResult(result, Abs()) == LibcoWheel.TakeAllTimeout(old(Abs()), now)
    {
      result := [];
      Open(now);
      if now < start { return; }
      var cnt := ToInt(now - start + 1);
      if cnt > items.Length {
        cnt := items.Length;
      }
      if cnt < 0 { return; }
      result := Drain(cnt);
      start := now;
      startIdx := startIdx + cnt - 1;
    }
  }
}
