/** CDBPool as an object. Each method is the part of a call that runs under the mutex in one go; which
    threads wait is kept as ghost state, because it belongs to the condition variable. */
module DbPoolClass {
  import opened DbPool

  class CDBPool {
    var freeList: seq<nat>
    var usedList: seq<nat>
    var curConnCnt: int
    const maxConnCnt: int
    var abortRequest: bool
    ghost var blocked: set<nat>
    ghost var notified: set<nat>
    ghost var timed: set<nat>
    ghost var holder: map<nat, nat>

    ghost function Abs(): Pool
      reads this
    {
      Pool(freeList, usedList, curConnCnt, maxConnCnt, abortRequest, blocked, notified, timed, holder)
    }

    /** _Init: connections are made until one fails. */
    constructor (maxCount: int, conns: seq<nat>, connects: seq<bool>)
      requires |conns| == |connects| == MIN_DB_CONN_CNT && conns[0] != conns[1]
      ensures Initial(Abs()) && maxConnCnt == maxCount
      ensures freeList == conns[..if !connects[0] then 0 else if !connects[1] then 1 else 2]
    {
      freeList, usedList, curConnCnt, maxConnCnt, abortRequest := [], [], MIN_DB_CONN_CNT, maxCount, false;
      blocked, notified, timed, holder := {}, {}, {}, map[];
      new;
      for i := 0 to curConnCnt
        invariant freeList == conns[..i] && forall j :: 0 <= j < i ==> connects[j]
        invariant usedList == [] && curConnCnt == MIN_DB_CONN_CNT && !abortRequest
        invariant blocked == {} && notified == {} && timed == {} && holder == map[]
      {
        if !connects[i] { break; }
        freeList := freeList + [conns[i]];
      }
      assert freeList == [] || freeList == [conns[0]] || freeList == [conns[0], conns[1]];
      forall c: nat ensures Copies(freeList, usedList, c) <= 1 {
        if freeList != [] { assert multiset(freeList)[c] == multiset([conns[0]])[c] + multiset(freeList[1..])[c]; }
      }
    }

    method TakeFront(ghost tid: nat) returns (conn: nat)
      requires freeList != []
      modifies this
      ensures Answer(Abs(), Got(conn)) == Take(old(Abs()), tid)
    {
      conn := freeList[0];
      freeList := freeList[1..];
      usedList := usedList + [conn];
      blocked, notified, timed, holder := blocked - {tid}, notified - {tid}, timed - {tid}, holder[conn := tid];
    }

    /** GetDBConn by a thread that is not inside it. */
    method GetDBConn(ghost tid: nat, timeoutMs: int, conn: nat, connects: bool) returns (r: Outcome)
      modifies this
      ensures Answer(Abs(), r) == Enter(old(Abs()), tid, timeoutMs, conn, connects)
    {
      if abortRequest { return Null; }
      if freeList == [] {
        if curConnCnt >= maxConnCnt {
          blocked := blocked + {tid};
          if timeoutMs > 0 { timed := timed + {tid}; }
          return Waits;
        }
        if !connects { return Null; }
        freeList := freeList + [conn];
        curConnCnt := curConnCnt + 1;
      }
      var c := TakeFront(tid);
      return Got(c);
    }

    /** The rest of GetDBConn, from the moment the waiting thread has the mutex again. */
    method WakeUp(ghost tid: nat, timeIsUp: bool) returns (r: Outcome)
      modifies this
      ensures Answer(Abs(), r) == Awake(old(Abs()), tid, timeIsUp)
    {
      if freeList == [] && !abortRequest && !timeIsUp {
        blocked, notified := blocked + {tid}, notified - {tid};
        return Waits;
      }
      if freeList == [] || abortRequest {
        blocked, notified, timed := blocked - {tid}, notified - {tid}, timed - {tid};
        return Null;
      }
      var c := TakeFront(tid);
      return Got(c);
    }

    /** The search loop looks for a connection that has been returned already. */
    method RelDBConn(conn: nat, ghost woken: nat)
      modifies this
      ensures Abs() == Release(old(Abs()), conn, woken)
    {
      var it := 0;
      while it < |freeList|
        invariant 0 <= it <= |freeList| && conn !in freeList[..it]
      {
        if freeList[it] == conn { return; }
        it := it + 1;
      }
      assert freeList[..it] == freeList;
      usedList := RemoveAll(usedList, conn);
      freeList := freeList + [conn];
      holder := holder - {conn};
      if woken in blocked {
        blocked, notified := blocked - {woken}, notified + {woken};
      }
    }

    /** The destructor. */
    method Close()
      modifies this
      ensures Abs() == DbPool.Close(old(Abs()))
    {
      abortRequest := true;
      blocked, notified := {}, notified + blocked;
      freeList := [];
    }
  }
}
