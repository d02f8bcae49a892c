/** clsCoMutex as an object over the event loop object. */
module CoMutexClass {
  import opened EventLoop
  import opened EventLoopProof
  import opened EventLoopClass
  import C = CoMutex

  class LockObject {
    const loop: Scheduler
    const cond: nat
    var waitItemCnt: int
    ghost var calls: seq<nat>
    ghost var released: seq<nat>
    ghost var holders: seq<nat>
    ghost var signalled: seq<nat>

    ghost function Abs(): C.Mutex
      reads this, loop, loop.wheel, loop.wheel.items
    {
      C.Mutex(loop.Abs(), cond, waitItemCnt, calls, released, holders, signalled)
    }

    constructor (loop: Scheduler, cond: nat)
      requires Inv(loop.Abs()) && Queue(loop.Abs(), cond) == []
      requires forall x: nat :: x in loop.waiters ==> loop.waiters[x].kind != Cond(cond)
      ensures this.loop == loop && this.cond == cond && C.MInv(Abs()) && calls == [] && holders == []
    {
      this.loop, this.cond, waitItemCnt := loop, cond, 0;
      calls, released, holders, signalled := [], [], [], [];
    }

    /** The caller is an owner when the call returns; when it waits, it becomes one on its resume. */
    method CoLock(x: nat, t: nat) returns (waits: bool)
      requires C.MInv(Abs()) && C.Allowed(Abs(), C.DoLock(x, t))
      modifies this, loop, loop.wheel, loop.wheel.items
      ensures C.MInv(old(Abs())) && Abs() == C.Lock(old(Abs()), x, t) && C.MInv(Abs())
      ensures waits <==> old(waitItemCnt) > 0
    {
      C.LockKeeps(Abs(), x, t);
      calls := calls + [x];
      waits := waitItemCnt > 0;
      waitItemCnt := waitItemCnt + 1;
      if waits {
        var ret := loop.CondTimedWait(x, cond, -1, t);
      } else {
        holders := holders + [x];
      }
    }

    method CoUnLock()
      requires C.MInv(Abs()) && holders != []
      modifies this, loop, loop.wheel, loop.wheel.items
      ensures C.MInv(old(Abs())) && Abs() == C.Unlock(old(Abs())) && C.MInv(Abs())
    {
      C.UnlockKeeps(Abs());
      released, holders := released + [holders[0]], holders[1..];
      signalled := signalled + if Queue(loop.Abs(), cond) == [] then [] else [Queue(loop.Abs(), cond)[0]];
      waitItemCnt := waitItemCnt - 1;
      loop.CondSignal(cond);
    }
  }
}
