/** What the methods of module CoSwitch ask of their callers holds at every turn of a legal schedule. */
module CoSwitchTurns {
  import opened Basics
  import opened SharedStack
  import opened SharedStackProof
  import opened CoSwitch

  /** A suspended coroutine has an image somewhere, and its stack has a sound occupant. */
  lemma Suspended(m: Machine, i: Ideal, p: CoId, exact: bool)
    requires Rel(m, i, exact) && p in m.cos && Alive(m.cos[p]) && p != Running(m)
    ensures p in i.left && SharedStackProof.Placed(m, p, i.left[p], exact) && OccupantOk(m, p)
  {
    ShapeOccupant(m, p);
  }

  lemma YieldFits(m: Machine, content: seq<Byte>, sp: nat, image: seq<Byte>, exact: bool)
    requires Legal(m, OnYield(content, sp)) && m.callStack[|m.callStack| - 2] != Running(m)
    requires SharedStackProof.Placed(m, m.callStack[|m.callStack| - 2], image, exact)
    ensures MayYield(Execute(m, content), sp)
  {
  }

  lemma FinishFits(m: Machine, content: seq<Byte>, sp: nat, image: seq<Byte>, exact: bool)
    requires Legal(m, OnFinish(content, sp)) && m.callStack[|m.callStack| - 2] != Running(m)
    requires SharedStackProof.Placed(m, m.callStack[|m.callStack| - 2], image, exact)
    ensures MayYield(WithEnded(Execute(m, content), Running(m)), sp)
  {
  }

  lemma ResumeFits(m: Machine, c: CoId, content: seq<Byte>, sp: nat, entry: seq<Byte>, image: seq<Byte>, exact: bool)
    requires Legal(m, OnResume(c, content, sp)) && |entry| == WORD && m.cos[c].started && c != Running(m)
    requires SharedStackProof.Placed(m, c, image, exact)
    ensures MayResume(Execute(m, content), c, sp, entry)
  {
  }

  lemma FirstFits(m: Machine, c: CoId, content: seq<Byte>, sp: nat, entry: seq<Byte>)
    requires Legal(m, OnResume(c, content, sp)) && |entry| == WORD && !m.cos[c].started
    ensures MayResume(Execute(m, content), c, sp, entry)
  {
  }

  lemma YieldAllowed(m: Machine, i: Ideal, content: seq<Byte>, sp: nat, exact: bool)
    requires Rel(m, i, exact) && Legal(m, OnYield(content, sp))
    ensures MayYield(Execute(m, content), sp)
    ensures MayYield(WithEnded(Execute(m, content), Running(m)), sp)
  {
    var p := m.callStack[|m.callStack| - 2];
    Suspended(m, i, p, exact);
    YieldFits(m, content, sp, i.left[p], exact);
    FinishFits(m, content, sp, i.left[p], exact);
  }

  lemma ResumeAllowed(m: Machine, i: Ideal, c: CoId, content: seq<Byte>, sp: nat, entry: seq<Byte>, exact: bool)
    requires Rel(m, i, exact) && Legal(m, OnResume(c, content, sp)) && |entry| == WORD
    ensures MayResume(Execute(m, content), c, sp, entry)
  {
    if m.cos[c].started {
      Suspended(m, i, c, exact);
      ResumeFits(m, c, content, sp, entry, i.left[c], exact);
    } else {
      FirstFits(m, c, content, sp, entry);
    }
  }
}
