/** The doubly linked intrusive lists of the scheduler: AddTail, PopHead, RemoveFromLink and Join against
    plain sequences. A node's link names its list, so valid lists are disjoint. */
module IntrusiveList {
  class Node {
    var prev: Node?
    var next: Node?
    var link: List?

    constructor ()
      ensures Unlinked()
    {
      prev, next, link := null, null, null;
    }

    ghost predicate Unlinked()
      reads this
    {
      prev == null && next == null && link == null
    }
  }

  class List {
    var head: Node?
    var tail: Node?
    ghost var nodes: seq<Node>

    ghost predicate Valid()
      reads this, nodes
    {
      && head == (if nodes == [] then null else nodes[0])
      && tail == (if nodes == [] then null else nodes[|nodes| - 1])
      && (forall i, j :: 0 <= i < j < |nodes| ==> nodes[i] != nodes[j])
      && (forall i :: 0 <= i < |nodes| ==> NodeAt(i))
    }

    ghost predicate NodeAt(i: int)
      requires 0 <= i < |nodes|
      reads this, nodes
    {
      && nodes[i].link == this
      && nodes[i].prev == (if i == 0 then null else nodes[i - 1])
      && nodes[i].next == (if i == |nodes| - 1 then null else nodes[i + 1])
    }

    constructor ()
      ensures Valid() && nodes == []
    {
      head, tail, nodes := null, null, [];
    }

    /** A node that is linked anywhere stays where it is. */
    method AddTail(ap: Node)
      requires Valid() && (ap.link == null ==> ap !in nodes)
      modifies this, nodes, ap
      ensures Valid() && nodes == if old(ap.link) == null then old(nodes) + [ap] else old(nodes)
      ensures forall n :: n in nodes && n != ap ==> n.link == old(n.link)
      ensures old(ap.link) != null ==> unchanged(ap) && forall n :: n in nodes ==> unchanged(n)
    {
      if ap.link != null { return; }
      if tail != null {
        tail.next := ap;
        ap.next := null;
        ap.prev := tail;
        tail := ap;
      } else {
        head, tail := ap, ap;
        ap.next, ap.prev := null, null;
      }
      ap.link := this;
      nodes := nodes + [ap];
      forall i | 0 <= i < |nodes| ensures NodeAt(i) {
        if i < |nodes| - 1 { assert old(NodeAt(i)); }
      }
    }

    method PopHead()
      requires Valid()
      modifies this, nodes
      ensures Valid() && nodes == if old(nodes) == [] then [] else old(nodes)[1..]
      ensures old(nodes) != [] ==> old(nodes)[0].Unlinked()
    {
      if head == null { return; }
      assert NodeAt(0);
      var lp := head;
      if head == tail {
        head, tail := null, null;
      } else {
        head := head.next;
      }
      lp.prev, lp.next := null, null;
      lp.link := null;
      if head != null {
        head.prev := null;
      }
      nodes := nodes[1..];
      forall i | 0 <= i < |nodes| ensures NodeAt(i) {
        assert nodes[i] == old(nodes)[i + 1];
        assert old(NodeAt(i + 1));
      }
    }

    /** Everything from the other list, in its order, goes to the end of this one. */
    method Join(other: List)
      requires Valid() && other.Valid() && other != this
      modifies this, nodes, other, other.nodes
      ensures Valid() && nodes == old(nodes) + old(other.nodes)
      ensures other.Valid() && other.nodes == []
    {
      if other.head == null { return; }
      ListsAreApart(this, other);
      other.Relabel(this);
      var lp := other.head;
      if tail != null {
        tail.next := lp;
        lp.prev := tail;
        tail := other.tail;
      } else {
        head, tail := other.head, other.tail;
      }
      nodes := nodes + other.nodes;
      other.head, other.tail, other.nodes := null, null, [];
      forall i | 0 <= i < |nodes| ensures NodeAt(i) {
        if i < |old(nodes)| { assert old(NodeAt(i)); } else { assert old(other.NodeAt(i - |nodes|)); }
      }
    }

    method Relabel(target: List)
      requires Valid()
      modifies nodes
      ensures forall i :: 0 <= i < |nodes| ==>
        nodes[i].link == target && nodes[i].prev == old(nodes[i].prev) && nodes[i].next == old(nodes[i].next)
    {
      var lp: Node? := head;
      forall k | 0 <= k < |nodes| ensures nodes[k].link == this { assert NodeAt(k); }
      ghost var i := 0;
      while lp != null
        invariant 0 <= i <= |nodes| && (if i == |nodes| then lp == null else lp == nodes[i])
        invariant forall k :: 0 <= k < |nodes| ==>
          nodes[k].link == (if k < i then target else this)
            && nodes[k].prev == old(nodes[k].prev) && nodes[k].next == old(nodes[k].next)
        decreases |nodes| - i
      {
        assert old(NodeAt(i));
        lp.link := target;
        lp := lp.next;
        i := i + 1;
      }
    }
  }

  /** No node is in two lists, and in its list it has one place. */
  lemma ListsAreApart(a: List, b: List)
    requires a.Valid() && b.Valid()
    ensures forall i, j :: 0 <= i < |a.nodes| && 0 <= j < |b.nodes| && a.nodes[i] == b.nodes[j] ==> a == b && i == j
  {
    forall i, j | 0 <= i < |a.nodes| && 0 <= j < |b.nodes| && a.nodes[i] == b.nodes[j] ensures a == b && i == j {
      assert a.NodeAt(i) && b.NodeAt(j);
    }
  }

  /** RemoveFromLink: takes the node out of whatever list it is in, from either end or the middle. */
  method RemoveFromLink(ap: Node, ghost at: nat)
    requires ap.link != null ==> ap.link.Valid() && at < |ap.link.nodes| && ap.link.nodes[at] == ap
    modifies ap, ap.link, if ap.link == null then {} else set n | n in ap.link.nodes
    ensures old(ap.link) == null ==> unchanged(ap)
    ensures old(ap.link) != null ==>
      && ap.Unlinked() && old(ap.link).Valid()
      && old(ap.link).nodes == old(ap.link.nodes)[..at] + old(ap.link.nodes)[at + 1..]
  {
    var lst := ap.link;
    if lst == null { return; }
    assert lst.NodeAt(at);
    if ap == lst.head {
      lst.head := ap.next;
      if lst.head != null {
        lst.head.prev := null;
      }
    } else if ap.prev != null {
      ap.prev.next := ap.next;
    }
    if ap == lst.tail {
      lst.tail := ap.prev;
      if lst.tail != null {
        lst.tail.next := null;
      }
    } else {
      ap.next.prev := ap.prev;
    }
    ap.prev, ap.next := null, null;
    ap.link := null;
    lst.nodes := lst.nodes[..at] + lst.nodes[at + 1..];
    forall i | 0 <= i < |lst.nodes| ensures lst.NodeAt(i) {
      var k := if i < at then i else i + 1;
      assert lst.nodes[i] == old(ap.link.nodes)[k];
      assert old(ap.link.NodeAt(k));
    }
  }
}
