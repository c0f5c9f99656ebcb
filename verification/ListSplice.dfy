/** The kernel's circular, doubly linked lists, and how the driver moves one to a new head. */
module ListSplice {

  class ListEntry {
    var flink: ListEntry?
    var blink: ListEntry?

    constructor ()
      ensures Circular(this, [])
    {
      flink := this;
      blink := this;
    }

    method InitializeListHead()
      modifies this
      ensures Circular(this, [])
    {
      flink, blink := this, this;
    }
  }

  /** Position 0 of the ring is the head, and so is the position after the last node. */
  function RingAt(head: ListEntry, nodes: seq<ListEntry>, i: nat): ListEntry
    requires i <= |nodes| + 1
  {
    if i == 0 || i == |nodes| + 1 then head else nodes[i - 1]
  }

  /** The head starts a list of exactly these nodes, whichever way it is walked. */
  ghost predicate Circular(head: ListEntry, nodes: seq<ListEntry>)
    reads head, nodes
  {
    && head !in nodes
    && (forall i, j :: 0 <= i < j < |nodes| ==> nodes[i] != nodes[j])
    && forall i {:trigger RingAt(head, nodes, i)} :: 0 <= i <= |nodes| ==>
         && RingAt(head, nodes, i).flink == RingAt(head, nodes, i + 1)
         && RingAt(head, nodes, i + 1).blink == RingAt(head, nodes, i)
  }

  /** A head has only one list: the links leave no choice of nodes or order. */
  lemma {:induction false} CircularUnique(head: ListEntry, nodes: seq<ListEntry>, nodes': seq<ListEntry>, n: nat)
    requires Circular(head, nodes) && Circular(head, nodes')
    requires n <= |nodes| && n <= |nodes'|
    ensures nodes[..n] == nodes'[..n]
    ensures n == |nodes| || n == |nodes'| ==> nodes == nodes'
  {
    if n > 0 {
      CircularUnique(head, nodes, nodes', n - 1);
    }
    assert RingAt(head, nodes, n) == RingAt(head, nodes', n) by {
      if n > 0 {
        assert RingAt(head, nodes, n - 1) == RingAt(head, nodes', n - 1);
      }
    }
    assert RingAt(head, nodes, n + 1) == RingAt(head, nodes', n + 1);
  }

  /** Moves the list of `src` to `dest`. With `dest` and `src` the same, the nodes are lost. */
  method ReparentList(dest: ListEntry, src: ListEntry, ghost nodes: seq<ListEntry>)
    requires Circular(src, nodes)
    requires dest !in nodes
    modifies dest, src, nodes
    ensures Circular(src, [])
    ensures Circular(dest, if dest == src then [] else nodes)
  {
    assert RingAt(src, nodes, 0) == src && RingAt(src, nodes, |nodes| + 1) == src;
    if src.flink == src {
      assert nodes == [] by {
        assert src.flink == RingAt(src, nodes, 1);
      }
      dest.InitializeListHead();
      return;
    }
    assert nodes != [];
    assert RingAt(src, nodes, |nodes|) == nodes[|nodes| - 1];
    assert src.flink == nodes[0] && src.blink == nodes[|nodes| - 1];
    dest.flink, dest.blink := src.flink, src.blink;
    dest.flink.blink := dest;
    dest.blink.flink := dest;
    src.InitializeListHead();
    if dest != src {
      forall i | 0 <= i <= |nodes|
        ensures RingAt(dest, nodes, i).flink == RingAt(dest, nodes, i + 1)
        ensures RingAt(dest, nodes, i + 1).blink == RingAt(dest, nodes, i)
      {
        assert old(RingAt(src, nodes, i).flink) == RingAt(src, nodes, i + 1);
        assert old(RingAt(src, nodes, i + 1).blink) == RingAt(src, nodes, i);
      }
    }
  }
}
