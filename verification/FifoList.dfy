/** The queue as a linked list with a head, a tail and a closed flag, updated in place. */
module FifoList {
  import opened Fifo

  class Node {
    var data: Msg
    var next: Node?

    constructor (data: Msg)
      ensures this.data == data && next == null
    {
      this.data := data;
      this.next := null;
    }
  }

  class Queue {
    var head: Node?
    var tail: Node?
    var closed: bool
    ghost var nodes: seq<Node>

    /** head, tail and the next links spell out `nodes`. */
    ghost predicate Valid()
      reads this, nodes
    {
      && (forall i, j | 0 <= i < j < |nodes| :: nodes[i] != nodes[j])
      && head == (if nodes == [] then null else nodes[0])
      && tail == (if nodes == [] then null else nodes[|nodes| - 1])
      && (forall i, j | 0 <= i < j < |nodes| && j == i + 1 :: nodes[i].next == nodes[j])
      && (nodes != [] ==> nodes[|nodes| - 1].next == null)
    }

    ghost function Items(): seq<Msg>
      reads this, nodes
    {
      seq(|nodes|, i requires 0 <= i < |nodes| reads this, nodes => nodes[i].data)
    }

    ghost function Value(): Q
      reads this, nodes
    {
      Q(Items(), closed)
    }

    constructor ()
      ensures Valid() && Value() == Q([], false) && nodes == []
    {
      head, tail, closed := null, null, false;
      nodes := [];
    }

    method Push(m: Msg)
      requires Valid()
      modifies this, nodes
      ensures Valid() && Value() == Fifo.Push(old(Value()), m)
      ensures fresh(set n | n in nodes && n !in old(nodes))
    {
      var node := new Node(m);
      if closed {
        assert Items() == old(Items());
        return;
      }
      if tail != null {
        tail.next := node;
        tail := node;
      } else {
        head := node;
        tail := node;
      }
      nodes := nodes + [node];
      assert Items() == old(Items()) + [m];
    }

    /** One pass of queue_pop's loop; on Wait the caller goes to sleep and comes back. */
    method Pop() returns (r: PopResult)
      requires Valid()
      modifies this
      ensures Valid() && (r, Value()) == Fifo.Pop(old(Value()))
      ensures forall n | n in nodes :: n in old(nodes)
    {
      if head == null {
        assert Items() == old(Items()) == [];
        return if closed then Drained else Wait;
      }
      var node := head;
      head := node.next;
      if head == null {
        tail := null;
      }
      r := Item(node.data);
      nodes := nodes[1..];
      assert Items() == old(Items())[1..];
    }

    method Close()
      requires Valid()
      modifies this`closed
      ensures Valid() && Value() == Fifo.Close(old(Value()))
    {
      closed := true;
      assert Items() == old(Items());
    }
  }
}
