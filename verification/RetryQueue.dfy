/** The linked queue of pkg/backend/retry/queue.go. */
module RetryQueue {

  class EventNode<T> {
    const event: T
    var next: EventNode?<T>

    constructor (event: T)
      ensures this.event == event && next == null
    {
      this.event := event;
      next := null;
    }
  }

  class EventQueue<T> {
    var queueSize: int
    var head: EventNode?<T>
    var tail: EventNode?<T>
    /** the nodes from head to tail */
    ghost var nodes: seq<EventNode<T>>
    /** every node the queue ever had */
    ghost var repr: set<EventNode<T>>
    /** the queued events, oldest first */
    ghost var contents: seq<T>

    ghost predicate Valid()
      reads this, repr
    {
      && (forall i :: 0 <= i < |nodes| ==> nodes[i] in repr)
      && queueSize == |nodes| == |contents|
      && (forall i :: 0 <= i < |nodes| ==> nodes[i].event == contents[i])
      && (nodes == [] ==> head == null && tail == null)
      && (nodes != [] ==> head == nodes[0] && tail == nodes[|nodes| - 1] && nodes[|nodes| - 1].next == null)
      && (forall i :: 0 <= i < |nodes| - 1 ==> nodes[i].next == nodes[i + 1])
      && (forall i, j :: 0 <= i < j < |nodes| ==> nodes[i] != nodes[j])
    }

    constructor ()
      ensures Valid() && contents == [] && repr == {}
    {
      queueSize, head, tail := 0, null, null;
      nodes, contents, repr := [], [], {};
    }

    method Push(event: T)
      requires Valid()
      modifies this, repr
      ensures Valid() && contents == old(contents) + [event]
      ensures fresh(repr - old(repr))
    {
      var node := new EventNode(event);
      queueSize := queueSize + 1;
      if head == null {
        head := node;
      }
      if tail != null {
        tail.next := node;
      }
      tail := node;
      nodes, contents, repr := nodes + [node], contents + [event], repr + {node};
    }

    /** The caller has just seen a head; an empty queue would crash here. */
    method Pop()
      requires Valid() && contents != []
      modifies this
      ensures Valid() && contents == old(contents)[1..]
      ensures repr == old(repr)
    {
      queueSize := queueSize - 1;
      if queueSize == 0 {
        head, tail := null, null;
        nodes, contents := [], [];
        return;
      }
      head := head.next;
      nodes, contents := nodes[1..], contents[1..];
    }

    method GetHead() returns (node: EventNode?<T>)
      requires Valid()
      ensures node == null <==> contents == []
      ensures node != null ==> node.event == contents[0]
    {
      return head;
    }

    /** `MinRevision`: the revision of the head, 0 when there is none */
    method MinRevision(revision: T -> nat) returns (r: nat)
      requires Valid()
      ensures r == if contents == [] then 0 else revision(contents[0])
    {
      var node := GetHead();
      return if node == null then 0 else revision(node.event);
    }
  }
}
