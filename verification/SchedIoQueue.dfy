/** The I/O queue of the simulator: a linked list with a head and a tail pointer. */
module SchedIoQueue {
  import opened Wrappers
  import opened SchedSim
  import opened SchedMachine

  class IoRequest {
    const pcb: Pcb
    var executionTime: nat
    var next: IoRequest?

    constructor (pcb: Pcb, executionTime: nat)
      ensures this.pcb == pcb && this.executionTime == executionTime && next == null
    {
      this.pcb, this.executionTime, next := pcb, executionTime, null;
    }
  }

  /** `head` starts the chain of exactly these requests, and `tail` is the last one. */
  ghost predicate Chain(head: IoRequest?, tail: IoRequest?, nodes: seq<IoRequest>)
    reads nodes`next
  {
    && (nodes == [] <==> head == null) && (nodes == [] <==> tail == null)
    && (nodes != [] ==> head == nodes[0] && tail == nodes[|nodes| - 1] && tail.next == null)
    && forall i :: 0 <= i < |nodes| - 1 ==> nodes[i].next == nodes[i + 1]
  }

  class IoQueue {
    var head: IoRequest?
    var tail: IoRequest?
    ghost var nodes: seq<IoRequest>
    ghost var repr: set<IoRequest>
    /** The requests, in the order of the list. */
    ghost var requests: seq<Request>

    ghost predicate Valid()
      reads this, repr
    {
      && repr == (set n | n in nodes)
      && Distinct(nodes)
      && |requests| == |nodes|
      && (forall i :: 0 <= i < |nodes| ==> requests[i] == Request(nodes[i].pcb.pid, nodes[i].executionTime))
      && Chain(head, tail, nodes)
    }

    constructor ()
      ensures Valid() && requests == [] && nodes == []
    {
      head, tail, nodes, repr, requests := null, null, [], {}, [];
    }

    /** A new request behind the tail. */
    method Submit(pcb: Pcb, executionTime: nat)
      requires Valid()
      modifies this, repr
      ensures Valid() && fresh(repr - old(repr))
      ensures requests == old(requests) + [Request(pcb.pid, executionTime)]
      ensures |nodes| == |old(nodes)| + 1 && nodes[..|old(nodes)|] == old(nodes) && nodes[|old(nodes)|].pcb == pcb
    {
      var r := new IoRequest(pcb, executionTime);
      if tail != null {
        tail.next := r;
        tail := r;
      } else {
        head, tail := r, r;
      }
      nodes := nodes + [r];
      repr := repr + {r};
      requests := requests + [Request(pcb.pid, executionTime)];
    }

    /** The head request runs for one tick. */
    method RunHead()
      requires Valid() && requests != [] && requests[0].time > 0
      modifies this`requests, repr
      ensures Valid() && nodes == old(nodes) && repr == old(repr)
      ensures requests == [Request(old(requests)[0].pid, old(requests)[0].time - 1)] + old(requests)[1..]
    {
      assert head == nodes[0];
      head.executionTime := head.executionTime - 1;
      requests := [Request(requests[0].pid, requests[0].time - 1)] + requests[1..];
    }

    /** Takes the head request off. */
    method RemoveHead() returns (pcb: Pcb)
      requires Valid() && requests != []
      modifies this
      ensures Valid() && repr <= old(repr)
      ensures requests == old(requests)[1..] && nodes == old(nodes)[1..] && pcb == old(nodes)[0].pcb
    {
      assert |nodes| > 1 ==> nodes[0].next == nodes[1];
      var completed := head;
      pcb := completed.pcb;
      head := completed.next;
      if head == null {
        tail := null;
      }
      DistinctTail(nodes);
      repr := repr - {completed};
      nodes := nodes[1..];
      requests := requests[1..];
    }
  }

  lemma DistinctTail<T>(q: seq<T>)
    requires q != [] && Distinct(q)
    ensures Distinct(q[1..]) && forall x :: x in q[1..] <==> x in q && x != q[0]
  {
    WithoutElements(q, 0);
    assert Without(q, 0) == q[1..];
  }
}
