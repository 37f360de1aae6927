/** The swap file as the simulator keeps it: a linked list of saved pages, the newest at its head. */
module VmSwapList {
  import opened Wrappers
  import opened VmState

  class SwapNode {
    const owner: Owner
    const data: Page
    var next: SwapNode?

    constructor (owner: Owner, data: Page, next: SwapNode?)
      ensures this.owner == owner && this.data == data && this.next == next
    {
      this.owner, this.data, this.next := owner, data, next;
    }
  }

  /** `head` starts the chain of exactly these nodes, and the last one ends it. */
  ghost predicate Chain(head: SwapNode?, nodes: seq<SwapNode>)
    reads nodes`next
  {
    && (nodes == [] <==> head == null)
    && (nodes != [] ==> head == nodes[0] && nodes[|nodes| - 1].next == null)
    && forall i :: 0 <= i < |nodes| - 1 ==> nodes[i].next == nodes[i + 1]
  }

  /** The pages that the nodes save. */
  ghost function SavedBy(nodes: seq<SwapNode>): (pages: seq<SwapPage>)
    ensures |pages| == |nodes|
  {
    seq(|nodes|, i requires 0 <= i < |nodes| => SwapPage(nodes[i].owner, nodes[i].data))
  }

  lemma SavedByWithout(nodes: seq<SwapNode>, k: nat)
    requires k < |nodes|
    ensures SavedBy(Without(nodes, k)) == Without(SavedBy(nodes), k)
  {
  }

  class SwapList {
    var head: SwapNode?
    ghost var nodes: seq<SwapNode>
    ghost var repr: set<SwapNode>
    /** The saved pages, in the order of the list. */
    ghost var saved: seq<SwapPage>

    ghost predicate Valid()
      reads this, repr
    {
      && repr == (set n | n in nodes)
      && Distinct(nodes)
      && saved == SavedBy(nodes)
      && Chain(head, nodes)
    }

    constructor ()
      ensures Valid() && saved == [] && repr == {}
    {
      head, nodes, repr, saved := null, [], {}, [];
    }

    /** A new node in front of the head. */
    method Push(o: Owner, data: Page)
      requires Valid()
      modifies this
      ensures Valid() && fresh(repr - old(repr))
      ensures saved == [SwapPage(o, data)] + old(saved)
    {
      var newp := new SwapNode(o, data, head);
      head := newp;
      nodes := [newp] + nodes;
      repr := repr + {newp};
      saved := [SwapPage(o, data)] + saved;
    }

    /** Walks the list with the node before, and unlinks the first saved copy of a page. */
    method Take(o: Owner) returns (data: Option<Page>)
      requires Valid()
      modifies this, repr
      ensures Valid() && repr <= old(repr)
      ensures var k := FindSwap(old(saved), o, 0);
        && data == (if k < |old(saved)| then Some(old(saved)[k].data) else None)
        && saved == Remove(old(saved), o)
    {
      var prev: SwapNode? := null;
      var curr := head;
      ghost var k := 0;
      while curr != null && curr.owner != o
        invariant 0 <= k <= |nodes| && curr == (if k < |nodes| then nodes[k] else null)
        invariant prev == if k == 0 then null else nodes[k - 1]
        invariant FindSwap(saved, o, 0) == FindSwap(saved, o, k)
        decreases |nodes| - k
      {
        assert k + 1 < |nodes| ==> nodes[k].next == nodes[k + 1];
        prev := curr;
        curr := curr.next;
        k := k + 1;
      }
      if curr == null {
        return None;
      }
      data := Some(curr.data);
      Unlink(prev, curr, k);
    }

    /** The pointers that go around `curr`. */
    method Bypass(prev: SwapNode?, curr: SwapNode, ghost k: nat)
      requires Valid() && k < |nodes| && curr == nodes[k] && prev == if k == 0 then null else nodes[k - 1]
      modifies this`head, repr
      ensures Chain(head, Without(nodes, k))
    {
      assert k + 1 < |nodes| ==> nodes[k].next == nodes[k + 1];
      if prev == null {
        head := curr.next;
      } else {
        prev.next := curr.next;
      }
    }

    method Unlink(prev: SwapNode?, curr: SwapNode, ghost k: nat)
      requires Valid() && k < |nodes| && curr == nodes[k] && prev == if k == 0 then null else nodes[k - 1]
      modifies this, repr
      ensures Valid() && repr <= old(repr) && saved == Without(old(saved), k)
    {
      hide Chain, Distinct, SavedBy;
      WithoutElements(nodes, k);
      SavedByWithout(nodes, k);
      Bypass(prev, curr, k);
      nodes := Without(nodes, k);
      saved := Without(saved, k);
      repr := repr - {curr};
    }
  }
}
