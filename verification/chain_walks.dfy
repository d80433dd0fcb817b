/** The two loops over a version chain, in place: a reader's search for its block, and the
    compactor's cut. */
module ChainWalks {
  import opened Timestamps
  import opened VersionedList

  /** locate_edge_block, once the label entry has been found: the newest block of the chain
      that has been created for the reader; every newer one has not. */
  method LocateBlock(heap: array<Block>, head: int, r: int, t: TxnId) returns (p: int)
    requires WfHeap(heap[..]) && -1 <= head < heap.Length
    ensures p == Locate(heap[..], head, r, t)
    ensures 0 <= p ==> p in Chain(heap[..], head) && Reached(heap[p].cre, r, t)
    ensures forall b :: b in Chain(heap[..], head) && b > p ==> !Reached(heap[b].cre, r, t)
  {
    p := head;
    while p >= 0
      invariant -1 <= p < heap.Length && Locate(heap[..], p, r, t) == Locate(heap[..], head, r, t)
      invariant forall b :: b in Chain(heap[..], p) ==> b in Chain(heap[..], head)
      invariant forall b :: b in Chain(heap[..], head) && b !in Chain(heap[..], p) ==> !Reached(heap[b].cre, r, t)
      decreases p
    {
      assert heap[p] == heap[..][p];
      if Cmp(heap[p].cre, r, t) <= 0 {
        break;
      }
      p := heap[p].prev;
    }
  }

  lemma EmptyChain(heap: seq<Block>)
    requires WfHeap(heap)
    ensures Chain(heap, -1) == {}
  {
  }

  lemma ChainStep(heap: seq<Block>, p: int)
    requires WfHeap(heap) && 0 <= p < |heap|
    ensures forall b :: b in Chain(heap, p) <==> b == p || b in Chain(heap, heap[p].prev)
  {
  }

  /** Everything on the chain from `p`, newest first: what is handed to the allocator. */
  method CollectChain(heap: array<Block>, p: int) returns (garbage: seq<int>)
    requires WfHeap(heap[..]) && -1 <= p < heap.Length
    ensures forall b :: b in garbage <==> b in Chain(heap[..], p)
    ensures forall i, j :: 0 <= i < j < |garbage| ==> garbage[i] != garbage[j]
  {
    hide Chain;
    EmptyChain(heap[..]);
    garbage := [];
    var q := p;
    while q >= 0
      invariant -1 <= q <= p
      invariant forall i :: 0 <= i < |garbage| ==> q < garbage[i]
      invariant forall b :: b in Chain(heap[..], p) <==> b in garbage || b in Chain(heap[..], q)
      invariant forall i, j :: 0 <= i < j < |garbage| ==> garbage[i] != garbage[j]
      decreases q
    {
      assert heap[q] == heap[..][q];
      ChainStep(heap[..], q);
      garbage := garbage + [q];
      q := heap[q].prev;
    }
  }

  /** compact_n2o_blocks: cut below the first block older than `e`, free the rest, each
      block once, and come back later if there is something to cut with a larger epoch.
      On the list `L` this is the compaction step of the protocol. */
  method CompactChain(heap: array<Block>, head: int, e: int, ghost L: List) returns (freed: seq<int>, future: bool)
    requires WfHeap(heap[..]) && -1 <= head < heap.Length && L.heap == heap[..] && L.head == head
    modifies heap
    ensures heap[..] == Cut(L, e).heap && Cut(L, e).head == head
    ensures forall b :: b in Cut(L, e).freed <==> b in L.freed || b in freed
    ensures forall i, j :: 0 <= i < j < |freed| ==> freed[i] != freed[j]
    ensures future <==> FirstOlder(L.heap, head, e) != head && 0 <= L.heap[head].prev
  {
    freed, future := [], false;
    ghost var before := heap[..];
    var p := head;
    while p >= 0
      invariant -1 <= p <= head && heap[..] == before && freed == []
      invariant FirstOlder(before, p, e) == FirstOlder(before, head, e)
      invariant p != head ==> FirstOlder(before, head, e) != head && (future <==> 0 <= before[head].prev)
      invariant p == head ==> !future
      invariant 0 <= p != head ==> 0 <= before[head].prev
      decreases p
    {
      assert heap[p] == before[p];
      if CmpNoLocal(heap[p].cre, e) < 0 {
        freed := CollectChain(heap, heap[p].prev);
        heap[p] := heap[p].(prev := -1);
        break;
      }
      p := heap[p].prev;
      if p >= 0 {
        future := true;
      }
    }
  }
}
