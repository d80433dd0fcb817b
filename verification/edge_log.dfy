/** The entries of one edge block, what a reader makes of them, and the ordered edge
    list that put_edge and del_edge are meant to maintain. */
module EdgeLog {
  import opened Timestamps

  type Vertex = nat
  type Bytes = seq<int>

  /** A slot of an edge block, oldest slot first. */
  datatype Entry = Entry(dst: Vertex, data: Bytes, cre: int, del: int)

  datatype Edge = Edge(dst: Vertex, data: Bytes)

  function EdgeOf(e: Entry): Edge {
    Edge(e.dst, e.data)
  }

  predicate Seen(e: Entry, r: int, t: TxnId) {
    Reached(e.cre, r, t) && !Reached(e.del, r, t)
  }

  /** The edges a reader sees, newest first. */
  function View(es: seq<Entry>, r: int, t: TxnId): seq<Edge> {
    if es == [] then []
    else
      var k := |es| - 1;
      (if Seen(es[k], r, t) then [EdgeOf(es[k])] else []) + View(es[..k], r, t)
  }

  /** The newest seen entry with the given destination, or -1. */
  function FindIdx(es: seq<Entry>, dst: Vertex, r: int, t: TxnId): (i: int)
    ensures -1 <= i < |es|
    ensures 0 <= i ==> es[i].dst == dst && Seen(es[i], r, t)
    ensures forall j :: i < j < |es| ==> !(es[j].dst == dst && Seen(es[j], r, t))
  {
    if es == [] then -1
    else
      var k := |es| - 1;
      if es[k].dst == dst && Seen(es[k], r, t) then k
      else FindIdx(es[..k], dst, r, t)
  }

  // ---------------------------------------------------------------------------
  // The specification: an ordered list, newest edge in front.

  datatype Op = Put(dst: Vertex, data: Bytes, force: bool) | Del(dst: Vertex)

  function RemoveFirst(l: seq<Edge>, dst: Vertex): seq<Edge> {
    if l == [] then []
    else if l[0].dst == dst then l[1..]
    else [l[0]] + RemoveFirst(l[1..], dst)
  }

  function ApplyOp(l: seq<Edge>, op: Op): seq<Edge> {
    match op
    case Put(dst, data, force) => [Edge(dst, data)] + (if force then l else RemoveFirst(l, dst))
    case Del(dst) => RemoveFirst(l, dst)
  }

  function ApplyOps(l: seq<Edge>, ops: seq<Op>): seq<Edge> {
    if ops == [] then l
    else ApplyOp(ApplyOps(l, ops[..|ops| - 1]), ops[|ops| - 1])
  }

  /** The payload of the first edge to `dst`, if there is one. */
  function Lookup(l: seq<Edge>, dst: Vertex): seq<Bytes> {
    if l == [] then []
    else if l[0].dst == dst then [l[0].data]
    else Lookup(l[1..], dst)
  }

  // ---------------------------------------------------------------------------
  // Facts about views.

  lemma ViewStep(es: seq<Entry>, r: int, t: TxnId)
    requires es != []
    ensures var k := |es| - 1;
      if Seen(es[k], r, t)
      then View(es, r, t) == [EdgeOf(es[k])] + View(es[..k], r, t) && View(es, r, t)[1..] == View(es[..k], r, t)
      else View(es, r, t) == View(es[..k], r, t)
  {
    var rest := View(es[..|es| - 1], r, t);
    assert [] + rest == rest;
  }

  /** Two logs that agree slot by slot on edges and visibility show the same list. */
  lemma {:induction false} ViewAgrees(es: seq<Entry>, es': seq<Entry>, r: int, t: TxnId, r': int, t': TxnId)
    requires |es| == |es'|
    requires forall j :: 0 <= j < |es| ==>
      EdgeOf(es[j]) == EdgeOf(es'[j]) || (!Seen(es[j], r, t) && !Seen(es'[j], r', t'))
    requires forall j :: 0 <= j < |es| ==> (Seen(es[j], r, t) <==> Seen(es'[j], r', t'))
    ensures View(es, r, t) == View(es', r', t')
  {
    if es == [] {
    } else {
      ViewAgrees(es[..|es| - 1], es'[..|es| - 1], r, t, r', t');
    }
  }

  lemma {:induction false} ViewUnseenTail(es: seq<Entry>, k: nat, r: int, t: TxnId)
    requires k <= |es|
    requires forall j :: k <= j < |es| ==> !Seen(es[j], r, t)
    ensures View(es, r, t) == View(es[..k], r, t)
  {
    if k == |es| {
      assert es[..k] == es;
    } else {
      ViewUnseenTail(es[..|es| - 1], k, r, t);
      assert es[..|es| - 1][..k] == es[..k];
    }
  }

  /** Deleting the entry find_edge returns removes the first edge with that destination. */
  lemma {:induction false} ViewDelete(es: seq<Entry>, e: Entry, dst: Vertex, r: int, t: TxnId)
    requires FindIdx(es, dst, r, t) >= 0
    requires !Seen(e, r, t)
    ensures View(es[FindIdx(es, dst, r, t) := e], r, t) == RemoveFirst(View(es, r, t), dst)
  {
    var i, k := FindIdx(es, dst, r, t), |es| - 1;
    if i == k {
      assert es[i := e][..k] == es[..k];
    } else {
      ViewDelete(es[..k], e, dst, r, t);
      assert es[i := e][..k] == es[..k][i := e];
      ViewStep(es, r, t);
    }
  }

  lemma {:induction false} ViewMissing(es: seq<Entry>, dst: Vertex, r: int, t: TxnId)
    requires FindIdx(es, dst, r, t) < 0
    ensures RemoveFirst(View(es, r, t), dst) == View(es, r, t)
    ensures Lookup(View(es, r, t), dst) == []
  {
    if es == [] {
    } else {
      var k := |es| - 1;
      ViewMissing(es[..k], dst, r, t);
      ViewStep(es, r, t);
    }
  }

  /** find_edge answers with the payload of the first edge of the reader's list. */
  lemma {:induction false} FindIsLookup(es: seq<Entry>, dst: Vertex, r: int, t: TxnId)
    ensures var i := FindIdx(es, dst, r, t);
      Lookup(View(es, r, t), dst) == if i < 0 then [] else [es[i].data]
  {
    if es == [] {
    } else {
      var k := |es| - 1;
      FindIsLookup(es[..k], dst, r, t);
      ViewStep(es, r, t);
    }
  }

  lemma {:induction false} FindAgrees(es: seq<Entry>, dst: Vertex, r: int, r': int, t: TxnId)
    requires forall j :: 0 <= j < |es| ==> (Seen(es[j], r, t) <==> Seen(es[j], r', t))
    ensures FindIdx(es, dst, r, t) == FindIdx(es, dst, r', t)
  {
    if es == [] {
    } else {
      FindAgrees(es[..|es| - 1], dst, r, r', t);
    }
  }

  lemma ApplyOpsStep(l: seq<Edge>, ops: seq<Op>, op: Op)
    ensures ApplyOps(l, ops + [op]) == ApplyOp(ApplyOps(l, ops), op)
  {
    assert (ops + [op])[..|ops|] == ops;
  }

  // ---------------------------------------------------------------------------
  // The two copies that leave dead entries behind.

  /** What put_edge copies when a block is full: entries not deleted for the writer. */
  function CopyForGrowth(es: seq<Entry>, r: int, t: TxnId): (c: seq<Entry>)
    ensures forall j :: 0 <= j < |c| ==> !Reached(c[j].del, r, t) && c[j] in es
  {
    if es == [] then []
    else
      var k := |es| - 1;
      CopyForGrowth(es[..k], r, t) + (if Reached(es[k].del, r, t) then [] else [es[k]])
  }

  /** What compaction at epoch `e` copies: entries whose deletion lies after `e`. */
  function CopyForCompaction(es: seq<Entry>, e: int): (c: seq<Entry>)
    ensures |c| <= |es|
    ensures forall j :: 0 <= j < |c| ==> CmpNoLocal(c[j].del, e) > 0 && c[j] in es
  {
    if es == [] then []
    else
      var k := |es| - 1;
      CopyForCompaction(es[..k], e) + (if CmpNoLocal(es[k].del, e) > 0 then [es[k]] else [])
  }

  lemma {:induction false} GrowthKeepsView(es: seq<Entry>, r: int, t: TxnId, r': int)
    requires forall j :: 0 <= j < |es| && Reached(es[j].del, r, t) ==> Reached(es[j].del, r', t)
    ensures View(CopyForGrowth(es, r, t), r', t) == View(es, r', t)
  {
    if es == [] {
    } else {
      var k := |es| - 1;
      GrowthKeepsView(es[..k], r, t, r');
      var c := CopyForGrowth(es[..k], r, t);
      assert (c + [es[k]])[..|c|] == c;
      assert c + [] == c;
    }
  }

  lemma {:induction false} CompactionKeepsView(es: seq<Entry>, e: int, r: int, t: TxnId)
    requires 0 < t && e <= r
    requires forall j :: 0 <= j < |es| ==> 0 <= es[j].del
    ensures View(CopyForCompaction(es, e), r, t) == View(es, r, t)
  {
    if es != [] {
      var k := |es| - 1;
      CompactionKeepsView(es[..k], e, r, t);
      var c := CopyForCompaction(es[..k], e);
      ReachedMeaning(es[k].del, r, t);
      ReachedMeaning(es[k].del, e, t);
      hide Cmp, CmpNoLocal, Reached;
      ViewStep(es, r, t);
      ViewStep(c + [es[k]], r, t);
      assert (c + [es[k]])[..|c|] == c;
      assert c + [] == c;
    }
  }

  /** Nothing was dropped exactly when no entry is dead at `e`. */
  lemma {:induction false} CompactionDrops(es: seq<Entry>, e: int)
    ensures |CopyForCompaction(es, e)| == |es| <==> forall j :: 0 <= j < |es| ==> CmpNoLocal(es[j].del, e) > 0
  {
    if es == [] {
    } else {
      CompactionDrops(es[..|es| - 1], e);
    }
  }

  /** Overwrite slot `k`, or extend the log by it. */
  function WriteSlot(es: seq<Entry>, k: nat, e: Entry): (es': seq<Entry>)
    requires k <= |es|
    ensures |es'| == if k < |es| then |es| else k + 1
    ensures es'[k] == e
    ensures forall j :: 0 <= j < |es| && j != k ==> es'[j] == es[j]
    ensures es'[..k] == es[..k] && es'[..k + 1] == es[..k] + [e]
  {
    if k < |es| then es[k := e] else es + [e]
  }
}
