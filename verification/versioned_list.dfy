/** One (src, label) edge list: a heap of blocks linked from newest to oldest, the
    writer that currently holds the lock on src, and every single write that the
    transaction and the compactor make to it. */
module VersionedList {
  import opened Timestamps
  import opened EdgeLog

  /** A block: creation and committed stamps, link to the previous version, the published
      number of entries and the slots, some of which may lie beyond that number. */
  datatype Block = Block(cre: int, com: int, prev: int, n: nat, es: seq<Entry>)

  /** A stamp that a transaction has to finish: an element of timestamps_to_update. */
  datatype Loc = BlockCre(b: nat) | BlockCom(b: nat) | EntryCre(b: nat, i: nat) | EntryDel(b: nat, i: nat)

  /** A committed transaction's part in this list. */
  datatype Item = Item(txn: TxnId, read: int, epoch: int, ops: seq<Op>)

  datatype Mode = Active | Committing(epoch: int) | Aborting

  /** How far the current put_edge or del_edge has got: nothing running, about to look for
      the previous edge, or about to write the new entry (del_edge: to finish). */
  datatype Stage = Ready | Finding(op: Op) | Adding(op: Op)

  /** The lock holder's private state for this list.  `ptr` is its cached block, `cnt` its
      cached entry counts, `todo` its stamps to finish.  `floor` is the heap size and `home`
      the head when it first touched the list; `ops` is what it has completed since.
      `tails` and `headDone` track the writes of commit. */
  datatype Writer = Writer(
    id: TxnId, read: int, floor: nat, home: int, ptr: int, cnt: map<int, nat>, todo: seq<Loc>,
    ops: seq<Op>, stage: Stage, mode: Mode, tails: set<int>, headDone: bool)

  datatype Owner = Nobody | By(w: Writer)

  /** `hist`, `base` and `low` are history: the committed updates in order, the bulk-loaded
      list, and a bound below which no reader is left. */
  datatype List = List(
    heap: seq<Block>, head: int, freed: set<int>, base: seq<Edge>, hist: seq<Item>, low: int, owner: Owner)

  // ---------------------------------------------------------------------------
  // Reading.

  predicate WfHeap(heap: seq<Block>) {
    forall i {:trigger heap[i]} :: 0 <= i < |heap| ==> -1 <= heap[i].prev < i && heap[i].n <= |heap[i].es|
  }

  /** The newest block on the chain from `p` that has been created for the reader. */
  function Locate(heap: seq<Block>, p: int, r: int, t: TxnId): (q: int)
    requires WfHeap(heap) && -1 <= p < |heap|
    ensures -1 <= q <= p
    ensures 0 <= q ==> Reached(heap[q].cre, r, t)
    decreases p
  {
    if p < 0 || Reached(heap[p].cre, r, t) then p else Locate(heap, heap[p].prev, r, t)
  }

  /** The edge list a reader of transaction `t` at epoch `r` iterates over. */
  function ReadAt(heap: seq<Block>, head: int, r: int, t: TxnId): seq<Edge>
    requires WfHeap(heap) && -1 <= head < |heap|
  {
    var p := Locate(heap, head, r, t);
    if p < 0 then [] else View(heap[p].es[..heap[p].n], r, t)
  }

  /** The specification of a read at epoch `r`: the committed updates up to `r`, in order. */
  function Snapshot(base: seq<Edge>, hist: seq<Item>, r: int): seq<Edge> {
    if hist == [] then base
    else
      var last := hist[|hist| - 1];
      var before := Snapshot(base, hist[..|hist| - 1], r);
      if last.epoch <= r then ApplyOps(before, last.ops) else before
  }

  // ---------------------------------------------------------------------------
  // The writer's steps.

  /** The first writer of a list aborts when the head was committed after it began. */
  predicate NoConflict(L: List, t: TxnId, read: int)
    requires -1 <= L.head < |L.heap|
  {
    L.head < 0 || Reached(L.heap[L.head].com, read, t)
  }

  function Touch(L: List, t: TxnId, read: int): List
    requires WfHeap(L.heap) && -1 <= L.head < |L.heap|
  {
    var ptr := Locate(L.heap, L.head, read, t);
    L.(owner := By(Writer(t, read, |L.heap|, L.head, ptr, map[], [], [], Ready, Active, {}, false)))
  }

  /** The entry count the transaction works with: cached, or the block's own. */
  function Cnt(L: List, b: int): nat
    requires L.owner.By? && 0 <= b < |L.heap|
  {
    if b in L.owner.w.cnt then L.owner.w.cnt[b] else L.heap[b].n
  }

  /** The slots of the cached block that the transaction works with. */
  function Current(L: List): seq<Entry>
    requires L.owner.By? && 0 <= L.owner.w.ptr < |L.heap|
    requires Cnt(L, L.owner.w.ptr) <= |L.heap[L.owner.w.ptr].es|
  {
    L.heap[L.owner.w.ptr].es[..Cnt(L, L.owner.w.ptr)]
  }

  predicate Working(L: List) {
    && L.owner.By?
    && L.owner.w.mode == Active
    && -1 <= L.owner.w.ptr < |L.heap|
    && (forall b :: b in L.owner.w.cnt ==> 0 <= b < |L.heap|)
    && (0 <= L.owner.w.ptr ==> Cnt(L, L.owner.w.ptr) <= |L.heap[L.owner.w.ptr].es|)
  }

  function OwnEntries(b: nat, es: seq<Entry>, t: TxnId): (locs: seq<Loc>)
    ensures forall j {:trigger es[j]} :: 0 <= j < |es| && es[j].cre == -t ==> EntryCre(b, j) in locs
    ensures forall l :: l in locs ==> l.EntryCre? && l.b == b && l.i < |es| && es[l.i].cre == -t
  {
    if es == [] then []
    else
      var k := |es| - 1;
      OwnEntries(b, es[..k], t) + (if es[k].cre == -t then [EntryCre(b, k)] else [])
  }

  /** An operation starts on the cached block: put_edge finds space there, or del_edge. */
  function Stay(L: List, op: Op): List
    requires Working(L) && 0 <= L.owner.w.ptr && L.owner.w.stage.Ready?
  {
    L.(owner := By(L.owner.w.(stage := Finding(op))))
  }

  /** put_edge's reallocation, when there is no block or no space: a new private block in
      front of the cached one. */
  function Grow(L: List, op: Op): List
    requires Working(L) && op.Put? && L.owner.w.stage.Ready?
  {
    var w := L.owner.w;
    var es := if w.ptr < 0 then [] else CopyForGrowth(Current(L), w.read, w.id);
    var b := |L.heap|;
    L.(heap := L.heap + [Block(-w.id, -w.id, w.ptr, |es|, es)],
       owner := By(w.(ptr := b, todo := w.todo + [BlockCre(b)] + OwnEntries(b, es, w.id), stage := Finding(op))))
  }

  predicate InOp(L: List) {
    Working(L) && 0 <= L.owner.w.ptr && !L.owner.w.stage.Ready?
  }

  /** The entry the running operation replaces or deletes, or -1. */
  function Victim(L: List): (i: int)
    requires InOp(L)
    ensures -1 <= i < Cnt(L, L.owner.w.ptr)
    ensures 0 <= i ==> Seen(Current(L)[i], L.owner.w.read, L.owner.w.id)
  {
    var w := L.owner.w;
    if w.stage.op.Put? && w.stage.op.force then -1 else FindIdx(Current(L), w.stage.op.dst, w.read, w.id)
  }

  /** Mark the victim deleted by the writer, if there is one. */
  function MarkDeleted(L: List): List
    requires InOp(L) && L.owner.w.stage.Finding?
  {
    var w, i := L.owner.w, Victim(L);
    var blk := L.heap[w.ptr];
    if i < 0 then L.(owner := By(w.(stage := Adding(w.stage.op))))
    else L.(heap := L.heap[w.ptr := blk.(es := blk.es[i := blk.es[i].(del := -w.id)])],
            owner := By(w.(todo := w.todo + [EntryDel(w.ptr, i)], stage := Adding(w.stage.op))))
  }

  /** The end of put_edge: the new entry goes behind the last one. */
  function WriteEntry(L: List): List
    requires InOp(L) && L.owner.w.stage.Adding? && L.owner.w.stage.op.Put?
  {
    var w := L.owner.w;
    var k, blk := Cnt(L, w.ptr), L.heap[w.ptr];
    var e := Entry(w.stage.op.dst, w.stage.op.data, -w.id, TOMBSTONE);
    L.(heap := L.heap[w.ptr := blk.(es := WriteSlot(blk.es, k, e))],
       owner := By(w.(cnt := w.cnt[w.ptr := k + 1], todo := w.todo + [EntryCre(w.ptr, k)],
                      ops := w.ops + [w.stage.op], stage := Ready)))
  }

  /** The end of del_edge: cache the entry count, so that commit touches the block. */
  function EndDelete(L: List): List
    requires InOp(L) && L.owner.w.stage.Adding? && L.owner.w.stage.op.Del?
  {
    var w := L.owner.w;
    L.(owner := By(w.(cnt := w.cnt[w.ptr := Cnt(L, w.ptr)], ops := w.ops + [w.stage.op], stage := Ready)))
  }

  // ---------------------------------------------------------------------------
  // The single writes of commit and abort.

  predicate ValidLoc(heap: seq<Block>, l: Loc) {
    l.b < |heap| && (l.EntryCre? || l.EntryDel? ==> l.i < |heap[l.b].es|)
  }

  function StampAt(heap: seq<Block>, l: Loc): int
    requires ValidLoc(heap, l)
  {
    match l
    case BlockCre(b) => heap[b].cre
    case BlockCom(b) => heap[b].com
    case EntryCre(b, i) => heap[b].es[i].cre
    case EntryDel(b, i) => heap[b].es[i].del
  }

  function SetStamp(heap: seq<Block>, l: Loc, v: int): (heap': seq<Block>)
    requires ValidLoc(heap, l)
    ensures |heap'| == |heap|
  {
    var blk := heap[l.b];
    match l
    case BlockCre(b) => heap[b := blk.(cre := v)]
    case BlockCom(b) => heap[b := blk.(com := v)]
    case EntryCre(b, i) => heap[b := blk.(es := blk.es[i := blk.es[i].(cre := v)])]
    case EntryDel(b, i) => heap[b := blk.(es := blk.es[i := blk.es[i].(del := v)])]
  }

  /** The commit manager has assigned epoch `c`. */
  function Register(L: List, c: int): List
    requires L.owner.By?
  {
    L.(owner := By(L.owner.w.(mode := Committing(c), tails := L.owner.w.cnt.Keys)))
  }

  /** Publish the entry count of block `b`. */
  function PublishSize(L: List, b: int): List
    requires L.owner.By? && b in L.owner.w.cnt && 0 <= b < |L.heap|
  {
    L.(heap := L.heap[b := L.heap[b].(n := L.owner.w.cnt[b])])
  }

  /** Put the writer's mark on the committed time of block `b`, whose count is published. */
  function MarkTail(L: List, b: int): List
    requires L.owner.By? && 0 <= b < |L.heap|
  {
    var w := L.owner.w;
    L.(heap := L.heap[b := L.heap[b].(com := -w.id)],
       owner := By(w.(tails := w.tails - {b}, todo := w.todo + [BlockCom(b)])))
  }

  /** Swing the label entry to the cached block unless it is already there. */
  function CommitHead(L: List): List
    requires WfHeap(L.heap) && -1 <= L.head < |L.heap| && L.owner.By?
  {
    var w := L.owner.w;
    var prev := Locate(L.heap, L.head, w.read, w.id);
    L.(head := if w.ptr != prev then w.ptr else L.head, owner := By(w.(headDone := true)))
  }

  function FinalStamp(w: Writer): int {
    if w.mode.Committing? then w.mode.epoch else TOMBSTONE
  }

  /** Write the next of timestamps_to_update. */
  function FinishStamp(L: List): List
    requires L.owner.By? && L.owner.w.todo != [] && ValidLoc(L.heap, L.owner.w.todo[0])
  {
    var w := L.owner.w;
    L.(heap := SetStamp(L.heap, w.todo[0], FinalStamp(w)), owner := By(w.(todo := w.todo[1..])))
  }

  /** All writes of the commit have happened on this list: its lock can go. */
  function FinishCommit(L: List): List
    requires L.owner.By? && L.owner.w.mode.Committing?
  {
    var w := L.owner.w;
    L.(owner := Nobody,
       hist := if w.ops == [] then L.hist else L.hist + [Item(w.id, w.read, w.mode.epoch, w.ops)])
  }

  function StartAbort(L: List): List
    requires L.owner.By?
  {
    L.(owner := By(L.owner.w.(mode := Aborting)))
  }

  /** The private blocks are freed: nothing ever pointed to them. */
  function FinishAbort(L: List): List
    requires L.owner.By? && L.owner.w.floor <= |L.heap|
  {
    L.(owner := Nobody, heap := L.heap[..L.owner.w.floor])
  }

  // ---------------------------------------------------------------------------
  // Compaction.

  /** The first block of the chain that is strictly older than the epoch, or -1. */
  function FirstOlder(heap: seq<Block>, p: int, e: int): (q: int)
    requires WfHeap(heap) && -1 <= p < |heap|
    ensures -1 <= q <= p
    decreases p
  {
    if p < 0 || CmpNoLocal(heap[p].cre, e) < 0 then p else FirstOlder(heap, heap[p].prev, e)
  }

  function Chain(heap: seq<Block>, p: int): (c: set<int>)
    requires WfHeap(heap) && -1 <= p < |heap|
    ensures forall b :: b in c ==> 0 <= b <= p
    decreases p
  {
    if p < 0 then {} else {p} + Chain(heap, heap[p].prev)
  }

  /** Cut the chain below the first block older than `e` and free the rest. */
  function Cut(L: List, e: int): List
    requires WfHeap(L.heap) && -1 <= L.head < |L.heap|
  {
    var q := FirstOlder(L.heap, L.head, e);
    if q < 0 then L
    else L.(heap := L.heap[q := L.heap[q].(prev := -1)], freed := L.freed + Chain(L.heap, L.heap[q].prev),
            low := if L.low < e then e else L.low)
  }

  /** Replace the head by a copy without the entries deleted up to `e`. */
  function Rewrite(L: List, e: int): List
    requires WfHeap(L.heap) && -1 <= L.head < |L.heap|
  {
    if L.head < 0 then L
    else
      var blk := L.heap[L.head];
      var es := CopyForCompaction(blk.es[..blk.n], e);
      if |es| == blk.n then L
      else L.(heap := L.heap + [Block(e, blk.com, L.head, |es|, es)], head := |L.heap|,
              low := if L.low < e then e else L.low)
  }
}
