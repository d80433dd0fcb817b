/** A block that an iterator stands on, over a whole run: what becomes of its slots between
    two looks, and exactly when compaction frees it. */
module HeldBlocks {
  import opened Timestamps
  import opened EdgeLog
  import opened VersionedList
  import opened ListInvariant
  import opened Store
  import opened StoreInvariant
  import opened SnapshotIsolation

  /** Block `b` can be reached from the head. */
  ghost predicate OnChain(L: List, b: int) {
    WfHeap(L.heap) && -1 <= L.head < |L.heap| && b in Chain(L.heap, L.head)
  }

  lemma {:induction false} ChainAgrees(h: seq<Block>, h': seq<Block>, p: int)
    requires WfHeap(h) && WfHeap(h') && -1 <= p < |h| && p < |h'|
    requires forall i {:trigger h[i]} {:trigger h'[i]} :: 0 <= i <= p ==> h'[i].prev == h[i].prev
    ensures Chain(h', p) == Chain(h, p)
    decreases p
  {
    if p >= 0 {
      assert h'[p].prev == h[p].prev;
      ChainAgrees(h, h', h[p].prev);
    }
  }

  // ---------------------------------------------------------------------------
  // The chain: only compaction takes blocks away.

  /** The chain and the freed blocks stay as they are. */
  ghost predicate Quiet(L: List, L': List) {
    && L'.head == L.head < |L'.heap| && L.head < |L.heap| && L'.freed == L.freed
    && (forall i {:trigger L.heap[i]} {:trigger L'.heap[i]} :: 0 <= i <= L.head ==> L'.heap[i].prev == L.heap[i].prev)
  }

  lemma TurnQuiet(s: State, s': State, step: Step, k: Key)
    requires k in s.lists && Shape(s.lists[k]) && EndingStep(s, s', step) && (step.Register? || step.Abort?)
    ensures k in s'.lists && Quiet(s.lists[k], s'.lists[k])
  {
    hide Chain, ChainAvoids;
  }

  lemma StartQuiet(s: State, s': State, step: Step, k: Key)
    requires k in s.lists && Shape(s.lists[k]) && OperationStep(s, s', step)
    requires step.FirstTouch? || step.StartInPlace? || step.StartGrowing?
    ensures k in s'.lists && Quiet(s.lists[k], s'.lists[k])
  {
    hide Victim, Chain, ChainAvoids, Current, CopyForGrowth, OwnEntries, Cut, Rewrite;
  }

  lemma WriteQuiet(s: State, s': State, step: Step, k: Key)
    requires k in s.lists && Shape(s.lists[k]) && OperationStep(s, s', step)
    requires step.Mark? || step.Insert? || step.Erase?
    ensures k in s'.lists && Quiet(s.lists[k], s'.lists[k])
  {
    hide Victim, Chain, ChainAvoids, Current, Cut, Rewrite;
  }

  lemma CommitQuiet(s: State, s': State, step: Step, k: Key)
    requires k in s.lists && Shape(s.lists[k]) && EndingStep(s, s', step)
    requires step.PublishTail? || step.MarkCommitting? || step.Stamp? || step.ListCommitted?
    ensures k in s'.lists && Quiet(s.lists[k], s'.lists[k])
  {
    hide Chain, ChainAvoids, Current, Cut, Rewrite;
  }

  lemma AbortQuiet(s: State, s': State, step: Step, k: Key)
    requires Owners(s) && k in s.lists && Inv(s.lists[k]) && EndingStep(s, s', step) && step.ListAborted?
    ensures k in s'.lists && Quiet(s.lists[k], s'.lists[k])
  {
    hide Chain, ChainAvoids, Current, Cut, Rewrite, ReadersOk, HeadOk, MarksOwned, CountsOk, TodoOk, HomeOk, BlockOk;
    hide Synced, PrivateOk, ListInvariant.OwnView;
  }

  lemma StepQuiet(s: State, s': State, step: Step, k: Key)
    requires SInv(s) && NextStep(s, s', step) && k in s.lists
    requires !step.SwingHead? && !step.CompactCut? && !step.CompactRewrite?
    ensures k in s'.lists && Quiet(s.lists[k], s'.lists[k])
  {
    hide Chain, Locks, Owners, Lows, Items, Complete, Epochs, OperationStep, EndingStep, CompactionStep;
    StepKind(s, s', step);
    assert ListOk(s, k);
    if step.Register? || step.Abort? {
      TurnQuiet(s, s', step, k);
    } else if step.FirstTouch? || step.StartInPlace? || step.StartGrowing? {
      StartQuiet(s, s', step, k);
    } else if step.Mark? || step.Insert? || step.Erase? {
      WriteQuiet(s, s', step, k);
    } else if step.PublishTail? || step.MarkCommitting? || step.Stamp? || step.ListCommitted? {
      CommitQuiet(s, s', step, k);
    } else if step.ListAborted? {
      AbortQuiet(s, s', step, k);
    } else {
      assert s'.lists == s.lists;
    }
  }

  /** Swinging the head only adds the private blocks in front. */
  lemma {:induction false} PrivateChain(L: List, p: int)
    requires Shape(L) && L.owner.By? && WriterFrame(L) && PrivateOk(L)
    requires L.owner.w.floor - 1 <= p < |L.heap|
    ensures var q := if p < L.owner.w.floor then L.owner.w.home else p;
      Chain(L.heap, L.owner.w.home) <= Chain(L.heap, q)
    decreases p
  {
    var w := L.owner.w;
    if p >= w.floor {
      assert L.heap[p].prev == (if p == w.floor then w.home else p - 1);
      PrivateChain(L, p - 1);
    }
  }

  lemma SwingChain(L: List, b: int)
    requires Inv(L) && L.owner.By? && !L.owner.w.headDone && OnChain(L, b)
    ensures OnChain(CommitHead(L), b)
  {
    HeadMoves(L);
    PrivateChain(L, if L.owner.w.ptr == L.owner.w.home then L.owner.w.floor - 1 else L.owner.w.ptr);
  }

  /** A reader at `e - 1` stops above block `b`. */
  ghost predicate StopsAbove(L: List, e: int, b: int) {
    WfHeap(L.heap) && -1 <= L.head < |L.heap| && b < Locate(L.heap, L.head, e - 1, RO_TRANSACTION)
  }

  /** A block of the chain is freed by the cut at `e` exactly when a reader at epoch `e - 1`
      would stop at a newer one. */
  lemma {:induction false} FreedWhenNewerIsOld(heap: seq<Block>, p: int, e: int, b: int)
    requires WfHeap(heap) && -1 <= p < |heap| && b in Chain(heap, p)
    requires forall i {:trigger heap[i]} :: 0 <= i < |heap| ==> 0 <= heap[i].cre
    ensures var q := FirstOlder(heap, p, e);
      (0 <= q && b in Chain(heap, heap[q].prev)) <==> b < Locate(heap, p, e - 1, RO_TRANSACTION)
    decreases p
  {
    if Reached(heap[p].cre, e - 1, RO_TRANSACTION) {
    } else if b == p {
      OlderBelow(heap, heap[p].prev, e);
    } else {
      FreedWhenNewerIsOld(heap, heap[p].prev, e, b);
    }
  }

  lemma OlderBelow(heap: seq<Block>, p: int, e: int)
    requires WfHeap(heap) && -1 <= p < |heap|
    ensures var q := FirstOlder(heap, p, e); 0 <= q ==> forall b :: b in Chain(heap, heap[q].prev) ==> b < p
  {
  }

  /** What a cut leaves of the chain. */
  lemma {:induction false} CutChain(heap: seq<Block>, p: int, e: int, q: int)
    requires WfHeap(heap) && -1 <= p < |heap| && q == FirstOlder(heap, p, e) && 0 <= q
    ensures var heap' := heap[q := heap[q].(prev := -1)];
      Chain(heap', p) == Chain(heap, p) - Chain(heap, heap[q].prev)
    decreases p
  {
    var heap' := heap[q := heap[q].(prev := -1)];
    if p == q {
      assert Chain(heap', -1) == {};
    } else {
      CutChain(heap, heap[p].prev, e, q);
      assert p !in Chain(heap, heap[q].prev);
    }
  }

  /** Without a writer no block is anybody's private one. */
  lemma SettledCre(L: List)
    requires MarksOwned(L) && L.owner.Nobody?
    ensures forall i {:trigger L.heap[i]} :: 0 <= i < |L.heap| ==> 0 <= L.heap[i].cre
  {
    forall i {:trigger L.heap[i]} | 0 <= i < |L.heap|
      ensures 0 <= L.heap[i].cre
    {
      assert StampAt(L.heap, BlockCre(i)) == L.heap[i].cre;
    }
  }

  /** The cut at `e` frees block `b` of the chain if and only if a reader at `e - 1` would stop
      above it. */
  lemma CutFrees(L: List, e: int, b: int)
    requires Inv(L) && L.owner.Nobody? && OnChain(L, b)
    ensures StopsAbove(L, e, b) ==> b in Cut(L, e).freed
    ensures !StopsAbove(L, e, b) ==> OnChain(Cut(L, e), b)
  {
    SettledCre(L);
    FreedWhenNewerIsOld(L.heap, L.head, e, b);
    var q := FirstOlder(L.heap, L.head, e);
    if q >= 0 {
      CutChain(L.heap, L.head, e, q);
    }
  }

  lemma RewriteChain(L: List, e: int, b: int)
    requires Inv(L) && OnChain(L, b)
    ensures OnChain(Rewrite(L, e), b)
  {
    hide CopyForCompaction;
    var R := Rewrite(L, e);
    if R != L {
      ChainAgrees(L.heap, R.heap, L.head);
      assert R.heap[R.head].prev == L.head;
    }
  }

  lemma QuietChain(L: List, L': List, b: int)
    requires Quiet(L, L') && OnChain(L, b) && Shape(L')
    ensures OnChain(L', b)
  {
    ChainAgrees(L.heap, L'.heap, L.head);
  }

  ghost predicate CutsAbove(s: State, s': State, k: Key, e: int, b: int) {
    k in s.lists && NextStep(s, s', CompactCut(k, e)) && StopsAbove(s.lists[k], e, b)
  }

  lemma CutStep(s: State, s': State, k: Key, e: int, b: int)
    requires SInv(s) && CompactionStep(s, s', CompactCut(k, e)) && OnChain(s.lists[k], b)
    ensures k in s'.lists
    ensures StopsAbove(s.lists[k], e, b) ==> b in s'.lists[k].freed
    ensures !StopsAbove(s.lists[k], e, b) ==> OnChain(s'.lists[k], b)
  {
    hide Inv, Cut, Rewrite;
    assert ListOk(s, k) && s.lists[k].owner.Nobody?;
    CutFrees(s.lists[k], e, b);
  }

  ghost predicate WritesSlots(step: Step) {
    step.Mark? || step.Insert? || step.PublishTail? || step.Stamp?
  }

  lemma RewriteStep(s: State, s': State, k: Key, e: int)
    requires k in s.lists && CompactionStep(s, s', CompactRewrite(k, e))
    ensures WfHeap(s.lists[k].heap) && -1 <= s.lists[k].head < |s.lists[k].heap|
    ensures k in s'.lists && s'.lists[k] == Rewrite(s.lists[k], e)
  {
    hide Cut, Rewrite;
  }

  lemma SwingStep(s: State, s': State, t: TxnId, k: Key)
    requires k in s.lists && EndingStep(s, s', SwingHead(t, k))
    ensures var L := s.lists[k];
      && L.owner.By? && !L.owner.w.headDone && WfHeap(L.heap) && -1 <= L.head < |L.heap|
      && k in s'.lists && s'.lists[k] == CommitHead(L)
  {
    hide CommitHead;
  }

  /** Another list than the one that the step works on. */
  lemma OtherKey(s: State, s': State, step: Step, k: Key)
    requires NextStep(s, s', step) && k in s.lists
    requires WritesSlots(step) || step.SwingHead? || step.CompactCut? || step.CompactRewrite?
    requires step.key != k
    ensures k in s'.lists && s'.lists[k] == s.lists[k]
  {
    hide Cut, Rewrite, CommitHead, MarkDeleted, WriteEntry, PublishSize, FinishStamp, Working, OutsideStep;
    StepKind(s, s', step);
  }

  lemma StepChain(s: State, s': State, step: Step, k: Key, b: int)
    requires SInv(s) && NextStep(s, s', step) && k in s.lists && OnChain(s.lists[k], b)
    ensures k in s'.lists
    ensures if step.CompactCut? && step.key == k && StopsAbove(s.lists[k], step.epoch, b)
      then b in s'.lists[k].freed else OnChain(s'.lists[k], b)
  {
    hide Inv, Frame, Cut, Rewrite, CommitHead, Shape, OutsideStep, OperationStep, EndingStep, CompactionStep;
    StepKind(s, s', step);
    NextKeeps(s, s', step);
    assert ListOk(s, k) && ListOk(s', k);
    if step.CompactCut? && step.key == k {
      CutStep(s, s', k, step.epoch, b);
    } else if step.CompactRewrite? && step.key == k {
      RewriteStep(s, s', k, step.epoch);
      RewriteChain(s.lists[k], step.epoch, b);
    } else if step.SwingHead? && step.key == k {
      SwingStep(s, s', step.t, k);
      SwingChain(s.lists[k], b);
    } else if step.SwingHead? || step.CompactCut? || step.CompactRewrite? {
      OtherKey(s, s', step, k);
    } else {
      StepQuiet(s, s', step, k);
      assert Shape(s'.lists[k]) by { InvShape(s'.lists[k]); }
      QuietChain(s.lists[k], s'.lists[k], b);
    }
  }

  lemma InvShape(L: List)
    requires Inv(L)
    ensures Shape(L)
  {
  }

  // ---------------------------------------------------------------------------
  // The slots: nothing written under a reader shows.

  /** The entries that block `x` had published keep, in `y`, their edges and what a reader
      makes of their stamps. */
  ghost predicate SameSlots(x: Block, y: Block, r: int, t: TxnId) {
    && x.n <= |x.es| && x.n <= y.n <= |y.es|
    && forall j {:trigger x.es[j]} {:trigger y.es[j]} :: 0 <= j < x.n ==>
         EdgeOf(y.es[j]) == EdgeOf(x.es[j]) && (Seen(y.es[j], r, t) <==> Seen(x.es[j], r, t))
  }

  /** Transaction `t`, reading at `r`, is not the one that works on the list. */
  ghost predicate Outside(L: List, r: int, t: TxnId) {
    && 0 < t && 0 <= r < TOMBSTONE
    && (L.owner.By? ==> L.owner.w.id != t && (L.owner.w.mode.Committing? ==> r < L.owner.w.mode.epoch))
  }

  lemma MarkSlots(L: List, b: int, r: int, t: TxnId)
    requires Inv(L) && InOp(L) && L.owner.w.stage.Finding? && OnChain(L, b) && Outside(L, r, t)
    ensures SameSlots(L.heap[b], MarkDeleted(L).heap[b], r, t)
  {
    hide ReadAt, Snapshot, ChainAvoids, Chain, ReadersOk, HeadOk, MarksOwned, FindIdx, Victim, Current;
    var w, i := L.owner.w, Victim(L);
    if i >= 0 && b == w.ptr {
      VictimLives(L);
    }
  }

  lemma WriteSlots(L: List, b: int, r: int, t: TxnId)
    requires Inv(L) && InOp(L) && L.owner.w.stage.Adding? && L.owner.w.stage.op.Put? && OnChain(L, b)
    ensures SameSlots(L.heap[b], WriteEntry(L).heap[b], r, t)
  {
    hide ReadAt, Snapshot, ChainAvoids, ReadersOk, HeadOk, MarksOwned;
  }

  lemma SizeSlots(L: List, b: int, p: int, r: int, t: TxnId)
    requires Inv(L) && L.owner.By? && L.owner.w.mode.Committing? && p in L.owner.w.tails && OnChain(L, b)
    ensures SameSlots(L.heap[b], PublishSize(L, p).heap[b], r, t)
  {
    hide ReadAt, Snapshot, ChainAvoids, ReadersOk, HeadOk, MarksOwned;
  }

  lemma StampSlots(L: List, b: int, r: int, t: TxnId)
    requires Inv(L) && L.owner.By? && !L.owner.w.mode.Active? && L.owner.w.todo != [] && OnChain(L, b)
    requires Outside(L, r, t)
    requires ValidLoc(L.heap, L.owner.w.todo[0])
    ensures SameSlots(L.heap[b], FinishStamp(L).heap[b], r, t)
  {
    hide ReadAt, Snapshot, ChainAvoids, Chain, ReadersOk, HeadOk, MarksOwned;
    assert L.owner.w.todo[0] in L.owner.w.todo;
  }

  /** The block is not written to at all. */
  ghost predicate Untouched(L: List, L': List, b: int) {
    && 0 <= b < |L.heap| && b < |L'.heap|
    && L'.heap[b].n == L.heap[b].n && L'.heap[b].es == L.heap[b].es && L'.heap[b].cre == L.heap[b].cre
  }

  lemma UntouchedSlots(L: List, L': List, b: int, r: int, t: TxnId)
    requires WfHeap(L.heap) && Untouched(L, L', b)
    ensures SameSlots(L.heap[b], L'.heap[b], r, t)
  {
  }

  lemma StartUntouched(s: State, s': State, step: Step, k: Key, b: int)
    requires OperationStep(s, s', step) && k in s.lists && 0 <= b < |s.lists[k].heap|
    requires step.FirstTouch? || step.StartInPlace? || step.StartGrowing? || step.Erase?
    ensures k in s'.lists && Untouched(s.lists[k], s'.lists[k], b)
  {
    hide Victim, Chain, ChainAvoids, Current, CopyForGrowth, OwnEntries, Cut, Rewrite;
  }

  lemma CommitUntouched(s: State, s': State, step: Step, k: Key, b: int)
    requires EndingStep(s, s', step) && k in s.lists && 0 <= b < |s.lists[k].heap|
    requires step.MarkCommitting? || step.SwingHead? || step.ListCommitted?
    ensures k in s'.lists && Untouched(s.lists[k], s'.lists[k], b)
  {
    hide Victim, Chain, ChainAvoids, Current, CopyForGrowth, OwnEntries, Cut, Rewrite, Locate;
  }

  lemma TurnUntouched(s: State, s': State, step: Step, k: Key, b: int)
    requires EndingStep(s, s', step) && k in s.lists && 0 <= b < |s.lists[k].heap| && (step.Register? || step.Abort?)
    ensures k in s'.lists && Untouched(s.lists[k], s'.lists[k], b)
  {
    hide Victim, Chain, ChainAvoids, Current, CopyForGrowth, OwnEntries, Cut, Rewrite, Locate;
  }

  lemma CompactUntouched(s: State, s': State, step: Step, k: Key, b: int)
    requires CompactionStep(s, s', step) && k in s.lists && 0 <= b < |s.lists[k].heap|
    requires step.CompactCut? || step.CompactRewrite?
    ensures k in s'.lists && Untouched(s.lists[k], s'.lists[k], b)
  {
    hide Chain, ChainAvoids, Current, CopyForCompaction, Victim, CopyForGrowth, OwnEntries;
  }

  lemma AbortUntouched(s: State, s': State, step: Step, k: Key, b: int)
    requires SInv(s) && EndingStep(s, s', step) && k in s.lists && OnChain(s.lists[k], b) && step.ListAborted?
    ensures k in s'.lists && Untouched(s.lists[k], s'.lists[k], b)
  {
    hide Cut, Rewrite, Chain, Shape, Locks, Lows, Items, Complete, Epochs;
    assert ListOk(s, k);
    AbortQuiet(s, s', step, k);
  }

  lemma StepUntouched(s: State, s': State, step: Step, k: Key, b: int)
    requires SInv(s) && NextStep(s, s', step) && k in s.lists && OnChain(s.lists[k], b) && !WritesSlots(step)
    ensures k in s'.lists && Untouched(s.lists[k], s'.lists[k], b)
  {
    hide SInv, OperationStep, EndingStep, CompactionStep;
    StepKind(s, s', step);
    if step.FirstTouch? || step.StartInPlace? || step.StartGrowing? || step.Erase? {
      StartUntouched(s, s', step, k, b);
    } else if step.Register? || step.Abort? {
      TurnUntouched(s, s', step, k, b);
    } else if step.MarkCommitting? || step.SwingHead? || step.ListCommitted? {
      CommitUntouched(s, s', step, k, b);
    } else if step.CompactCut? || step.CompactRewrite? {
      CompactUntouched(s, s', step, k, b);
    } else if step.ListAborted? {
      AbortUntouched(s, s', step, k, b);
    } else {
      assert s'.lists == s.lists;
    }
  }

  /** A live reader that does not work on the list itself. */
  ghost predicate Watching(s: State, k: Key, r: int, t: TxnId) {
    Reading(s, t, r) && !Owns(s, t, k)
  }

  lemma WatcherOutside(s: State, k: Key, r: int, t: TxnId)
    requires SInv(s) && Watching(s, k, r, t) && k in s.lists
    ensures Outside(s.lists[k], r, t)
  {
    assert ListOk(s, k);
  }

  lemma WriterMode(s: State, s': State, step: Step)
    requires Frame(s) && NextStep(s, s', step) && (step.PublishTail? || step.Stamp?)
    ensures var w := s.lists[step.key].owner.w;
      !w.mode.Active? && (step.PublishTail? ==> w.mode.Committing?)
  {
    StepKind(s, s', step);
    hide Epochs, Locks, Lows, Items, Complete;
  }

  lemma WrittenSlots(s: State, s': State, step: Step, b: int, r: int, t: TxnId)
    requires SInv(s) && NextStep(s, s', step) && WritesSlots(step) && step.key in s.lists
    requires OnChain(s.lists[step.key], b) && Outside(s.lists[step.key], r, t)
    ensures step.key in s'.lists && b < |s'.lists[step.key].heap|
    ensures SameSlots(s.lists[step.key].heap[b], s'.lists[step.key].heap[b], r, t)
  {
    hide Inv, Frame, Chain, Outside, SameSlots, StampAt, SetStamp, OutsideStep, CompactionStep;
    StepKind(s, s', step);
    assert ListOk(s, step.key);
    var L := s.lists[step.key];
    if step.Mark? {
      MarkSlots(L, b, r, t);
    } else if step.Insert? {
      WriteSlots(L, b, r, t);
    } else if step.PublishTail? {
      WriterMode(s, s', step);
      SizeSlots(L, b, step.block, r, t);
    } else {
      WriterMode(s, s', step);
      StampSlots(L, b, r, t);
    }
  }

  lemma StepSlots(s: State, s': State, step: Step, k: Key, b: int, r: int, t: TxnId)
    requires SInv(s) && NextStep(s, s', step) && k in s.lists && OnChain(s.lists[k], b) && Watching(s, k, r, t)
    ensures k in s'.lists && b < |s'.lists[k].heap| && SameSlots(s.lists[k].heap[b], s'.lists[k].heap[b], r, t)
  {
    hide SInv, SameSlots, Chain, OperationStep, EndingStep, CompactionStep, OutsideStep;
    if WritesSlots(step) && step.key == k {
      WatcherOutside(s, k, r, t);
      WrittenSlots(s, s', step, b, r, t);
    } else {
      if WritesSlots(step) {
        OtherKey(s, s', step, k);
      } else {
        StepUntouched(s, s', step, k, b);
      }
      UntouchedSlots(s.lists[k], s'.lists[k], b, r, t);
    }
  }

  // ---------------------------------------------------------------------------
  // Whole runs.

  ghost predicate CutAt(run: seq<State>, m: nat, k: Key, e: int, b: int) {
    m + 1 < |run| && CutsAbove(run[m], run[m + 1], k, e, b)
  }

  /** A compaction between `i` and `j` cut the chain above block `b`. */
  ghost predicate CutBetween(run: seq<State>, i: nat, j: nat, k: Key, b: int)
    requires j < |run|
  {
    exists m, e :: i <= m < j && CutAt(run, m, k, e, b)
  }

  lemma FreedStays(run: seq<State>, m: nat, k: Key, b: int)
    requires IsRun(run) && m + 1 < |run| && k in run[m].lists && b in run[m].lists[k].freed
    ensures k in run[m + 1].lists && b in run[m + 1].lists[k].freed
  {
    hide SInv, Chain, Victim;
    var step := RunStep(run, m);
    StepFreed(run[m], run[m + 1], step, k);
  }

  lemma StepFreed(s: State, s': State, step: Step, k: Key)
    requires SInv(s) && NextStep(s, s', step) && k in s.lists
    ensures k in s'.lists && s.lists[k].freed <= s'.lists[k].freed
  {
    hide SInv, Chain, CopyForCompaction, Victim;
    if !step.SwingHead? && !step.CompactCut? && !step.CompactRewrite? {
      StepQuiet(s, s', step, k);
    }
  }

  lemma {:induction false} ChainOverRun(run: seq<State>, i: nat, j: nat, k: Key, b: int)
    requires IsRun(run) && i <= j < |run| && k in run[i].lists && OnChain(run[i].lists[k], b)
    ensures k in run[j].lists
    ensures if CutBetween(run, i, j, k, b) then b in run[j].lists[k].freed else OnChain(run[j].lists[k], b)
    decreases j
  {
    hide SInv, Chain, NextStep, CutAt, OnChain, Init, Next;
    if i < j {
      ChainOverRun(run, i, j - 1, k, b);
      var m := j - 1;
      if CutBetween(run, i, m, k, b) {
        FreedStays(run, m, k, b);
        var x, e :| i <= x < m && CutAt(run, x, k, e, b);
        assert i <= x < j;
      } else {
        LastStep(run, i, m, k, b);
      }
    }
  }

  lemma LastStep(run: seq<State>, i: nat, m: nat, k: Key, b: int)
    requires IsRun(run) && i <= m && m + 1 < |run| && k in run[m].lists && OnChain(run[m].lists[k], b)
    requires !CutBetween(run, i, m, k, b)
    ensures k in run[m + 1].lists
    ensures if CutBetween(run, i, m + 1, k, b) then b in run[m + 1].lists[k].freed else OnChain(run[m + 1].lists[k], b)
  {
    hide SInv, Chain, NextStep, OnChain, Init, Next;
    var step := RunStep(run, m);
    StepChain(run[m], run[m + 1], step, k, b);
    if step.CompactCut? && step.key == k && StopsAbove(run[m].lists[k], step.epoch, b) {
      assert CutAt(run, m, k, step.epoch, b);
    }
    if CutBetween(run, i, m + 1, k, b) {
      var x, e :| i <= x < m + 1 && CutAt(run, x, k, e, b);
      assert x == m;
      StepKind(run[m], run[m + 1], CompactCut(k, e));
      CutStep(run[m], run[m + 1], k, e, b);
    }
  }

  lemma {:induction false} LocateInChain(heap: seq<Block>, p: int, r: int, t: TxnId)
    requires WfHeap(heap) && -1 <= p < |heap|
    ensures var q := Locate(heap, p, r, t); q < 0 || q in Chain(heap, p)
    decreases p
  {
    if p >= 0 && !Reached(heap[p].cre, r, t) {
      LocateInChain(heap, heap[p].prev, r, t);
    }
  }

  lemma ChainNotFreed(L: List, b: int)
    requires Shape(L) && OnChain(L, b)
    ensures b !in L.freed
  {
    AvoidedChain(L.heap, L.head, L.freed, b);
  }

  lemma {:induction false} AvoidedChain(heap: seq<Block>, p: int, bad: set<int>, b: int)
    requires WfHeap(heap) && -1 <= p < |heap| && ChainAvoids(heap, p, bad) && b in Chain(heap, p)
    ensures b !in bad
    decreases p
  {
    if b != p {
      AvoidedChain(heap, heap[p].prev, bad, b);
    }
  }

  /** The block a reader looks up on the list. */
  ghost predicate LooksUp(s: State, k: Key, r: int, t: TxnId, b: int) {
    && k in s.lists && WfHeap(s.lists[k].heap) && -1 <= s.lists[k].head < |s.lists[k].heap|
    && 0 <= b == Locate(s.lists[k].heap, s.lists[k].head, r, t)
  }

  /** A block that a reader looked up at `i` has been freed by `j` if and only if some
      compaction in between, at an epoch `e`, found that a reader at `e - 1` stops above it. */
  lemma HeldBlockFreed(run: seq<State>, i: nat, j: nat, k: Key, r: int, t: TxnId, b: int)
    requires IsRun(run) && i <= j < |run| && LooksUp(run[i], k, r, t, b)
    ensures k in run[j].lists
    ensures b in run[j].lists[k].freed <==> CutBetween(run, i, j, k, b)
  {
    var L := run[i].lists[k];
    LocateInChain(L.heap, L.head, r, t);
    ChainOverRun(run, i, j, k, b);
    RunInv(run, j);
    assert ListOk(run[j], k);
    if OnChain(run[j].lists[k], b) {
      ChainNotFreed(run[j].lists[k], b);
    }
  }

  lemma {:induction false} LocateMonotone(heap: seq<Block>, p: int, r: int, r': int, t: TxnId)
    requires WfHeap(heap) && -1 <= p < |heap| && r <= r' && 0 < t
    requires forall i {:trigger heap[i]} :: 0 <= i < |heap| ==> 0 <= heap[i].cre
    ensures Locate(heap, p, r, RO_TRANSACTION) <= Locate(heap, p, r', t)
    decreases p
  {
    if p >= 0 && !Reached(heap[p].cre, r', t) {
      LocateMonotone(heap, heap[p].prev, r, r', t);
    }
  }

  /** One cut spares the block that a live reader, a transaction or not, would look up now. */
  lemma CutSparesLookup(s: State, s': State, k: Key, e: int, r: int, t: TxnId, b: int)
    requires SInv(s) && NextStep(s, s', CompactCut(k, e)) && LooksUp(s, k, r, t, b) && Reading(s, t, r)
    ensures k in s'.lists && b !in s'.lists[k].freed
  {
    hide Inv, Frame, Cut, Chain, ChainAvoids, WfHeap, Locate, OutsideStep, OperationStep, EndingStep;
    StepKind(s, s', CompactCut(k, e));
    CutBelowReader(s, s', k, e, r, t);
    var L := s.lists[k];
    LocateInChain(L.heap, L.head, r, t);
    LocateMonotone(L.heap, L.head, e - 1, r, t);
    CutStep(s, s', k, e, b);
    NextKeeps(s, s', CompactCut(k, e));
    assert ListOk(s', k);
    InvShape(s'.lists[k]);
    ChainNotFreed(s'.lists[k], b);
  }

  lemma CutBelowReader(s: State, s': State, k: Key, e: int, r: int, t: TxnId)
    requires SInv(s) && CompactionStep(s, s', CompactCut(k, e)) && Reading(s, t, r)
    ensures e <= r && 0 < t && k in s.lists && s.lists[k].owner.Nobody?
    ensures forall i {:trigger s.lists[k].heap[i]} :: 0 <= i < |s.lists[k].heap| ==> 0 <= s.lists[k].heap[i].cre
  {
    hide Cut, Chain, ChainAvoids;
    assert ListOk(s, k);
    SettledCre(s.lists[k]);
  }

  // ---------------------------------------------------------------------------
  // An iteration in the middle of other people's writes.

  ghost predicate WatchesAll(run: seq<State>, i: nat, j: nat, k: Key, r: int, t: TxnId)
    requires j < |run|
  {
    forall m {:trigger run[m]} :: i <= m <= j ==> Watching(run[m], k, r, t)
  }

  lemma {:induction false} SlotsOverRun(run: seq<State>, i: nat, j: nat, k: Key, r: int, t: TxnId, b: int)
    requires IsRun(run) && i <= j < |run| && WatchesAll(run, i, j, k, r, t)
    requires k in run[i].lists && OnChain(run[i].lists[k], b)
    requires k in run[j].lists && b !in run[j].lists[k].freed
    ensures b < |run[j].lists[k].heap| && SameSlots(run[i].lists[k].heap[b], run[j].lists[k].heap[b], r, t)
    decreases j
  {
    hide SInv, Chain, NextStep, Init, Next, Watching;
    if i < j {
      var m := j - 1;
      ChainOverRun(run, i, m, k, b);
      if b in run[m].lists[k].freed {
        FreedStays(run, m, k, b);
      }
      SlotsOverRun(run, i, m, k, r, t, b);
      var step := RunStep(run, m);
      StepSlots(run[m], run[m + 1], step, k, b, r, t);
    }
  }

  /** Slot `x` of the block as it is found at moment `at[x]`. */
  ghost predicate ReadAtMoments(run: seq<State>, k: Key, b: int, at: seq<nat>, es: seq<Entry>) {
    && |es| == |at|
    && forall x {:trigger es[x]} :: 0 <= x < |at| ==>
         && at[x] < |run| && k in run[at[x]].lists && 0 <= b < |run[at[x]].lists[k].heap|
         && x < |run[at[x]].lists[k].heap[b].es| && es[x] == run[at[x]].lists[k].heap[b].es[x]
  }

  /** A reader looks its block up once and then goes through its slots one by one, in any
      order, each at a moment of its own, while transactions commit, abort and begin anew in
      the same block.  As long as the reader lives and the block has not been freed, what it
      has put together in the end is the snapshot at its epoch. */
  lemma ScatteredRead(run: seq<State>, i: nat, j: nat, k: Key, r: int, t: TxnId, b: int, at: seq<nat>, es: seq<Entry>)
    requires IsRun(run) && i <= j < |run| && WatchesAll(run, i, j, k, r, t) && LooksUp(run[i], k, r, t, b)
    requires k in run[j].lists && b !in run[j].lists[k].freed
    requires |at| == run[i].lists[k].heap[b].n && forall x :: 0 <= x < |at| ==> i <= at[x] <= j
    requires ReadAtMoments(run, k, b, at, es)
    ensures View(es, r, t) == Snapshot(run[i].lists[k].base, run[i].lists[k].hist, r)
  {
    var L := run[i].lists[k];
    var first := L.heap[b].es[..L.heap[b].n];
    SnapshotRead(run, i, k, t, r);
    LocateInChain(L.heap, L.head, r, t);
    forall x | 0 <= x < |at|
      ensures EdgeOf(es[x]) == EdgeOf(first[x]) && (Seen(es[x], r, t) <==> Seen(first[x], r, t))
    {
      SlotAt(run, i, j, at[x], k, r, t, b);
      assert first[x] == L.heap[b].es[x];
    }
    ViewAgrees(es, first, r, t, r, t);
  }

  lemma SlotAt(run: seq<State>, i: nat, j: nat, m: nat, k: Key, r: int, t: TxnId, b: int)
    requires IsRun(run) && i <= m <= j < |run| && WatchesAll(run, i, j, k, r, t)
    requires k in run[i].lists && OnChain(run[i].lists[k], b)
    requires k in run[j].lists && b !in run[j].lists[k].freed
    ensures k in run[m].lists && b < |run[m].lists[k].heap|
    ensures SameSlots(run[i].lists[k].heap[b], run[m].lists[k].heap[b], r, t)
  {
    ChainOverRun(run, i, m, k, b);
    if b in run[m].lists[k].freed {
      FreedOverRun(run, m, j, k, b);
    }
    SlotsOverRun(run, i, m, k, r, t, b);
  }

  lemma {:induction false} FreedOverRun(run: seq<State>, m: nat, j: nat, k: Key, b: int)
    requires IsRun(run) && m <= j < |run| && k in run[m].lists && b in run[m].lists[k].freed
    ensures k in run[j].lists && b in run[j].lists[k].freed
    decreases j
  {
    hide SInv, NextStep, Init, Next;
    if m < j {
      FreedOverRun(run, m, j - 1, k, b);
      FreedStays(run, j - 1, k, b);
    }
  }
}
