/** When a live reader loses the block that it looked up: after two compactions, one that puts a
    copy of the list in front and a later one that cuts behind the copy. */
module HeldBlockEnds {
  import opened Timestamps
  import opened EdgeLog
  import opened VersionedList
  import opened ListInvariant
  import opened Store
  import opened StoreInvariant
  import opened SnapshotIsolation
  import opened HeldBlocks

  // ---------------------------------------------------------------------------
  // Creation times along a run.

  lemma StampedCre(L: List, p: int)
    requires L.owner.By? && L.owner.w.todo != [] && ValidLoc(L.heap, L.owner.w.todo[0]) && 0 <= p < |L.heap|
    ensures FinishStamp(L).heap[p].cre
         == if L.owner.w.todo[0] == BlockCre(p) then FinalStamp(L.owner.w) else L.heap[p].cre
  {
  }

  lemma WrittenCre(s: State, s': State, step: Step, p: int)
    requires OperationStep(s, s', step) && (step.Mark? || step.Insert?)
    requires step.key in s.lists && 0 <= p < |s.lists[step.key].heap|
    ensures step.key in s'.lists && p < |s'.lists[step.key].heap|
    ensures s'.lists[step.key].heap[p].cre == s.lists[step.key].heap[p].cre
  {
    hide Victim, Current, WriteSlot;
  }

  lemma PublishedCre(s: State, s': State, step: Step, p: int)
    requires EndingStep(s, s', step) && step.PublishTail?
    requires step.key in s.lists && 0 <= p < |s.lists[step.key].heap|
    ensures step.key in s'.lists && p < |s'.lists[step.key].heap|
    ensures s'.lists[step.key].heap[p].cre == s.lists[step.key].heap[p].cre
  {
  }

  /** The step puts its final stamp on the creation time of block `p`. */
  ghost predicate StampsCre(s: State, s': State, step: Step, p: int) {
    && 0 <= p && step.Stamp? && EndingStep(s, s', step) && step.key in s.lists && step.key in s'.lists
    && var w := s.lists[step.key].owner.w;
       w.todo[0] == BlockCre(p) && p < |s'.lists[step.key].heap| && s'.lists[step.key].heap[p].cre == FinalStamp(w)
  }

  lemma StampStepCre(s: State, s': State, step: Step, p: int)
    requires EndingStep(s, s', step) && step.Stamp? && 0 <= p < |s.lists[step.key].heap|
    ensures step.key in s'.lists && p < |s'.lists[step.key].heap|
    ensures StampsCre(s, s', step, p) || s'.lists[step.key].heap[p].cre == s.lists[step.key].heap[p].cre
  {
    hide SetStamp;
    StampedCre(s.lists[step.key], p);
  }

  lemma StepCre(s: State, s': State, step: Step, k: Key, p: int)
    requires SInv(s) && NextStep(s, s', step) && k in s.lists && OnChain(s.lists[k], p)
    ensures k in s'.lists && p < |s'.lists[k].heap|
    ensures || (step.Stamp? && step.key == k && StampsCre(s, s', step, p))
            || s'.lists[k].heap[p].cre == s.lists[k].heap[p].cre
  {
    hide SInv, Chain, OutsideStep, OperationStep, EndingStep, CompactionStep;
    StepKind(s, s', step);
    if !WritesSlots(step) {
      StepUntouched(s, s', step, k, p);
    } else if step.key != k {
      OtherKey(s, s', step, k);
    } else if step.Stamp? {
      StampStepCre(s, s', step, p);
    } else if step.PublishTail? {
      PublishedCre(s, s', step, p);
    } else {
      WrittenCre(s, s', step, p);
    }
  }

  /** A final stamp is out of reach of everybody who is reading. */
  lemma StampIsLate(s: State, s': State, step: Step, p: int, r: int, t: TxnId)
    requires SInv(s) && StampsCre(s, s', step, p) && r <= s.global && 0 < t
    ensures !Reached(s'.lists[step.key].heap[p].cre, r, t)
    ensures s.lists[step.key].heap[p].cre < 0 || s.global < s.lists[step.key].heap[p].cre
  {
    hide Locks, Lows, Items, Complete, HeadOk, ReadersOk, HistOk, MarksOwned, ChainAvoids;
    var L := s.lists[step.key];
    assert ListOk(s, step.key);
    assert L.owner.w.todo[0] in L.owner.w.todo;
    assert StampAt(L.heap, L.owner.w.todo[0]) == L.heap[p].cre;
    assert OwnStamp(L.owner.w, L.heap[p].cre);
  }

  // ---------------------------------------------------------------------------
  // Blocks in front that a reader could use are copies made by compaction.

  /** Compaction at `e` leaves something out, and puts its copy in front. */
  ghost predicate Drops(s: State, s': State, k: Key, e: int) {
    && k in s.lists && k in s'.lists && NextStep(s, s', CompactRewrite(k, e))
    && s'.lists[k].head != s.lists[k].head
  }

  ghost predicate Usable(L: List, p: int, r: int, t: TxnId) {
    OnChain(L, p) && Reached(L.heap[p].cre, r, t)
  }

  lemma QuietUsable(s: State, s': State, step: Step, k: Key, p: int, r: int, t: TxnId)
    requires SInv(s) && NextStep(s, s', step) && k in s.lists && k in s'.lists && r <= s.global && 0 < t
    requires Quiet(s.lists[k], s'.lists[k]) && Usable(s'.lists[k], p, r, t)
    ensures Usable(s.lists[k], p, r, t) && s.lists[k].heap[p].cre == s'.lists[k].heap[p].cre
  {
    hide SInv, Chain, NextStep, StampsCre;
    assert Shape(s.lists[k]) by { ListShape(s, k); }
    ChainAgrees(s.lists[k].heap, s'.lists[k].heap, s.lists[k].head);
    StepCre(s, s', step, k, p);
    if step.Stamp? && step.key == k && StampsCre(s, s', step, p) {
      StampIsLate(s, s', step, p, r, t);
    }
  }

  lemma ListShape(s: State, k: Key)
    requires SInv(s) && k in s.lists
    ensures Shape(s.lists[k])
  {
    assert ListOk(s, k);
  }

  lemma {:induction false} PrivateOnChain(L: List, p: int, x: int)
    requires Shape(L) && L.owner.By? && WriterFrame(L) && PrivateOk(L)
    requires L.owner.w.floor - 1 <= p < |L.heap|
    requires x in Chain(L.heap, if p < L.owner.w.floor then L.owner.w.home else p)
    ensures x in Chain(L.heap, L.owner.w.home) || (L.owner.w.floor <= x && OwnStamp(L.owner.w, L.heap[x].cre))
    decreases p
  {
    var w := L.owner.w;
    if p >= w.floor {
      assert L.heap[p].prev == (if p == w.floor then w.home else p - 1) && OwnStamp(w, L.heap[p].cre);
      if x != p {
        PrivateOnChain(L, p - 1, x);
      }
    }
  }

  lemma SwingUsable(L: List, p: int, r: int, t: TxnId)
    requires Inv(L) && L.owner.By? && !L.owner.w.headDone && L.owner.w.mode.Committing? && Outside(L, r, t)
    requires Usable(CommitHead(L), p, r, t)
    ensures Usable(L, p, r, t) && L.heap[p].cre == CommitHead(L).heap[p].cre
  {
    HeadMoves(L);
    PrivateOnChain(L, if L.owner.w.ptr == L.owner.w.home then L.owner.w.floor - 1 else L.owner.w.ptr, p);
  }

  lemma CutUsable(L: List, e: int, p: int, r: int, t: TxnId)
    requires Shape(L) && Usable(Cut(L, e), p, r, t)
    ensures Usable(L, p, r, t) && L.heap[p].cre == Cut(L, e).heap[p].cre
  {
    var q := FirstOlder(L.heap, L.head, e);
    if q >= 0 {
      CutChain(L.heap, L.head, e, q);
    }
  }

  lemma RewriteUsable(L: List, e: int, p: int, r: int, t: TxnId)
    requires Shape(L) && WfHeap(Rewrite(L, e).heap) && Usable(Rewrite(L, e), p, r, t)
    ensures (Usable(L, p, r, t) && L.heap[p].cre == Rewrite(L, e).heap[p].cre)
         || (Rewrite(L, e).head != L.head && Rewrite(L, e).heap[p].cre == e)
  {
    hide CopyForCompaction;
    var R := Rewrite(L, e);
    if R != L {
      ChainAgrees(L.heap, R.heap, L.head);
      assert R.heap[R.head].prev == L.head;
    }
  }

  /** Where a block that the reader could use comes from. */
  lemma StepUsable(s: State, s': State, step: Step, k: Key, p: int, r: int, t: TxnId)
    requires SInv(s) && NextStep(s, s', step) && k in s.lists && Watching(s, k, r, t)
    requires k in s'.lists && Usable(s'.lists[k], p, r, t)
    ensures || (Usable(s.lists[k], p, r, t) && s.lists[k].heap[p].cre == s'.lists[k].heap[p].cre)
            || Drops(s, s', k, s'.lists[k].heap[p].cre)
  {
    hide Inv, Frame, Cut, Rewrite, CommitHead, Shape, OutsideStep, OperationStep, EndingStep, CompactionStep, Chain;
    hide Usable, Outside;
    StepKind(s, s', step);
    ListShape(s, k);
    NextKeeps(s, s', step);
    ListShape(s', k);
    WatcherOutside(s, k, r, t);
    assert ListOk(s, k);
    if (step.SwingHead? || step.CompactCut? || step.CompactRewrite?) && step.key != k {
      OtherKey(s, s', step, k);
    } else if step.SwingHead? {
      SwingStep(s, s', step.t, k);
      SwingMode(s, s', step);
      SwingUsable(s.lists[k], p, r, t);
    } else if step.CompactCut? {
      CutResult(s, s', k, step.epoch);
      CutUsable(s.lists[k], step.epoch, p, r, t);
    } else if step.CompactRewrite? {
      RewriteStep(s, s', k, step.epoch);
      RewriteHeap(s'.lists[k]);
      RewriteUsable(s.lists[k], step.epoch, p, r, t);
    } else {
      StepQuiet(s, s', step, k);
      WatcherBelow(s, k, r, t);
      QuietUsable(s, s', step, k, p, r, t);
    }
  }

  lemma RewriteHeap(L: List)
    requires Shape(L)
    ensures WfHeap(L.heap) && -1 <= L.head < |L.heap|
  {
  }

  lemma SwingMode(s: State, s': State, step: Step)
    requires Frame(s) && EndingStep(s, s', step) && step.SwingHead?
    ensures step.key in s.lists && s.lists[step.key].owner.By? && s.lists[step.key].owner.w.mode.Committing?
  {
    hide Epochs, Locks, Lows, Items, Complete, CommitHead;
  }

  lemma CutResult(s: State, s': State, k: Key, e: int)
    requires CompactionStep(s, s', CompactCut(k, e))
    ensures k in s.lists && WfHeap(s.lists[k].heap) && -1 <= s.lists[k].head < |s.lists[k].heap|
    ensures k in s'.lists && s'.lists[k] == Cut(s.lists[k], e) && 0 <= e <= s.global
  {
    hide Cut, Rewrite;
  }

  lemma WatcherBelow(s: State, k: Key, r: int, t: TxnId)
    requires Frame(s) && Watching(s, k, r, t)
    ensures r <= s.global && 0 < t
  {
  }

  // ---------------------------------------------------------------------------
  // Whole runs.

  ghost predicate DropsAt(run: seq<State>, m: nat, k: Key, e: int) {
    m + 1 < |run| && Drops(run[m], run[m + 1], k, e)
  }

  ghost predicate CutsAt(run: seq<State>, m: nat, k: Key, e: int) {
    m + 1 < |run| && NextStep(run[m], run[m + 1], CompactCut(k, e))
  }

  lemma {:induction false} LocateIsNewest(heap: seq<Block>, head: int, r: int, t: TxnId, p: int)
    requires WfHeap(heap) && -1 <= head < |heap| && p in Chain(heap, head)
    ensures Reached(heap[p].cre, r, t) ==> p <= Locate(heap, head, r, t)
    decreases head
  {
    if p != head && !Reached(heap[head].cre, r, t) {
      LocateIsNewest(heap, heap[head].prev, r, t, p);
    }
  }

  /** What a reader could use above the block that it looked up at `i` was made by compaction. */
  lemma {:induction false} NewcomerIsCopy(run: seq<State>, i: nat, m: nat, k: Key, r: int, t: TxnId, b: int, p: int)
    returns (x: nat)
    requires IsRun(run) && i <= m < |run| && WatchesAll(run, i, m, k, r, t) && LooksUp(run[i], k, r, t, b)
    requires k in run[m].lists && Usable(run[m].lists[k], p, r, t) && b < p
    ensures i <= x < m && DropsAt(run, x, k, run[m].lists[k].heap[p].cre)
    decreases m
  {
    hide SInv, NextStep, Drops, Watching, Init, Next, Chain;
    if m == i {
      LocateIsNewest(run[i].lists[k].heap, run[i].lists[k].head, r, t, p);
      assert false;
    } else {
      var step := RunStep(run, m - 1);
      ListThere(run, i, m - 1, k);
      StepUsable(run[m - 1], run[m], step, k, p, r, t);
      if Drops(run[m - 1], run[m], k, run[m].lists[k].heap[p].cre) {
        x := m - 1;
      } else {
        x := NewcomerIsCopy(run, i, m - 1, k, r, t, b, p);
      }
    }
  }

  lemma {:induction false} ListThere(run: seq<State>, i: nat, j: nat, k: Key)
    requires IsRun(run) && i <= j < |run| && k in run[i].lists
    ensures k in run[j].lists && run[i].global <= run[j].global
    decreases j
  {
    hide SInv, NextStep, Init, Next, Grows;
    if i < j {
      ListThere(run, i, j - 1, k);
      var step := RunStep(run, j - 1);
      FrameOf(run[j - 1]);
      StepGrows(run[j - 1], run[j], step, k);
    }
  }

  lemma FrameOf(s: State)
    requires SInv(s)
    ensures Frame(s)
  {
  }

  /** A published creation time stays while the block is on the chain. */
  lemma {:induction false} CreOverRun(run: seq<State>, i: nat, j: nat, k: Key, p: int)
    requires IsRun(run) && i <= j < |run| && k in run[i].lists && OnChain(run[i].lists[k], p)
    requires 0 <= run[i].lists[k].heap[p].cre <= run[i].global && !CutBetween(run, i, j, k, p)
    ensures k in run[j].lists && OnChain(run[j].lists[k], p)
    ensures run[j].lists[k].heap[p].cre == run[i].lists[k].heap[p].cre
    decreases j
  {
    hide SInv, NextStep, Init, Next, CutAt, Chain, StampsCre;
    ChainOverRun(run, i, j, k, p);
    if i < j {
      CreOverRun(run, i, j - 1, k, p);
      var step := RunStep(run, j - 1);
      ListThere(run, i, j - 1, k);
      StepCre(run[j - 1], run[j], step, k, p);
      if step.Stamp? && step.key == k && StampsCre(run[j - 1], run[j], step, p) {
        StampIsLate(run[j - 1], run[j], step, p, run[j - 1].global, 1);
      }
    }
  }

  /** Two compactions, the first of which drops something, at growing epochs. */
  ghost predicate CopiedThenCut(run: seq<State>, i: nat, j: nat, k: Key) {
    exists x, e, y, d :: i <= x < y < j && e < d && DropsAt(run, x, k, e) && CutsAt(run, y, k, d)
  }

  /** The cut that frees the block finds a copy that an earlier compaction has put in front. */
  lemma FreedByCopy(run: seq<State>, i: nat, j: nat, k: Key, r: int, t: TxnId, b: int)
    requires IsRun(run) && i <= j < |run| && WatchesAll(run, i, j, k, r, t) && LooksUp(run[i], k, r, t, b)
    requires CutBetween(run, i, j, k, b)
    ensures CopiedThenCut(run, i, j, k)
  {
    hide SInv, NextStep, Init, Next, Chain, Drops, Watching, Locate, WfHeap;
    var y, d :| i <= y < j && CutAt(run, y, k, d, b);
    var L := run[y].lists[k];
    StepKind(run[y], run[y + 1], CompactCut(k, d));
    RunInv(run, y);
    assert Watching(run[y], k, r, t);
    CutBelow(run[y], run[y + 1], k, d, r, t, b);
    var p := Locate(L.heap, L.head, d - 1, RO_TRANSACTION);
    var x := NewcomerIsCopy(run, i, y, k, r, t, b, p);
    assert CutsAt(run, y, k, d);
  }

  lemma CutBelow(s: State, s': State, k: Key, d: int, r: int, t: TxnId, b: int)
    requires SInv(s) && CompactionStep(s, s', CompactCut(k, d)) && Watching(s, k, r, t)
    requires k in s.lists && StopsAbove(s.lists[k], d, b) && 0 <= b
    ensures var L := s.lists[k];
      var p := Locate(L.heap, L.head, d - 1, RO_TRANSACTION);
      Usable(L, p, r, t) && b < p && L.heap[p].cre < d
  {
    hide SInv, CompactionStep, Chain;
    var L := s.lists[k];
    CutBelowReader(s, s', k, d, r, t);
    LocateInChain(L.heap, L.head, d - 1, RO_TRANSACTION);
    var p := Locate(L.heap, L.head, d - 1, RO_TRANSACTION);
    ReachedMeaning(L.heap[p].cre, d - 1, RO_TRANSACTION);
    ReachedMeaning(L.heap[p].cre, r, t);
  }

  /** The copy stays in front of the block, so the later cut frees it. */
  lemma CopyThenFreed(run: seq<State>, i: nat, j: nat, k: Key, r: int, t: TxnId, b: int, x: nat, e: int, y: nat, d: int)
    requires IsRun(run) && i <= x < y < j < |run| && e < d && LooksUp(run[i], k, r, t, b)
    requires DropsAt(run, x, k, e) && CutsAt(run, y, k, d)
    ensures CutBetween(run, i, j, k, b)
  {
    hide SInv, NextStep, Init, Next, Chain, Locate, WfHeap, Drops;
    if CutBetween(run, i, x, k, b) {
      CutEarlier(run, i, x, j, k, b);
    } else {
      LookedUpOnChain(run[i], k, r, t, b);
      ChainOverRun(run, i, x, k, b);
      RunInv(run, x);
      var q := CopyInFront(run[x], run[x + 1], k, e, b);
      if CutBetween(run, x + 1, y, k, q) {
        CutOfNewer(run, i, j, k, b, q, x + 1, y);
      } else {
        CreOverRun(run, x + 1, y, k, q);
        RunInv(run, y);
        StopsAboveOld(run[y].lists[k], d, b, q);
        assert CutAt(run, y, k, d, b);
      }
    }
  }

  lemma LookedUpOnChain(s: State, k: Key, r: int, t: TxnId, b: int)
    requires LooksUp(s, k, r, t, b)
    ensures OnChain(s.lists[k], b)
  {
    LocateInChain(s.lists[k].heap, s.lists[k].head, r, t);
  }

  lemma CutEarlier(run: seq<State>, i: nat, x: nat, j: nat, k: Key, b: int)
    requires i <= x <= j < |run| && CutBetween(run, i, x, k, b)
    ensures CutBetween(run, i, j, k, b)
  {
    var m, e :| i <= m < x && CutAt(run, m, k, e, b);
    assert i <= m < j;
  }

  /** Who cuts above a newer block cuts above the older one. */
  lemma CutOfNewer(run: seq<State>, i: nat, j: nat, k: Key, b: int, q: int, x: nat, y: nat)
    requires i <= x <= y <= j < |run| && b < q && CutBetween(run, x, y, k, q)
    ensures CutBetween(run, i, j, k, b)
  {
    hide NextStep, Locate, WfHeap;
    var m, e :| x <= m < y && CutAt(run, m, k, e, q);
    assert StopsAbove(run[m].lists[k], e, b);
    assert CutAt(run, m, k, e, b);
  }

  lemma CopyInFront(s: State, s': State, k: Key, e: int, b: int) returns (q: int)
    requires SInv(s) && Drops(s, s', k, e) && OnChain(s.lists[k], b)
    ensures k in s'.lists && b < q && OnChain(s'.lists[k], q) && s'.lists[k].heap[q].cre == e && 0 <= e <= s'.global
  {
    hide Inv, Frame, CopyForCompaction, Cut;
    StepKind(s, s', CompactRewrite(k, e));
    NextKeeps(s, s', CompactRewrite(k, e));
    ListShape(s, k);
    ListShape(s', k);
    q := s'.lists[k].head;
    HeadOnChain(s'.lists[k]);
  }

  lemma HeadOnChain(L: List)
    requires WfHeap(L.heap) && 0 <= L.head < |L.heap|
    ensures OnChain(L, L.head)
  {
  }

  lemma StopsAboveOld(L: List, d: int, b: int, q: int)
    requires OnChain(L, q) && b < q && 0 <= L.heap[q].cre < d
    ensures StopsAbove(L, d, b)
  {
    LocateIsNewest(L.heap, L.head, d - 1, RO_TRANSACTION, q);
  }

  /** A live reader loses the block that it looked up if and only if a compaction that leaves
      something out of the list is followed by one at a greater epoch. */
  lemma LiveReaderLosesBlock(run: seq<State>, i: nat, j: nat, k: Key, r: int, t: TxnId, b: int)
    requires IsRun(run) && i <= j < |run| && WatchesAll(run, i, j, k, r, t) && LooksUp(run[i], k, r, t, b)
    ensures k in run[j].lists && (b in run[j].lists[k].freed <==> CopiedThenCut(run, i, j, k))
  {
    hide SInv, NextStep, Init, Next, Chain, Drops, Watching;
    HeldBlockFreed(run, i, j, k, r, t, b);
    if CutBetween(run, i, j, k, b) {
      FreedByCopy(run, i, j, k, r, t, b);
    }
    if CopiedThenCut(run, i, j, k) {
      var x, e, y, d :| i <= x < y < j && e < d && DropsAt(run, x, k, e) && CutsAt(run, y, k, d);
      CopyThenFreed(run, i, j, k, r, t, b, x, e, y, d);
    }
  }

  // ---------------------------------------------------------------------------
  // A run in which it happens.

  function LosingList(): List {
    List([Block(4, 4, -1, 1, [Entry(7, [], 4, 4)])], 0, {}, [], [], 4, Nobody)
  }

  lemma LosingListLoaded()
    ensures BulkLoaded(LosingList(), 4)
  {
    ViewStep(LosingList().heap[0].es[..1], 4, RO_TRANSACTION);
  }

  /** Transaction 1 reads at epoch 4, transaction 2 at epoch 5. */
  function Txns(phases: seq<Phase>): map<TxnId, Txn> {
    if phases == [] then map[]
    else
      var first := map[1 := Txn(4, phases[0], map[])];
      if |phases| == 1 then first else first[2 := Txn(5, phases[1], map[])]
  }

  function Moment(k: Key, L: List, global: int, writing: int, phases: seq<Phase>, readers: map<nat, int>): State {
    State(global, writing, 1 + |phases|, Txns(phases), readers, map[], map[k := L])
  }

  /** The published read epochs: the compaction that a transaction starts takes their least. */
  ghost predicate LeastReadEpoch(s: State, e: int) {
    && CompactionEpoch(s, e)
    && (|| (exists x :: x in s.readers && s.readers[x] == e)
        || (exists t :: t in s.txns && Live(s.txns[t]) && s.txns[t].read == e))
  }

  /** Before the first compaction: reader 1 begins at epoch 4; transaction 1 commits elsewhere
      at epoch 5; reader 0 begins at epoch 5, and so does transaction 2, which compacts. */
  function Opening(k: Key): (run: seq<State>)
    ensures |run| == 9
  {
    var L := LosingList();
    [Moment(k, L, 4, 4, [], map[]),
     Moment(k, L, 4, 4, [], map[1 := 4]),
     Moment(k, L, 4, 4, [Running], map[1 := 4]),
     Moment(k, L, 4, 5, [Phase.Publishing(5)], map[1 := 4]),
     Moment(k, L, 4, 5, [Phase.Released(5)], map[1 := 4]),
     Moment(k, L, 4, 5, [Phase.Finished(5)], map[1 := 4]),
     Moment(k, L, 5, 5, [Phase.Finished(5)], map[1 := 4]),
     Moment(k, L, 5, 5, [Phase.Finished(5)], map[1 := 4, 0 := 5]),
     Moment(k, L, 5, 5, [Phase.Finished(5), Running], map[1 := 4, 0 := 5])]
  }

  lemma OpeningInit(k: Key)
    ensures Init(Opening(k)[0])
  {
    hide BulkLoaded, LosingList;
    LosingListLoaded();
  }

  lemma MomentBegins(k: Key, L: List, g: int, phases: seq<Phase>, readers: map<nat, int>)
    requires |phases| < 2 && g == (if |phases| == 0 then 4 else 5)
    ensures OutsideStep(Moment(k, L, g, g, phases, readers), Moment(k, L, g, g, phases + [Running], readers), Begin)
  {
    var s, s' := Moment(k, L, g, g, phases, readers), Moment(k, L, g, g, phases + [Running], readers);
    assert s'.txns == s.txns[s.nextTxn := Txn(s.global, Running, map[])];
  }

  lemma MomentReads(k: Key, L: List, g: int, phases: seq<Phase>, readers: map<nat, int>, x: nat)
    requires x !in readers
    ensures OutsideStep(Moment(k, L, g, g, phases, readers), Moment(k, L, g, g, phases, readers[x := g]),
                        BeginReadOnly(x))
  {
  }

  lemma MomentRegisters(k: Key, L: List, readers: map<nat, int>)
    requires L.owner.Nobody?
    ensures EndingStep(Moment(k, L, 4, 4, [Running], readers), Moment(k, L, 4, 5, [Phase.Publishing(5)], readers),
                       Step.Register(1, 5))
  {
    var s, s' := Moment(k, L, 4, 4, [Running], readers), Moment(k, L, 4, 5, [Phase.Publishing(5)], readers);
    assert s'.txns == s.txns[1 := Txn(4, Phase.Publishing(5), map[])];
    assert s'.lists == Registered(s, 1, 5).lists;
  }

  lemma MomentCleans(k: Key, L: List, readers: map<nat, int>)
    requires L.owner.Nobody?
    ensures OutsideStep(Moment(k, L, 4, 5, [Phase.Publishing(5)], readers),
                        Moment(k, L, 4, 5, [Phase.Released(5)], readers), Clean(1))
  {
    var s, s' := Moment(k, L, 4, 5, [Phase.Publishing(5)], readers), Moment(k, L, 4, 5, [Phase.Released(5)], readers);
    assert s'.txns == s.txns[1 := Txn(4, Phase.Released(5), map[])];
  }

  lemma MomentFinishes(k: Key, L: List, readers: map<nat, int>)
    ensures OutsideStep(Moment(k, L, 4, 5, [Phase.Released(5)], readers),
                        Moment(k, L, 4, 5, [Phase.Finished(5)], readers), Finish(1))
  {
    var s, s' := Moment(k, L, 4, 5, [Phase.Released(5)], readers), Moment(k, L, 4, 5, [Phase.Finished(5)], readers);
    assert s'.txns == s.txns[1 := Txn(4, Phase.Finished(5), map[])];
  }

  lemma MomentAdvances(k: Key, L: List, readers: map<nat, int>)
    ensures OutsideStep(Moment(k, L, 4, 5, [Phase.Finished(5)], readers),
                        Moment(k, L, 5, 5, [Phase.Finished(5)], readers), Advance(5))
  {
  }

  lemma MomentEnds(k: Key, L: List, phases: seq<Phase>)
    ensures OutsideStep(Moment(k, L, 5, 5, phases, map[1 := 4, 0 := 5]), Moment(k, L, 5, 5, phases, map[0 := 5]),
                        EndReadOnly(1))
  {
    assert map[1 := 4, 0 := 5] - {1} == map[0 := 5];
  }

  /** With readers 0 and 1 and the compacting transaction, the least read epoch is 4. */
  lemma FirstCompaction(k: Key, L: List, R: List)
    requires L.owner.Nobody? && WfHeap(L.heap) && -1 <= L.head < |L.heap| && R == Rewrite(L, 4)
    ensures var phases := [Phase.Finished(5), Running];
      var s, s' := Moment(k, L, 5, 5, phases, map[1 := 4, 0 := 5]), Moment(k, R, 5, 5, phases, map[1 := 4, 0 := 5]);
      LeastReadEpoch(s, 4) && CompactionStep(s, s', CompactRewrite(k, 4))
  {
    hide Rewrite, Cut, WfHeap;
    var s := Moment(k, L, 5, 5, [Phase.Finished(5), Running], map[1 := 4, 0 := 5]);
    assert s.readers[1] == 4;
  }

  /** Without reader 1 it is 5. */
  lemma SecondCompaction(k: Key, R: List, C: List)
    requires R.owner.Nobody? && WfHeap(R.heap) && -1 <= R.head < |R.heap| && C == Cut(R, 5)
    ensures var phases := [Phase.Finished(5), Running];
      var s, s' := Moment(k, R, 5, 5, phases, map[0 := 5]), Moment(k, C, 5, 5, phases, map[0 := 5]);
      LeastReadEpoch(s, 5) && CompactionStep(s, s', CompactCut(k, 5))
  {
    hide Rewrite, Cut, WfHeap;
    var s := Moment(k, R, 5, 5, [Phase.Finished(5), Running], map[0 := 5]);
    assert s.readers[0] == 5;
  }

  function CopiedList(): List {
    LosingList().(heap := LosingList().heap + [Block(4, 4, 0, 0, [])], head := 1)
  }

  lemma LosingListCopied()
    ensures Rewrite(LosingList(), 4) == CopiedList()
    ensures Locate(LosingList().heap, 0, 5, RO_TRANSACTION) == 0
    ensures 0 in Cut(CopiedList(), 5).freed
  {
    var es := LosingList().heap[0].es;
    assert es[..1] == es && es[..0] == [];
    assert CopyForCompaction(es[..0], 4) == [];
    var R := CopiedList();
    assert FirstOlder(R.heap, 1, 5) == 1;
    assert 0 in Chain(R.heap, 0);
  }

  lemma LosingHeaps()
    ensures WfHeap(LosingList().heap) && WfHeap(CopiedList().heap)
  {
  }

  /** The steps that lead to the first compaction. */
  lemma OpeningRuns(k: Key)
    ensures forall i :: 0 <= i < 8 ==> Next(Opening(k)[i], Opening(k)[i + 1])
  {
    hide OutsideStep, OperationStep, EndingStep, CompactionStep, Moment, LosingList, Next;
    var L, one := LosingList(), map[1 := 4];
    NobodyOwns();
    MomentReads(k, L, 4, [], map[], 1);
    MomentBegins(k, L, 4, [], one);
    assert [] + [Running] == [Running];
    MomentRegisters(k, L, one);
    MomentCleans(k, L, one);
    MomentFinishes(k, L, one);
    MomentAdvances(k, L, one);
    MomentReads(k, L, 5, [Phase.Finished(5)], one, 0);
    MomentBegins(k, L, 5, [Phase.Finished(5)], map[1 := 4, 0 := 5]);
    assert [Phase.Finished(5)] + [Running] == [Phase.Finished(5), Running];
    assert map[][1 := 4] == one && one[0 := 5] == map[1 := 4, 0 := 5];
    var steps :=
      [BeginReadOnly(1), Begin, Step.Register(1, 5), Clean(1), Finish(1), Advance(5), BeginReadOnly(0), Begin];
    forall i | 0 <= i < 8
      ensures Next(Opening(k)[i], Opening(k)[i + 1])
    {
      StepTaken(Opening(k)[i], Opening(k)[i + 1], steps[i]);
    }
  }

  lemma StepTaken(s: State, s': State, step: Step)
    requires || OutsideStep(s, s', step) || OperationStep(s, s', step) || EndingStep(s, s', step)
             || CompactionStep(s, s', step)
    ensures Next(s, s')
  {
    hide OutsideStep, OperationStep, EndingStep, CompactionStep;
    assert NextStep(s, s', step);
  }

  lemma NobodyOwns()
    ensures LosingList().owner.Nobody? && CopiedList().owner.Nobody?
    ensures LosingList().head == 0 && |LosingList().heap| == 1 && CopiedList().head == 1 && |CopiedList().heap| == 2
  {
  }

  /** Readers 1 and 0 read at epochs 4 and 5; reader 0 looks up block 0 and stands on it.  A
      compaction at the least read epoch, 4, puts a copy in front.  Reader 1 ends, and the next
      compaction, at 5, frees block 0 with reader 0 still alive. */
  lemma HeldBlockCanBeFreed(k: Key) returns (run: seq<State>)
    ensures IsRun(run) && |run| == 12
    ensures forall i :: 8 <= i < 12 ==> 0 in run[i].readers && run[i].readers[0] == 5 && k in run[i].lists
    ensures LooksUp(run[8], k, 5, RO_TRANSACTION, 0) && 0 in run[11].lists[k].freed
    ensures LeastReadEpoch(run[8], 4) && NextStep(run[8], run[9], CompactRewrite(k, 4))
    ensures LeastReadEpoch(run[10], 5) && NextStep(run[10], run[11], CompactCut(k, 5))
  {
    hide Init, Next, OutsideStep, OperationStep, EndingStep, CompactionStep, Cut, Rewrite, Locate, Chain, WfHeap;
    hide LosingList, CopiedList, LeastReadEpoch;
    LosingHeaps();
    NobodyOwns();
    var L, R, C := LosingList(), CopiedList(), Cut(CopiedList(), 5);
    var phases := [Phase.Finished(5), Running];
    LosingListCopied();
    OpeningInit(k);
    OpeningRuns(k);
    FirstCompaction(k, L, R);
    MomentEnds(k, R, phases);
    SecondCompaction(k, R, C);
    run := Opening(k) + [Moment(k, R, 5, 5, phases, map[1 := 4, 0 := 5]), Moment(k, R, 5, 5, phases, map[0 := 5]),
                         Moment(k, C, 5, 5, phases, map[0 := 5])];
    assert run[8] == Opening(k)[8];
    StepTaken(run[8], run[9], CompactRewrite(k, 4));
    StepTaken(run[9], run[10], EndReadOnly(1));
    StepTaken(run[10], run[11], CompactCut(k, 5));
    forall i | 0 <= i < 11
      ensures Next(run[i], run[i + 1])
    {
      if i < 8 {
        assert run[i] == Opening(k)[i] && run[i + 1] == Opening(k)[i + 1];
      }
    }
    assert run[0] == Opening(k)[0];
  }
}
