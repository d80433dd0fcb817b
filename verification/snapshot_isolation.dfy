/** What the store guarantees over whole runs: snapshot reads, atomic commits, first
    committer wins, a transaction's own view, and compaction nobody notices. */
module SnapshotIsolation {
  import opened Timestamps
  import opened EdgeLog
  import opened VersionedList
  import opened ListInvariant
  import opened Store
  import opened StoreInvariant

  lemma {:induction false} RunInv(run: seq<State>, i: nat)
    requires IsRun(run) && i < |run|
    ensures SInv(run[i])
  {
    hide SInv, NextStep, Init;
    if i == 0 {
      InitInv(run[0]);
    } else {
      RunInv(run, i - 1);
      assert Next(run[i - 1], run[i]);
      var step :| NextStep(run[i - 1], run[i], step);
      NextKeeps(run[i - 1], run[i], step);
    }
  }

  lemma RunStep(run: seq<State>, m: nat) returns (step: Step)
    requires IsRun(run) && m + 1 < |run|
    ensures SInv(run[m]) && NextStep(run[m], run[m + 1], step)
  {
    hide SInv, NextStep, Init;
    RunInv(run, m);
    assert Next(run[m], run[m + 1]);
    step :| NextStep(run[m], run[m + 1], step);
  }

  // ---------------------------------------------------------------------------
  // Snapshot reads.

  /** Transaction `t` (or a read-only one) reads at epoch `r` without holding the list. */
  ghost predicate Reading(s: State, t: TxnId, r: int) {
    || (t == RO_TRANSACTION && exists x :: x in s.readers && s.readers[x] == r)
    || (t in s.txns && Live(s.txns[t]) && s.txns[t].read == r)
  }

  /** The commit of `t` lies at or below epoch `r`. */
  ghost predicate CommittedBy(s: State, t: TxnId, r: int) {
    t in s.txns && HasEpoch(s.txns[t].phase) && s.txns[t].phase.epoch <= r
  }

  /** The part of `t` in list `k` is at position `i` of its history. */
  ghost predicate PartAt(s: State, t: TxnId, k: Key, i: int) {
    && t in s.txns && HasEpoch(s.txns[t].phase) && k in s.txns[t].writes && k in s.lists
    && 0 <= i < |s.lists[k].hist|
    && s.lists[k].hist[i] == Item(t, s.txns[t].read, s.txns[t].phase.epoch, s.txns[t].writes[k])
  }

  ghost predicate PartPresent(s: State, t: TxnId, k: Key) {
    exists a :: PartAt(s, t, k, a)
  }

  /** After every single write of anybody, a reader's list is the bulk-loaded list with the
      committed updates up to its epoch applied in epoch order. */
  lemma SnapshotRead(run: seq<State>, i: nat, k: Key, t: TxnId, r: int)
    requires IsRun(run) && i < |run| && Reading(run[i], t, r)
    requires k in run[i].lists && !Owns(run[i], t, k)
    ensures var L := run[i].lists[k];
      && WfHeap(L.heap) && -1 <= L.head < |L.heap|
      && ReadAt(L.heap, L.head, r, t) == Snapshot(L.base, L.hist, r)
      && forall a, b :: 0 <= a < b < |L.hist| ==> L.hist[a].epoch < L.hist[b].epoch
  {
    RunInv(run, i);
    var s, L := run[i], run[i].lists[k];
    assert ListOk(s, k);
    ReaderBelowHorizon(s, k, t, r);
    assert ReadAt(L.heap, L.head, r, RO_TRANSACTION) == Snapshot(L.base, L.hist, r);
    OtherTransactionReads(L, r, t);
    assert forall a :: 0 <= a < |L.hist| ==> L.hist[a].read < L.hist[a].epoch;
  }

  lemma ReaderBelowHorizon(s: State, k: Key, t: TxnId, r: int)
    requires Frame(s) && Reading(s, t, r) && k in s.lists
    requires s.lists[k].owner.By? ==> 0 < s.lists[k].owner.w.id < RO_TRANSACTION
    ensures s.lists[k].low <= r < Horizon(s.lists[k]) && 0 < t && r <= s.global
  {
  }

  /** In a state that satisfies the invariant, a transaction committed by epoch `r` is in the
      history of every list it wrote. */
  lemma PartsInState(s: State, t: TxnId, r: int)
    requires SInv(s) && r <= s.global
    ensures forall k :: CommittedBy(s, t, r) && k in s.txns[t].writes && s.txns[t].writes[k] != [] ==>
      PartPresent(s, t, k)
  {
    forall k | CommittedBy(s, t, r) && k in s.txns[t].writes && s.txns[t].writes[k] != []
      ensures PartPresent(s, t, k)
    {
      assert PartDone(s, t, k);
      assert !Owns(s, t, k);
      var a :| 0 <= a < |s.lists[k].hist| && s.lists[k].hist[a].txn == t;
      assert ItemOk(s, k, s.lists[k].hist[a]);
      assert PartAt(s, t, k, a);
    }
  }

  /** Commits are atomic across lists: for a reader at epoch `r`, each transaction committed
      by `r` is in the history of every list it wrote, exactly once and in full, and nobody
      else counts. */
  lemma AtomicVisibility(run: seq<State>, i: nat, t: TxnId, r: int)
    requires IsRun(run) && i < |run| && r <= run[i].global
    ensures forall k :: CommittedBy(run[i], t, r) && k in run[i].txns[t].writes && run[i].txns[t].writes[k] != [] ==>
      PartPresent(run[i], t, k)
    ensures forall k, a :: k in run[i].lists && 0 <= a < |run[i].lists[k].hist| ==>
      PartAt(run[i], run[i].lists[k].hist[a].txn, k, a)
    ensures forall k, a, b :: PartAt(run[i], t, k, a) && PartAt(run[i], t, k, b) ==> a == b
    ensures CommittedBy(run[i], t, r) ==> run[i].txns[t].phase.Finished?
  {
    RunInv(run, i);
    var s := run[i];
    PartsInState(s, t, r);
    forall k, a | k in s.lists && 0 <= a < |s.lists[k].hist|
      ensures PartAt(s, s.lists[k].hist[a].txn, k, a)
    {
      assert ItemOk(s, k, s.lists[k].hist[a]);
    }
    forall k, a, b | PartAt(s, t, k, a) && PartAt(s, t, k, b)
      ensures a == b
    {
      PartsDiffer(s, t, k, a, b);
    }
  }

  lemma PartsDiffer(s: State, t: TxnId, k: Key, a: int, b: int)
    requires ListsOk(s) && PartAt(s, t, k, a) && PartAt(s, t, k, b)
    ensures a == b
  {
    assert ListOk(s, k);
    var h := s.lists[k].hist;
    assert h[a].read < h[a].epoch && h[b].read < h[b].epoch;
  }

  // ---------------------------------------------------------------------------
  // Reads repeat.

  /** A step only appends to a history, and only above the readable epochs. */
  ghost predicate Grows(L: List, L': List, global: int) {
    && L'.base == L.base
    && (L'.hist == L.hist ||
        (|L'.hist| == |L.hist| + 1 && L'.hist[..|L.hist|] == L.hist && global < L'.hist[|L.hist|].epoch))
  }

  lemma TurnGrows(s: State, s': State, step: Step, k: Key)
    requires Epochs(s) && EndingStep(s, s', step) && k in s.lists && (step.Register? || step.Abort?)
    ensures k in s'.lists && Grows(s.lists[k], s'.lists[k], s.global) && s.global <= s'.global
  {
  }

  lemma StartGrows(s: State, s': State, step: Step, k: Key)
    requires Epochs(s) && OperationStep(s, s', step) && k in s.lists
    requires step.FirstTouch? || step.StartInPlace? || step.StartGrowing?
    ensures k in s'.lists && Grows(s.lists[k], s'.lists[k], s.global) && s.global <= s'.global
  {
    hide Victim, Chain, Current, Cut, Rewrite, StartAbort, VersionedList.Register;
  }

  lemma WriteGrows(s: State, s': State, step: Step, k: Key)
    requires Epochs(s) && OperationStep(s, s', step) && k in s.lists && (step.Mark? || step.Insert? || step.Erase?)
    ensures k in s'.lists && Grows(s.lists[k], s'.lists[k], s.global) && s.global <= s'.global
  {
    hide Victim, Chain, Current, Cut, Rewrite, StartAbort, VersionedList.Register;
  }

  lemma CommitGrows(s: State, s': State, step: Step, k: Key)
    requires Epochs(s) && EndingStep(s, s', step) && k in s.lists
    requires step.PublishTail? || step.MarkCommitting? || step.SwingHead? || step.Stamp?
    ensures k in s'.lists && Grows(s.lists[k], s'.lists[k], s.global) && s.global <= s'.global
  {
    hide Victim, Chain, Current, Cut, Rewrite, StartAbort, VersionedList.Register;
  }

  lemma ReleaseGrows(s: State, s': State, step: Step, k: Key)
    requires Epochs(s) && Owners(s) && EndingStep(s, s', step) && k in s.lists
    requires step.ListCommitted? || step.ListAborted?
    ensures k in s'.lists && Grows(s.lists[k], s'.lists[k], s.global) && s.global <= s'.global
  {
    hide Victim, Chain, Current, Cut, Rewrite, StartAbort, VersionedList.Register;
  }

  lemma CompactGrows(s: State, s': State, step: Step, k: Key)
    requires Epochs(s) && CompactionStep(s, s', step) && k in s.lists && (step.CompactCut? || step.CompactRewrite?)
    ensures k in s'.lists && Grows(s.lists[k], s'.lists[k], s.global) && s.global <= s'.global
  {
    hide Victim, Chain, Current, StartAbort, VersionedList.Register;
  }

  lemma StepGrows(s: State, s': State, step: Step, k: Key)
    requires Frame(s) && NextStep(s, s', step) && k in s.lists
    ensures k in s'.lists && Grows(s.lists[k], s'.lists[k], s.global) && s.global <= s'.global
  {
    StepKind(s, s', step);
    hide Locks, Owners, Lows, Items, Complete, Victim, Chain, Current;
    if step.Register? || step.Abort? {
      TurnGrows(s, s', step, k);
    } else if step.FirstTouch? || step.StartInPlace? || step.StartGrowing? {
      StartGrows(s, s', step, k);
    } else if step.Mark? || step.Insert? || step.Erase? {
      WriteGrows(s, s', step, k);
    } else if step.PublishTail? || step.MarkCommitting? || step.SwingHead? || step.Stamp? {
      CommitGrows(s, s', step, k);
    } else if step.ListCommitted? || step.ListAborted? {
      ReleaseGrows(s, s', step, k);
    } else if step.CompactCut? || step.CompactRewrite? {
      CompactGrows(s, s', step, k);
    }
  }

  lemma GrowsKeepsSnapshot(L: List, L': List, global: int, r: int)
    requires Grows(L, L', global) && r <= global
    ensures Snapshot(L'.base, L'.hist, r) == Snapshot(L.base, L.hist, r)
  {
    if L'.hist != L.hist {
      SnapshotStep(L.base, L.hist, L'.hist[|L.hist|], r);
      assert L'.hist == L.hist + [L'.hist[|L.hist|]];
    }
  }

  lemma NextRepeats(s: State, s': State, k: Key, r: int)
    requires SInv(s) && Next(s, s') && k in s.lists && r <= s.global
    ensures k in s'.lists && s.global <= s'.global && s'.lists[k].base == s.lists[k].base
    ensures Snapshot(s'.lists[k].base, s'.lists[k].hist, r) == Snapshot(s.lists[k].base, s.lists[k].hist, r)
  {
    var step :| NextStep(s, s', step);
    StepGrows(s, s', step, k);
    GrowsKeepsSnapshot(s.lists[k], s'.lists[k], s.global, r);
  }

  lemma {:induction false} SnapshotRepeats(run: seq<State>, i: nat, j: nat, k: Key, r: int)
    requires IsRun(run) && i <= j < |run| && k in run[i].lists && r <= run[i].global
    ensures k in run[j].lists && r <= run[j].global
    ensures run[j].lists[k].base == run[i].lists[k].base
    ensures Snapshot(run[j].lists[k].base, run[j].lists[k].hist, r)
         == Snapshot(run[i].lists[k].base, run[i].lists[k].hist, r)
    decreases j
  {
    hide SInv, Next, Snapshot;
    if i < j {
      SnapshotRepeats(run, i, j - 1, k, r);
      RunInv(run, j - 1);
      assert Next(run[j - 1], run[j]);
      NextRepeats(run[j - 1], run[j], k, r);
    }
  }

  /** A reader sees the same list at any two moments of its life, whatever commits, aborts
      and compactions happen in between. */
  lemma RepeatableRead(run: seq<State>, i: nat, j: nat, k: Key, t: TxnId, r: int)
    requires IsRun(run) && i <= j < |run| && Reading(run[i], t, r) && Reading(run[j], t, r)
    requires k in run[i].lists && !Owns(run[i], t, k) && k in run[j].lists && !Owns(run[j], t, k)
    ensures var L, M := run[i].lists[k], run[j].lists[k];
      && WfHeap(L.heap) && -1 <= L.head < |L.heap| && WfHeap(M.heap) && -1 <= M.head < |M.heap|
      && ReadAt(L.heap, L.head, r, t) == ReadAt(M.heap, M.head, r, t)
  {
    SnapshotRead(run, i, k, t, r);
    SnapshotRead(run, j, k, t, r);
    RunInv(run, i);
    assert r <= run[i].global;
    SnapshotRepeats(run, i, j, k, r);
  }

  // ---------------------------------------------------------------------------
  // Read epochs are current.

  /** Who is there stays, with its read epoch and its commit epoch; who comes reads at the
      global epoch; and that one never falls. */
  ghost predicate EpochsFollow(s: State, s': State) {
    && (forall u {:trigger s.txns[u]} {:trigger s'.txns[u]} :: u in s.txns ==>
          && u in s'.txns && s'.txns[u].read == s.txns[u].read
          && (HasEpoch(s.txns[u].phase) ==>
                HasEpoch(s'.txns[u].phase) && s'.txns[u].phase.epoch == s.txns[u].phase.epoch))
    && (forall u {:trigger s'.txns[u]} :: u in s'.txns && u !in s.txns ==> s'.txns[u].read == s.global)
    && (forall x {:trigger s'.readers[x]} :: x in s'.readers ==>
          (x in s.readers && s'.readers[x] == s.readers[x]) || s'.readers[x] == s.global)
    && s.global <= s'.global
  }

  lemma OutsideFollows(s: State, s': State, step: Step)
    requires Epochs(s) && OutsideStep(s, s', step)
    ensures EpochsFollow(s, s')
  {
    hide NobodyBehind, Owns;
  }

  lemma OperationFollows(s: State, s': State, step: Step)
    requires OperationStep(s, s', step)
    ensures EpochsFollow(s, s')
  {
    hide Stay, Grow, MarkDeleted, WriteEntry, EndDelete, Touch, Working;
  }

  lemma EndingFollows(s: State, s': State, step: Step)
    requires EndingStep(s, s', step)
    ensures EpochsFollow(s, s')
  {
    hide CommitHead, FinishStamp, PublishSize, MarkTail, FinishCommit, FinishAbort;
    hide BetweenOperations, TailsDone, HeadsDone;
  }

  lemma CompactionFollows(s: State, s': State, step: Step)
    requires CompactionStep(s, s', step)
    ensures EpochsFollow(s, s')
  {
    hide Cut, Rewrite, CompactionEpoch;
  }

  lemma NextFollows(s: State, s': State, step: Step)
    requires SInv(s) && NextStep(s, s', step)
    ensures EpochsFollow(s, s')
  {
    hide SInv, NextStep, EpochsFollow, OutsideStep, OperationStep, EndingStep, CompactionStep;
    StateEpochs(s);
    KindOf(s, s', step);
    if OutsideStep(s, s', step) {
      OutsideFollows(s, s', step);
    } else if OperationStep(s, s', step) {
      OperationFollows(s, s', step);
    } else if EndingStep(s, s', step) {
      EndingFollows(s, s', step);
    } else {
      CompactionFollows(s, s', step);
    }
  }

  lemma StepFollows(run: seq<State>, m: nat)
    requires IsRun(run) && m + 1 < |run|
    ensures EpochsFollow(run[m], run[m + 1])
  {
    hide SInv, NextStep, Init, Next, EpochsFollow;
    var step := RunStep(run, m);
    NextFollows(run[m], run[m + 1], step);
  }

  lemma KindOf(s: State, s': State, step: Step)
    requires NextStep(s, s', step)
    ensures || OutsideStep(s, s', step) || OperationStep(s, s', step) || EndingStep(s, s', step)
            || CompactionStep(s, s', step)
  {
  }

  lemma StateEpochs(s: State)
    requires SInv(s)
    ensures Epochs(s)
  {
  }

  lemma {:induction false} GlobalGrows(run: seq<State>, i: nat, j: nat)
    requires IsRun(run) && i <= j < |run|
    ensures run[i].global <= run[j].global
    decreases j
  {
    hide IsRun;
    if i < j {
      GlobalGrows(run, i, j - 1);
      StepFollows(run, j - 1);
    }
  }

  /** A transaction keeps its read epoch, and its commit epoch once it has one. */
  lemma {:induction false} ReadStays(run: seq<State>, i: nat, j: nat, u: TxnId)
    requires IsRun(run) && i <= j < |run| && u in run[i].txns
    ensures u in run[j].txns && run[j].txns[u].read == run[i].txns[u].read
    ensures HasEpoch(run[i].txns[u].phase) ==>
      HasEpoch(run[j].txns[u].phase) && run[j].txns[u].phase.epoch == run[i].txns[u].phase.epoch
    decreases j
  {
    hide IsRun;
    if i < j {
      ReadStays(run, i, j - 1, u);
      StepFollows(run, j - 1);
      assert run[j - 1].txns[u].read == run[i].txns[u].read;
    }
  }

  /** A transaction that begins between two moments reads at an epoch that was the latest one
      readable at some time between them. */
  lemma {:induction false} BeginsCurrent(run: seq<State>, i: nat, j: nat, u: TxnId)
    requires IsRun(run) && i <= j < |run| && u !in run[i].txns && u in run[j].txns
    ensures run[i].global <= run[j].txns[u].read <= run[j].global
    decreases j
  {
    hide IsRun;
    StepFollows(run, j - 1);
    GlobalGrows(run, i, j - 1);
    if u in run[j - 1].txns {
      BeginsCurrent(run, i, j - 1, u);
      assert run[j].txns[u].read == run[j - 1].txns[u].read;
    }
  }

  /** So does a read-only one. */
  lemma {:induction false} ReaderBeginsCurrent(run: seq<State>, i: nat, j: nat, x: nat)
    requires IsRun(run) && i <= j < |run| && x !in run[i].readers && x in run[j].readers
    ensures run[i].global <= run[j].readers[x] <= run[j].global
    decreases j
  {
    hide IsRun;
    StepFollows(run, j - 1);
    GlobalGrows(run, i, j - 1);
    if x in run[j - 1].readers && run[j].readers[x] == run[j - 1].readers[x] {
      ReaderBeginsCurrent(run, i, j - 1, x);
    }
  }

  /** Whatever was readable before a transaction or a reader began is in its snapshot, in full. */
  lemma SeesAllBefore(run: seq<State>, i: nat, j: nat, u: TxnId, x: nat, r: int, t: TxnId)
    requires IsRun(run) && i <= j < |run| && CommittedBy(run[i], t, run[i].global)
    requires || (u !in run[i].txns && u in run[j].txns && r == run[j].txns[u].read)
             || (x !in run[i].readers && x in run[j].readers && r == run[j].readers[x])
    ensures CommittedBy(run[j], t, r)
    ensures forall k :: k in run[j].txns[t].writes && run[j].txns[t].writes[k] != [] ==> PartPresent(run[j], t, k)
  {
    hide SInv, IsRun, PartPresent;
    if u !in run[i].txns && u in run[j].txns && r == run[j].txns[u].read {
      BeginsCurrent(run, i, j, u);
    } else {
      ReaderBeginsCurrent(run, i, j, x);
    }
    ReadStays(run, i, j, t);
    AtomicVisibility(run, j, t, r);
  }

  // ---------------------------------------------------------------------------
  // Write conflicts.

  /** A transaction that comes to a list as its first writer meets a conflict if and only if
      somebody has committed to that list after the epoch it reads at. */
  lemma ConflictIffCommitted(run: seq<State>, i: nat, k: Key, t: TxnId)
    requires IsRun(run) && i < |run| && t in run[i].txns && run[i].txns[t].phase.Running?
    requires k in run[i].lists && run[i].lists[k].owner.Nobody?
    ensures var L, r := run[i].lists[k], run[i].txns[t].read;
      && -1 <= L.head < |L.heap|
      && (NoConflict(L, t, r) <==> forall u, a :: PartAt(run[i], u, k, a) ==> run[i].txns[u].phase.epoch <= r)
  {
    RunInv(run, i);
    var s, L, r := run[i], run[i].lists[k], run[i].txns[t].read;
    assert ListOk(s, k);
    BelowRead(s, k, t);
    ConflictIff(L, t, r);
    forall a | 0 <= a < |L.hist|
      ensures PartAt(s, L.hist[a].txn, k, a)
    {
      assert ItemOk(s, k, L.hist[a]);
    }
  }

  lemma BelowRead(s: State, k: Key, t: TxnId)
    requires Frame(s) && k in s.lists && t in s.txns && Live(s.txns[t])
    ensures s.lists[k].low <= s.txns[t].read && 0 < t < RO_TRANSACTION
  {
  }

  /** First committer wins: of two committed transactions that wrote the same list, one
      began after the other's commit had become readable. */
  lemma FirstCommitterWins(run: seq<State>, i: nat, k: Key, t: TxnId, u: TxnId)
    requires IsRun(run) && i < |run| && t != u
    requires t in run[i].txns && HasEpoch(run[i].txns[t].phase) && k in run[i].txns[t].writes
    requires run[i].txns[t].writes[k] != []
    requires u in run[i].txns && HasEpoch(run[i].txns[u].phase) && k in run[i].txns[u].writes
    requires run[i].txns[u].writes[k] != []
    ensures var x, y := run[i].txns[t], run[i].txns[u];
      (x.phase.epoch <= y.read < y.phase.epoch) || (y.phase.epoch <= x.read < x.phase.epoch)
  {
    hide Shape, MarksOwned, HeadOk, ReadersOk, PrivateOk, CountsOk, TodoOk, HomeOk, BlockOk, ListInvariant.OwnView;
    hide Synced, Snapshot, Locks, Lows;
    RunInv(run, i);
    var s := run[i];
    assert PartDone(s, t, k) && PartDone(s, u, k) && ListOk(s, k);
    var L := s.lists[k];
    if InHistory(L, t) && InHistory(L, u) {
      var a :| 0 <= a < |L.hist| && L.hist[a].txn == t;
      var b :| 0 <= b < |L.hist| && L.hist[b].txn == u;
      assert ItemOk(s, k, L.hist[a]) && ItemOk(s, k, L.hist[b]);
    } else {
      var v := if InHistory(L, t) then t else u;
      var a :| 0 <= a < |L.hist| && L.hist[a].txn == v;
      assert ItemOk(s, k, L.hist[a]) && L.hist[a].epoch <= L.owner.w.read;
    }
  }

  // ---------------------------------------------------------------------------
  // A transaction's own view.

  /** The edges a transaction's iterator goes over on a list it has touched: none while the
      list has no block. */
  ghost function OwnEdges(L: List, r: int): seq<Edge>
    requires Working(L)
  {
    if L.owner.w.ptr < 0 then [] else View(Current(L), r, L.owner.w.id)
  }

  /** What its get_edge answers with. */
  ghost function OwnEdge(L: List, dst: Vertex, r: int): seq<Bytes>
    requires Working(L)
  {
    if L.owner.w.ptr < 0 then []
    else
      var i := FindIdx(Current(L), dst, r, L.owner.w.id);
      if i < 0 then [] else [Current(L)[i].data]
  }

  /** Between its operations, a transaction's iterator over a list it has touched shows the
      snapshot at its read epoch with its operations applied in order, reallocations or not,
      and get_edge answers from that list. */
  lemma OwnView(run: seq<State>, i: nat, k: Key, t: TxnId)
    requires IsRun(run) && i < |run| && Owns(run[i], t, k) && t in run[i].txns && run[i].txns[t].phase.Running?
    requires run[i].lists[k].owner.w.stage.Ready?
    ensures var L := run[i].lists[k];
      var x := run[i].txns[t];
      && Working(L) && k in x.writes
      && OwnEdges(L, x.read) == ApplyOps(Snapshot(L.base, L.hist, x.read), x.writes[k])
      && forall dst :: OwnEdge(L, dst, x.read) == Lookup(ApplyOps(Snapshot(L.base, L.hist, x.read), x.writes[k]), dst)
  {
    RunInv(run, i);
    var s, L, x := run[i], run[i].lists[k], run[i].txns[t];
    assert ListOk(s, k);
    if L.owner.w.ptr < 0 {
      assert L.hist == [] && L.base == [] && x.writes[k] == [];
    } else {
      OwnEpochs(L);
      ViewAgrees(Current(L), Current(L), x.read, t, LAST_EPOCH, t);
      SnapshotStable(L.base, L.hist, x.read, LAST_EPOCH);
      forall dst
        ensures Lookup(View(Current(L), x.read, t), dst) == OwnEdge(L, dst, x.read)
      {
        FindIsLookup(Current(L), dst, x.read, t);
      }
    }
  }

  // ---------------------------------------------------------------------------
  // Compaction.

  lemma {:induction false} LocateAvoids(heap: seq<Block>, p: int, bad: set<int>, r: int, t: TxnId)
    requires WfHeap(heap) && -1 <= p < |heap| && ChainAvoids(heap, p, bad)
    ensures Locate(heap, p, r, t) < 0 || Locate(heap, p, r, t) !in bad
    decreases p
  {
    if p >= 0 && !Reached(heap[p].cre, r, t) {
      LocateAvoids(heap, heap[p].prev, bad, r, t);
    }
  }

  /** Whoever looks a block up, now or later, never gets a freed one. */
  lemma NoFreedBlockFound(run: seq<State>, i: nat, k: Key, t: TxnId, r: int)
    requires IsRun(run) && i < |run| && k in run[i].lists
    ensures var L := run[i].lists[k];
      && WfHeap(L.heap) && -1 <= L.head < |L.heap|
      && (Locate(L.heap, L.head, r, t) < 0 || Locate(L.heap, L.head, r, t) !in L.freed)
  {
    RunInv(run, i);
    assert ListOk(run[i], k);
    var L := run[i].lists[k];
    LocateAvoids(L.heap, L.head, L.freed, r, t);
  }

  /** Neither half of compaction changes what a reader at or above its epoch sees. */
  lemma CompactionInvisible(L: List, e: int, r: int)
    requires Inv(L) && L.owner.Nobody? && 0 <= e <= r < TOMBSTONE && L.low <= r
    ensures var C := Cut(L, e);
      Shape(C) && ReadAt(C.heap, C.head, r, RO_TRANSACTION) == ReadAt(L.heap, L.head, r, RO_TRANSACTION)
    ensures var R := Rewrite(L, e);
      Shape(R) && ReadAt(R.heap, R.head, r, RO_TRANSACTION) == ReadAt(L.heap, L.head, r, RO_TRANSACTION)
  {
    CutKeeps(L, e);
    RewriteKeeps(L, e);
    assert ReadAt(L.heap, L.head, r, RO_TRANSACTION) == Snapshot(L.base, L.hist, r);
    var C, R := Cut(L, e), Rewrite(L, e);
    assert ReadAt(C.heap, C.head, r, RO_TRANSACTION) == Snapshot(L.base, L.hist, r);
    assert ReadAt(R.heap, R.head, r, RO_TRANSACTION) == Snapshot(L.base, L.hist, r);
  }
}
