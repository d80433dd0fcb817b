/** Nobody gets stuck in the store: whatever the others have done, a transaction can take its
    next step, except that it may have to wait for a vertex lock or give way to a conflict. */
module Progress {
  import opened Timestamps
  import opened EdgeLog
  import opened VersionedList
  import opened ListInvariant
  import opened Store
  import opened StoreInvariant
  import R = SnapshotIsolation

  ghost predicate Enabled(s: State, step: Step) {
    exists s' :: NextStep(s, s', step)
  }

  lemma OperationEnabled(s: State, s': State, step: Step)
    requires OperationStep(s, s', step)
    ensures Enabled(s, step)
  {
    hide OutsideStep, OperationStep, EndingStep, CompactionStep;
    assert NextStep(s, s', step);
  }

  lemma EndingEnabled(s: State, s': State, step: Step)
    requires EndingStep(s, s', step)
    ensures Enabled(s, step)
  {
    hide OutsideStep, OperationStep, EndingStep, CompactionStep;
    assert NextStep(s, s', step);
  }

  lemma OutsideEnabled(s: State, s': State, step: Step)
    requires OutsideStep(s, s', step)
    ensures Enabled(s, step)
  {
    hide OutsideStep, OperationStep, EndingStep, CompactionStep;
    assert NextStep(s, s', step);
  }

  lemma CompactionEnabled(s: State, s': State, step: Step)
    requires CompactionStep(s, s', step)
    ensures Enabled(s, step)
  {
    hide OutsideStep, OperationStep, EndingStep, CompactionStep;
    assert NextStep(s, s', step);
  }

  // ---------------------------------------------------------------------------
  // A running transaction.

  /** On a list that the transaction works on, the next write can happen; between operations,
      any operation can start, put_edge with or without a new block. */
  ghost predicate ListGoesOn(s: State, t: TxnId, k: Key)
    requires Owns(s, t, k)
  {
    var w := s.lists[k].owner.w;
    match w.stage
    case Ready =>
      && (forall op: Op {:trigger Step.StartGrowing(t, k, op)} :: op.Put? ==> Enabled(s, Step.StartGrowing(t, k, op)))
      && (0 <= w.ptr ==>
            forall op: Op {:trigger Step.StartInPlace(t, k, op)} :: Enabled(s, Step.StartInPlace(t, k, op)))
    case Finding(op) => Enabled(s, Step.Mark(t, k))
    case Adding(op) => Enabled(s, if op.Put? then Step.Insert(t, k) else Step.Erase(t, k))
  }

  lemma OwnedWorks(s: State, t: TxnId, k: Key)
    requires SInv(s) && t in s.txns && s.txns[t].phase.Running? && Owns(s, t, k)
    ensures InPhase(s, t, k, IsRunning) && Working(s.lists[k])
    ensures !s.lists[k].owner.w.stage.Ready? ==> InOp(s.lists[k])
  {
    hide Locks, Lows, Items, Complete, HistOk, MarksOwned, HeadOk, ReadersOk, PrivateOk, TodoOk, HomeOk, BlockOk;
    assert ListOk(s, k);
  }

  lemma ListCanGo(s: State, t: TxnId, k: Key)
    requires SInv(s) && t in s.txns && s.txns[t].phase.Running? && Owns(s, t, k)
    ensures ListGoesOn(s, t, k)
  {
    hide SInv, Enabled, Working, Grow, Stay, MarkDeleted, WriteEntry, EndDelete, SetList, SetOps, InPhase, InOp;
    OwnedWorks(s, t, k);
    var L := s.lists[k];
    match L.owner.w.stage {
      case Ready =>
        forall op: Op {:trigger Step.StartGrowing(t, k, op)} | op.Put?
          ensures Enabled(s, Step.StartGrowing(t, k, op))
        {
          OperationEnabled(s, SetList(s, k, Grow(L, op)), Step.StartGrowing(t, k, op));
        }
        forall op: Op {:trigger Step.StartInPlace(t, k, op)} | 0 <= L.owner.w.ptr
          ensures Enabled(s, Step.StartInPlace(t, k, op))
        {
          OperationEnabled(s, SetList(s, k, Stay(L, op)), Step.StartInPlace(t, k, op));
        }
      case Finding(op) => OperationEnabled(s, SetList(s, k, MarkDeleted(L)), Step.Mark(t, k));
      case Adding(op) =>
        WriterStays(L);
        if op.Put? {
          OperationEnabled(s, SetOps(s, t, k, WriteEntry(L)), Step.Insert(t, k));
        } else {
          OperationEnabled(s, SetOps(s, t, k, EndDelete(L)), Step.Erase(t, k));
        }
    }
  }

  lemma WriterStays(L: List)
    requires InOp(L) && L.owner.w.stage.Adding?
    ensures L.owner.w.stage.op.Put? ==> WriteEntry(L).owner.By?
    ensures L.owner.w.stage.op.Del? ==> EndDelete(L).owner.By?
  {
  }

  /** A running transaction can lock a vertex that is free, come to a list of a vertex that it
      has locked unless there is a conflict, go on with its operations, give up at any time, and
      ask for an epoch between two operations. */
  ghost predicate RunningGoesOn(s: State, t: TxnId) {
    && (forall v {:trigger Step.Lock(t, v)} :: v !in s.locks ==> Enabled(s, Step.Lock(t, v)))
    && (forall k {:trigger Step.FirstTouch(t, k)} :: CanTouch(s, t, k) ==> Enabled(s, Step.FirstTouch(t, k)))
    && (forall k {:trigger Owns(s, t, k)} :: Owns(s, t, k) ==> ListGoesOn(s, t, k))
    && Enabled(s, Step.Abort(t))
    && (forall c {:trigger Step.Register(t, c)} ::
          BetweenOperations(s, t) && s.global < c < LAST_EPOCH && s.writing <= c <= s.writing + 1 ==>
            Enabled(s, Step.Register(t, c)))
  }

  /** Its vertex is locked for `t`, nobody works on it, and nobody has committed to it after the
      epoch that `t` reads at. */
  ghost predicate CanTouch(s: State, t: TxnId, k: Key) {
    && t in s.txns && k.src in s.locks && s.locks[k.src] == t && k in s.lists && s.lists[k].owner.Nobody?
    && forall i :: 0 <= i < |s.lists[k].hist| ==> s.lists[k].hist[i].epoch <= s.txns[t].read
  }

  lemma TouchEnabled(s: State, t: TxnId, k: Key)
    requires SInv(s) && t in s.txns && s.txns[t].phase.Running? && CanTouch(s, t, k)
    ensures Enabled(s, Step.FirstTouch(t, k))
  {
    hide ReadersOk, HeadOk, HistOk, MarksOwned, Locks, Owners, Items, Complete, Enabled, NoConflict, ChainAvoids;
    assert ListOk(s, k);
    var L, r := s.lists[k], s.txns[t].read;
    R.BelowRead(s, k, t);
    ConflictIff(L, t, r);
    OperationEnabled(s, SetOps(s, t, k, Touch(L, t, r)), Step.FirstTouch(t, k));
  }

  lemma RunningCanGo(s: State, t: TxnId)
    requires SInv(s) && t in s.txns && s.txns[t].phase.Running?
    ensures RunningGoesOn(s, t)
  {
    hide SInv, Enabled, ListGoesOn, BetweenOperations, Owns, Registered, AbortStarted, CanTouch;
    forall v {:trigger Step.Lock(t, v)} | v !in s.locks
      ensures Enabled(s, Step.Lock(t, v))
    {
      OutsideEnabled(s, s.(locks := s.locks[v := t]), Step.Lock(t, v));
    }
    forall k {:trigger Step.FirstTouch(t, k)} | CanTouch(s, t, k)
      ensures Enabled(s, Step.FirstTouch(t, k))
    {
      TouchEnabled(s, t, k);
    }
    forall k {:trigger Owns(s, t, k)} | Owns(s, t, k)
      ensures ListGoesOn(s, t, k)
    {
      ListCanGo(s, t, k);
    }
    EndingEnabled(s, AbortStarted(s, t), Step.Abort(t));
    forall c {:trigger Step.Register(t, c)} |
      BetweenOperations(s, t) && s.global < c < LAST_EPOCH && s.writing <= c <= s.writing + 1
      ensures Enabled(s, Step.Register(t, c))
    {
      EndingEnabled(s, Registered(s, t, c), Step.Register(t, c));
    }
  }

  // ---------------------------------------------------------------------------
  // Commit and abort.

  lemma OwnedCommits(s: State, t: TxnId, k: Key)
    requires SInv(s) && t in s.txns && s.txns[t].phase.Publishing? && Owns(s, t, k)
    ensures InPhase(s, t, k, IsPublishing) && s.lists[k].owner.w.mode.Committing?
    ensures var w := s.lists[k].owner.w;
      && WfHeap(s.lists[k].heap) && -1 <= s.lists[k].head < |s.lists[k].heap|
      && (forall b :: b in w.tails ==> b in w.cnt && 0 <= b < |s.lists[k].heap|)
      && (w.todo != [] ==> ValidLoc(s.lists[k].heap, w.todo[0]))
  {
    hide Locks, Lows, Items, Complete, HistOk, MarksOwned, HeadOk, ReadersOk, PrivateOk, HomeOk, BlockOk;
    assert ListOk(s, k);
    var w := s.lists[k].owner.w;
    assert w.todo != [] ==> w.todo[0] in w.todo;
  }

  /** A block whose sizes are not published yet gets them first and is marked then. */
  lemma TailGoesOn(s: State, t: TxnId, k: Key, b: int) returns (step: Step)
    requires SInv(s) && t in s.txns && s.txns[t].phase.Publishing? && Owns(s, t, k) && b in s.lists[k].owner.w.tails
    ensures (step.PublishTail? || step.MarkCommitting?) && step.t == t && Enabled(s, step)
  {
    hide SInv, Enabled, PublishSize, MarkTail, SetList;
    OwnedCommits(s, t, k);
    var L := s.lists[k];
    if L.heap[b].n == L.owner.w.cnt[b] {
      step := MarkCommitting(t, k, b);
      EndingEnabled(s, SetList(s, k, MarkTail(L, b)), step);
    } else {
      step := PublishTail(t, k, b);
      EndingEnabled(s, SetList(s, k, PublishSize(L, b)), step);
    }
  }

  lemma NoElement(bs: set<int>)
    requires forall b {:trigger b in bs} :: b !in bs
    ensures bs == {}
  {
    forall b ensures b !in bs {}
  }

  lemma AllPublished(s: State, t: TxnId)
    requires forall k, b {:trigger Owns(s, t, k), b in s.lists[k].owner.w.tails} ::
      Owns(s, t, k) ==> b !in s.lists[k].owner.w.tails
    ensures TailsDone(s, t)
  {
    forall k {:trigger Owns(s, t, k)} | Owns(s, t, k)
      ensures s.lists[k].owner.w.tails == {}
    {
      NoElement(s.lists[k].owner.w.tails);
    }
  }

  /** When the sizes are published, the label entry, the stamps and the end of the commit follow. */
  lemma PublishedGoesOn(s: State, t: TxnId, k: Key) returns (step: Step)
    requires SInv(s) && t in s.txns && s.txns[t].phase.Publishing? && Owns(s, t, k)
    requires TailsDone(s, t) && (HeadsDone(s, t) || !s.lists[k].owner.w.headDone)
    requires StampsDone(s, t) || !s.lists[k].owner.w.headDone || s.lists[k].owner.w.todo != []
    ensures step.SwingHead? || step.Stamp? || step.ListCommitted?
    ensures step.t == t && Enabled(s, step)
  {
    hide SInv, Enabled, CommitHead, FinishStamp, FinishCommit, SetList, WfHeap, ValidLoc;
    hide TailsDone, HeadsDone, StampsDone;
    OwnedCommits(s, t, k);
    var L := s.lists[k];
    if !L.owner.w.headDone {
      step := SwingHead(t, k);
      EndingEnabled(s, SetList(s, k, CommitHead(L)), step);
    } else if L.owner.w.todo != [] {
      step := Stamp(t, k);
      EndingEnabled(s, SetList(s, k, FinishStamp(L)), step);
    } else {
      step := ListCommitted(t, k);
      EndingEnabled(s, SetList(s, k, FinishCommit(L)), step);
    }
  }

  /** The next write of a commit. */
  lemma CommitGoesOn(s: State, t: TxnId) returns (step: Step)
    requires SInv(s) && t in s.txns && s.txns[t].phase.Publishing?
    ensures || step.PublishTail? || step.MarkCommitting? || step.SwingHead? || step.Stamp? || step.ListCommitted?
            || step.Unlock? || step.Clean?
    ensures step.t == t && Enabled(s, step)
  {
    hide SInv, Enabled;
    if k, b :| Owns(s, t, k) && b in s.lists[k].owner.w.tails {
      step := TailGoesOn(s, t, k, b);
      return;
    }
    AllPublished(s, t);
    if k :| Owns(s, t, k) && !s.lists[k].owner.w.headDone {
      step := PublishedGoesOn(s, t, k);
    } else if k :| Owns(s, t, k) && s.lists[k].owner.w.todo != [] {
      step := PublishedGoesOn(s, t, k);
    } else if k :| Owns(s, t, k) {
      step := PublishedGoesOn(s, t, k);
    } else {
      step := Leaves(s, t);
    }
  }

  /** Without lists of its own the transaction gives back its locks and goes. */
  lemma Leaves(s: State, t: TxnId) returns (step: Step)
    requires t in s.txns && (s.txns[t].phase.Publishing? || s.txns[t].phase.RollingBack?)
    requires forall k {:trigger Owns(s, t, k)} :: !Owns(s, t, k)
    ensures (step.Unlock? || step.Clean?) && step.t == t && Enabled(s, step)
  {
    hide Enabled, Owns;
    if v :| v in s.locks && s.locks[v] == t {
      step := Unlock(t, v);
      OutsideEnabled(s, s.(locks := s.locks - {v}), step);
    } else {
      step := Clean(t);
      var phase := if s.txns[t].phase.Publishing? then Phase.Released(s.txns[t].phase.epoch) else Aborted;
      OutsideEnabled(s, SetPhase(s, t, phase), step);
    }
  }

  lemma OwnedRollsBack(s: State, t: TxnId, k: Key)
    requires SInv(s) && t in s.txns && s.txns[t].phase.RollingBack? && Owns(s, t, k)
    ensures InPhase(s, t, k, IsRollingBack) && s.lists[k].owner.w.floor <= |s.lists[k].heap|
    ensures s.lists[k].owner.w.todo != [] ==> ValidLoc(s.lists[k].heap, s.lists[k].owner.w.todo[0])
  {
    hide Locks, Lows, Items, Complete, HistOk, MarksOwned, HeadOk, ReadersOk, PrivateOk, HomeOk, BlockOk;
    assert ListOk(s, k);
    var w := s.lists[k].owner.w;
    assert w.todo != [] ==> w.todo[0] in w.todo;
  }

  /** The next write of an abort. */
  lemma AbortGoesOn(s: State, t: TxnId) returns (step: Step)
    requires SInv(s) && t in s.txns && s.txns[t].phase.RollingBack?
    ensures (step.Stamp? || step.ListAborted? || step.Unlock? || step.Clean?) && step.t == t && Enabled(s, step)
  {
    hide SInv, Enabled, InPhase, FinishStamp, FinishAbort, SetList, ValidLoc;
    if k :| Owns(s, t, k) {
      OwnedRollsBack(s, t, k);
      if s.lists[k].owner.w.todo != [] {
        step := Stamp(t, k);
        EndingEnabled(s, SetList(s, k, FinishStamp(s.lists[k])), step);
      } else {
        step := ListAborted(t, k);
        EndingEnabled(s, SetList(s, k, FinishAbort(s.lists[k])), step);
      }
    } else {
      step := Leaves(s, t);
    }
  }

  lemma FinishEnabled(s: State, t: TxnId)
    requires t in s.txns && s.txns[t].phase.Released?
    ensures Enabled(s, Step.Finish(t))
  {
    OutsideEnabled(s, SetPhase(s, t, Phase.Finished(s.txns[t].phase.epoch)), Step.Finish(t));
  }

  // ---------------------------------------------------------------------------
  // Whole runs.

  ghost predicate EndGoesOn(s: State, t: TxnId) {
    exists step :: EndsWith(s, t, step)
  }

  /** A write of commit or abort, or what comes after the last one. */
  ghost predicate EndsWith(s: State, t: TxnId, step: Step) {
    && Enabled(s, step)
    && (|| step.PublishTail? || step.MarkCommitting? || step.SwingHead? || step.Stamp? || step.ListCommitted?
        || step.ListAborted? || step.Unlock? || step.Clean? || step.Finish?)
    && step.t == t
  }

  /** Compaction can go over a vertex that nobody has locked, at any epoch no reader is below. */
  lemma CompactionCanGo(run: seq<State>, i: nat, k: Key, e: int)
    requires IsRun(run) && i < |run| && k in run[i].lists && k.src !in run[i].locks && CompactionEpoch(run[i], e)
    ensures Enabled(run[i], CompactCut(k, e)) && Enabled(run[i], CompactRewrite(k, e))
  {
    hide Enabled, Inv, Cut, Rewrite, SetList, Frame;
    R.RunInv(run, i);
    var s := run[i];
    assert ListOk(s, k);
    ShapeOf(s.lists[k]);
    CompactionEnabled(s, SetList(s, k, Cut(s.lists[k], e)), CompactCut(k, e));
    CompactionEnabled(s, SetList(s, k, Rewrite(s.lists[k], e)), CompactRewrite(k, e));
  }

  lemma ShapeOf(L: List)
    requires Inv(L)
    ensures WfHeap(L.heap) && -1 <= L.head < |L.heap|
  {
  }

  /** Anybody can begin as long as there are ids, and a reader can end. */
  lemma ReadersCanGo(s: State, x: nat)
    ensures s.nextTxn + 1 < RO_TRANSACTION ==> Enabled(s, Begin)
    ensures x !in s.readers ==> Enabled(s, BeginReadOnly(x))
    ensures Enabled(s, EndReadOnly(x))
  {
    hide Enabled;
    if s.nextTxn + 1 < RO_TRANSACTION {
      var txns := s.txns[s.nextTxn := Txn(s.global, Running, map[])];
      OutsideEnabled(s, s.(nextTxn := s.nextTxn + 1, txns := txns), Begin);
    }
    if x !in s.readers {
      OutsideEnabled(s, s.(readers := s.readers[x := s.global]), BeginReadOnly(x));
    }
    OutsideEnabled(s, s.(readers := s.readers - {x}), EndReadOnly(x));
  }

  /** Over all runs, a transaction that has not ended can go on by itself. */
  lemma NobodyStuck(run: seq<State>, i: nat, t: TxnId)
    requires IsRun(run) && i < |run| && t in run[i].txns
    ensures run[i].txns[t].phase.Running? ==> RunningGoesOn(run[i], t)
    ensures run[i].txns[t].phase.Publishing? || run[i].txns[t].phase.RollingBack? || run[i].txns[t].phase.Released? ==>
      EndGoesOn(run[i], t)
  {
    hide SInv, RunningGoesOn, Enabled;
    R.RunInv(run, i);
    match run[i].txns[t].phase {
      case Running => RunningCanGo(run[i], t);
      case Publishing(_) =>
        var step := CommitGoesOn(run[i], t);
        assert EndsWith(run[i], t, step);
      case RollingBack =>
        var step := AbortGoesOn(run[i], t);
        assert EndsWith(run[i], t, step);
      case Released(_) =>
        FinishEnabled(run[i], t);
        assert EndsWith(run[i], t, Step.Finish(t));
      case _ =>
    }
  }
}
