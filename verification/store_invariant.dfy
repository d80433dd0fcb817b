/** The invariant of the whole store, kept by every step.

    Every list satisfies its own invariant.  Around the lists, `Frame` ties them to the
    transactions: epochs are ordered, whoever works on a list holds the lock on its source
    vertex, no live reader is below what compaction may have dropped, the history of each
    list consists of the parts that committed transactions recorded, and no such part is
    missing.  The steps that touch one list are reduced to the lemmas about single lists;
    registering a commit and starting an abort touch all lists of a transaction at once. */
module StoreInvariant {
  import opened Timestamps
  import opened EdgeLog
  import opened VersionedList
  import opened ListInvariant
  import opened Store

  predicate HasEpoch(p: Phase) {
    p.Publishing? || p.Released? || p.Finished?
  }

  ghost predicate Epochs(s: State) {
    && 0 <= s.global <= s.writing < LAST_EPOCH
    && 1 <= s.nextTxn < RO_TRANSACTION
    && (forall t {:trigger s.txns[t]} :: t in s.txns ==>
          && 0 < t < s.nextTxn
          && 0 <= s.txns[t].read <= s.global
          && (HasEpoch(s.txns[t].phase) ==> s.txns[t].read < s.txns[t].phase.epoch <= s.writing)
          && (s.txns[t].phase.Publishing? || s.txns[t].phase.Released? ==> s.global < s.txns[t].phase.epoch))
    && (forall r {:trigger s.readers[r]} :: r in s.readers ==> 0 <= s.readers[r] <= s.global)
  }

  ghost predicate Locks(s: State) {
    forall v {:trigger s.locks[v]} :: v in s.locks ==> s.locks[v] in s.txns && Live(s.txns[s.locks[v]])
  }

  ghost predicate ListOk(s: State, k: Key) {
    k in s.lists ==> Inv(s.lists[k])
  }

  ghost predicate ListsOk(s: State) {
    forall k {:trigger ListOk(s, k)} :: ListOk(s, k)
  }

  predicate ModeMatches(p: Phase, m: Mode) {
    match p
    case Running => m.Active?
    case Publishing(c) => m == Committing(c)
    case RollingBack => m.Aborting?
    case _ => false
  }

  /** Whoever works on a list holds the lock on its source vertex. */
  ghost predicate Owners(s: State) {
    forall k {:trigger s.lists[k]} :: k in s.lists && s.lists[k].owner.By? ==>
      var w := s.lists[k].owner.w;
      && w.id in s.txns && k.src in s.locks && s.locks[k.src] == w.id
      && w.read == s.txns[w.id].read && ModeMatches(s.txns[w.id].phase, w.mode)
      && k in s.txns[w.id].writes && s.txns[w.id].writes[k] == w.ops
  }

  /** No live reader is below the bound of any list. */
  ghost predicate Lows(s: State) {
    forall k {:trigger s.lists[k]} :: k in s.lists ==>
      && s.lists[k].low <= s.global
      && (forall t {:trigger s.txns[t]} :: t in s.txns && Live(s.txns[t]) ==> s.lists[k].low <= s.txns[t].read)
      && (forall r {:trigger s.readers[r]} :: r in s.readers ==> s.lists[k].low <= s.readers[r])
  }

  ghost predicate ItemOk(s: State, k: Key, it: Item) {
    && it.txn in s.txns && HasEpoch(s.txns[it.txn].phase)
    && it.epoch == s.txns[it.txn].phase.epoch && it.read == s.txns[it.txn].read
    && k in s.txns[it.txn].writes && s.txns[it.txn].writes[k] == it.ops
  }

  /** The history of a list consists of transactions' parts, as they recorded them. */
  ghost predicate Items(s: State) {
    forall k, i {:trigger s.lists[k].hist[i]} :: k in s.lists && 0 <= i < |s.lists[k].hist| ==>
      ItemOk(s, k, s.lists[k].hist[i])
  }

  ghost predicate InHistory(L: List, t: TxnId) {
    exists i :: 0 <= i < |L.hist| && L.hist[i].txn == t
  }

  /** The part of `t` in this list is still being worked on, or has been committed. */
  ghost predicate PartDone(s: State, t: TxnId, k: Key)
    requires t in s.txns && k in s.txns[t].writes
  {
    && (s.txns[t].phase.Running? ==> Owns(s, t, k))
    && (HasEpoch(s.txns[t].phase) && s.txns[t].writes[k] != [] ==>
          k in s.lists && (Owns(s, t, k) || InHistory(s.lists[k], t)))
  }

  /** No part of a committed transaction is forgotten. */
  ghost predicate Complete(s: State) {
    forall t, k {:trigger PartDone(s, t, k)} :: t in s.txns && k in s.txns[t].writes ==> PartDone(s, t, k)
  }

  /** Everything but the invariants of the single lists. */
  ghost predicate Frame(s: State) {
    Epochs(s) && Locks(s) && Owners(s) && Lows(s) && Items(s) && Complete(s)
  }

  ghost predicate SInv(s: State) {
    ListsOk(s) && Frame(s)
  }

  lemma InitInv(s: State)
    requires Init(s)
    ensures SInv(s)
  {
    forall k {:trigger ListOk(s, k)}
      ensures ListOk(s, k)
    {
      if k in s.lists {
        BulkLoadedInv(s.lists[k], s.global);
      }
    }
  }

  // ---------------------------------------------------------------------------
  // Steps of one writer on one list.

  ghost predicate SameWriter(L: List, L': List) {
    && L.owner.By? && L'.owner.By?
    && L'.owner.w.id == L.owner.w.id && L'.owner.w.read == L.owner.w.read && L'.owner.w.mode == L.owner.w.mode
    && L'.hist == L.hist && L'.low == L.low
  }

  lemma OneList(s: State, s': State, key: Key, L': List)
    requires ListsOk(s) && Inv(L') && s'.lists == s.lists[key := L']
    ensures ListsOk(s')
  {
    forall k {:trigger ListOk(s', k)}
      ensures ListOk(s', k)
    {
      assert ListOk(s, k);
    }
  }

  lemma WriterOwners(s: State, key: Key, L': List)
    requires Epochs(s) && Locks(s) && Owners(s) && Lows(s) && key in s.lists && SameWriter(s.lists[key], L')
    requires L'.owner.w.ops == s.lists[key].owner.w.ops
    ensures var s' := SetList(s, key, L'); Epochs(s') && Locks(s') && Owners(s') && Lows(s')
  {
  }

  lemma WriterHistory(s: State, key: Key, L': List)
    requires Items(s) && Complete(s) && key in s.lists && SameWriter(s.lists[key], L')
    ensures var s' := SetList(s, key, L'); Items(s') && Complete(s')
  {
    var s' := SetList(s, key, L');
    forall k, i {:trigger s'.lists[k].hist[i]} | k in s'.lists && 0 <= i < |s'.lists[k].hist|
      ensures ItemOk(s', k, s'.lists[k].hist[i])
    {
      assert ItemOk(s, k, s.lists[k].hist[i]);
    }
    forall u, k {:trigger PartDone(s', u, k)} | u in s'.txns && k in s'.txns[u].writes
      ensures PartDone(s', u, k)
    {
      assert s.txns[u].writes[k] == s'.txns[u].writes[k];
      assert PartDone(s, u, k);
      assert Owns(s, u, k) ==> Owns(s', u, k);
    }
  }

  /** Any step of a writer that completes no operation. */
  lemma WriterStep(s: State, key: Key, L': List)
    requires SInv(s) && key in s.lists && SameWriter(s.lists[key], L') && Inv(L')
    requires L'.owner.w.ops == s.lists[key].owner.w.ops
    ensures SInv(SetList(s, key, L'))
  {
    OneList(s, SetList(s, key, L'), key, L');
    WriterOwners(s, key, L');
    WriterHistory(s, key, L');
  }

  ghost predicate CanWrite(s: State, t: TxnId, key: Key, L': List) {
    && key in s.lists && t in s.txns && s.txns[t].phase.Running?
    && L'.owner.By? && L'.owner.w.id == t && L'.owner.w.read == s.txns[t].read && L'.owner.w.mode.Active?
    && L'.hist == s.lists[key].hist && L'.low == s.lists[key].low
    && key.src in s.locks && s.locks[key.src] == t
    && (s.lists[key].owner.By? ==> s.lists[key].owner.w.id == t)
  }

  lemma OpsOwners(s: State, t: TxnId, key: Key, L': List)
    requires Epochs(s) && Locks(s) && Owners(s) && Lows(s) && CanWrite(s, t, key, L')
    ensures var s' := SetOps(s, t, key, L'); Epochs(s') && Locks(s') && Owners(s') && Lows(s')
  {
  }

  lemma OpsHistory(s: State, t: TxnId, key: Key, L': List)
    requires Items(s) && Complete(s) && CanWrite(s, t, key, L')
    ensures var s' := SetOps(s, t, key, L'); Items(s') && Complete(s')
  {
    var s' := SetOps(s, t, key, L');
    forall k, i {:trigger s'.lists[k].hist[i]} | k in s'.lists && 0 <= i < |s'.lists[k].hist|
      ensures ItemOk(s', k, s'.lists[k].hist[i])
    {
      assert ItemOk(s, k, s.lists[k].hist[i]);
    }
    forall u, k {:trigger PartDone(s', u, k)} | u in s'.txns && k in s'.txns[u].writes
      ensures PartDone(s', u, k)
    {
      if u == t && k == key {
        assert Owns(s', u, k);
      } else {
        assert PartDone(s, u, k);
        assert Owns(s, u, k) ==> Owns(s', u, k);
      }
    }
  }

  /** A step of a writer that touches a list or completes an operation. */
  lemma OpsStep(s: State, t: TxnId, key: Key, L': List)
    requires SInv(s) && CanWrite(s, t, key, L') && Inv(L')
    ensures SInv(SetOps(s, t, key, L'))
  {
    OneList(s, SetOps(s, t, key, L'), key, L');
    OpsOwners(s, t, key, L');
    OpsHistory(s, t, key, L');
  }

  lemma StartInPlaceKeeps(s: State, s': State, t: TxnId, key: Key, op: Op)
    requires SInv(s) && OperationStep(s, s', StartInPlace(t, key, op))
    ensures SInv(s')
  {
    assert ListOk(s, key);
    StayKeeps(s.lists[key], op);
    WriterStep(s, key, Stay(s.lists[key], op));
  }

  lemma StartGrowingKeeps(s: State, s': State, t: TxnId, key: Key, op: Op)
    requires SInv(s) && OperationStep(s, s', StartGrowing(t, key, op))
    ensures SInv(s')
  {
    assert ListOk(s, key);
    GrowKeeps(s.lists[key], op);
    WriterStep(s, key, Grow(s.lists[key], op));
  }

  lemma MarkStepKeeps(s: State, s': State, t: TxnId, key: Key)
    requires SInv(s) && OperationStep(s, s', Mark(t, key))
    ensures SInv(s')
  {
    assert ListOk(s, key);
    MarkKeeps(s.lists[key]);
    WriterStep(s, key, MarkDeleted(s.lists[key]));
  }

  lemma PublishTailKeeps(s: State, s': State, t: TxnId, key: Key, b: int)
    requires SInv(s) && EndingStep(s, s', PublishTail(t, key, b))
    ensures SInv(s')
  {
    assert ListOk(s, key);
    PublishSizeKeeps(s.lists[key], b);
    WriterStep(s, key, PublishSize(s.lists[key], b));
  }

  lemma MarkCommittingKeeps(s: State, s': State, t: TxnId, key: Key, b: int)
    requires SInv(s) && EndingStep(s, s', MarkCommitting(t, key, b))
    ensures SInv(s')
  {
    assert ListOk(s, key);
    MarkTailKeeps(s.lists[key], b);
    WriterStep(s, key, MarkTail(s.lists[key], b));
  }

  lemma SwingHeadKeeps(s: State, s': State, t: TxnId, key: Key)
    requires SInv(s) && EndingStep(s, s', SwingHead(t, key))
    ensures SInv(s')
  {
    assert ListOk(s, key);
    CommitHeadKeeps(s.lists[key]);
    WriterStep(s, key, CommitHead(s.lists[key]));
  }

  lemma StampStepKeeps(s: State, s': State, t: TxnId, key: Key)
    requires SInv(s) && EndingStep(s, s', Stamp(t, key))
    ensures SInv(s')
  {
    assert ListOk(s, key);
    FinishStampKeeps(s.lists[key]);
    WriterStep(s, key, FinishStamp(s.lists[key]));
  }

  lemma FirstTouchKeeps(s: State, s': State, t: TxnId, key: Key)
    requires SInv(s) && OperationStep(s, s', FirstTouch(t, key))
    ensures SInv(s')
  {
    assert ListOk(s, key);
    TouchKeeps(s.lists[key], t, s.txns[t].read);
    OpsStep(s, t, key, Touch(s.lists[key], t, s.txns[t].read));
  }

  lemma InsertKeeps(s: State, s': State, t: TxnId, key: Key)
    requires SInv(s) && OperationStep(s, s', Insert(t, key))
    ensures SInv(s')
  {
    assert ListOk(s, key);
    WriteKeeps(s.lists[key]);
    OpsStep(s, t, key, WriteEntry(s.lists[key]));
  }

  lemma EraseKeeps(s: State, s': State, t: TxnId, key: Key)
    requires SInv(s) && OperationStep(s, s', Erase(t, key))
    ensures SInv(s')
  {
    assert ListOk(s, key);
    EndDeleteKeeps(s.lists[key]);
    OpsStep(s, t, key, EndDelete(s.lists[key]));
  }

  // ---------------------------------------------------------------------------
  // Steps that leave the lists alone.

  ghost predicate SameRecord(s: State, s': State, u: TxnId)
    requires u in s'.txns
  {
    if u !in s.txns then !HasEpoch(s'.txns[u].phase) && s'.txns[u].writes == map[]
    else
      && s'.txns[u].read == s.txns[u].read && s'.txns[u].writes == s.txns[u].writes
      && (s'.txns[u].phase.Running? ==> s.txns[u].phase.Running?)
      && (HasEpoch(s.txns[u].phase) <==> HasEpoch(s'.txns[u].phase))
      && (HasEpoch(s.txns[u].phase) ==> s'.txns[u].phase.epoch == s.txns[u].phase.epoch)
  }

  lemma SameHistory(s: State, s': State)
    requires Items(s) && Complete(s) && s'.lists == s.lists && s.txns.Keys <= s'.txns.Keys
    requires forall u {:trigger s'.txns[u]} :: u in s'.txns ==> SameRecord(s, s', u)
    ensures Items(s') && Complete(s')
  {
    forall k, i {:trigger s'.lists[k].hist[i]} | k in s'.lists && 0 <= i < |s'.lists[k].hist|
      ensures ItemOk(s', k, s'.lists[k].hist[i])
    {
      assert ItemOk(s, k, s.lists[k].hist[i]);
      assert SameRecord(s, s', s.lists[k].hist[i].txn);
    }
    forall u, k {:trigger PartDone(s', u, k)} | u in s'.txns && k in s'.txns[u].writes
      ensures PartDone(s', u, k)
    {
      assert SameRecord(s, s', u);
      assert PartDone(s, u, k);
      assert Owns(s, u, k) ==> Owns(s', u, k);
    }
  }

  lemma BeginKeeps(s: State, s': State)
    requires Frame(s) && OutsideStep(s, s', Begin)
    ensures Frame(s')
  {
    hide Items, Complete, ItemOk, PartDone;
    SameHistory(s, s');
  }

  lemma ReadersStepKeeps(s: State, s': State, r: nat)
    requires Frame(s) && (OutsideStep(s, s', BeginReadOnly(r)) || OutsideStep(s, s', EndReadOnly(r)))
    ensures Frame(s')
  {
    SameHistory(s, s');
  }

  lemma LockKeeps(s: State, s': State, t: TxnId, v: Vertex)
    requires Frame(s) && OutsideStep(s, s', Lock(t, v))
    ensures Frame(s')
  {
    SameHistory(s, s');
  }

  lemma UnlockKeeps(s: State, s': State, t: TxnId, v: Vertex)
    requires Frame(s) && OutsideStep(s, s', Unlock(t, v))
    ensures Frame(s')
  {
    SameHistory(s, s');
    forall k {:trigger s'.lists[k]} | k in s'.lists && s'.lists[k].owner.By?
      ensures s'.lists[k].owner.w.id != t
    {
      assert !Owns(s, t, k);
    }
  }

  lemma AdvanceKeeps(s: State, s': State, e: int)
    requires Frame(s) && OutsideStep(s, s', Advance(e))
    ensures Frame(s')
  {
    SameHistory(s, s');
  }

  lemma NobodyLeft(s: State, t: TxnId)
    requires forall k {:trigger Owns(s, t, k)} :: !Owns(s, t, k)
    ensures forall k {:trigger s.lists[k]} :: k in s.lists && s.lists[k].owner.By? ==> s.lists[k].owner.w.id != t
  {
    forall k {:trigger s.lists[k]} | k in s.lists && s.lists[k].owner.By?
      ensures s.lists[k].owner.w.id != t
    {
      assert !Owns(s, t, k);
    }
  }

  lemma CleanEpochs(s: State, s': State, t: TxnId)
    requires Epochs(s) && Locks(s) && OutsideStep(s, s', Clean(t))
    ensures Epochs(s') && Locks(s')
  {
  }

  lemma CleanOwners(s: State, s': State, t: TxnId)
    requires Owners(s) && OutsideStep(s, s', Clean(t))
    ensures Owners(s')
  {
    NobodyLeft(s, t);
  }

  lemma CleanLows(s: State, s': State, t: TxnId)
    requires Lows(s) && OutsideStep(s, s', Clean(t))
    ensures Lows(s')
  {
  }

  lemma CleanKeeps(s: State, s': State, t: TxnId)
    requires Frame(s) && OutsideStep(s, s', Clean(t))
    ensures Frame(s')
  {
    hide Epochs, Locks, Owners, Lows, Items, Complete;
    CleanEpochs(s, s', t);
    CleanOwners(s, s', t);
    CleanLows(s, s', t);
    SameHistory(s, s');
  }

  lemma FinishOwners(s: State, s': State, t: TxnId)
    requires Owners(s) && Lows(s) && OutsideStep(s, s', Finish(t))
    ensures Owners(s') && Lows(s')
  {
  }

  lemma FinishEpochs(s: State, s': State, t: TxnId)
    requires Epochs(s) && Locks(s) && OutsideStep(s, s', Finish(t))
    ensures Epochs(s') && Locks(s')
  {
  }

  lemma FinishKeeps(s: State, s': State, t: TxnId)
    requires Frame(s) && OutsideStep(s, s', Finish(t))
    ensures Frame(s')
  {
    hide Epochs, Locks, Owners, Lows, Items, Complete;
    FinishEpochs(s, s', t);
    FinishOwners(s, s', t);
    SameHistory(s, s');
  }

  // ---------------------------------------------------------------------------
  // Registering a commit, starting an abort: all lists of the transaction at once.

  ghost function Turned(step: Step, L: List): List
    requires L.owner.By? && (step.Register? || step.Abort?)
  {
    if step.Register? then VersionedList.Register(L, step.epoch) else StartAbort(L)
  }

  lemma TurnLists(s: State, s': State, step: Step)
    requires ListsOk(s) && Epochs(s) && Owners(s) && EndingStep(s, s', step) && (step.Register? || step.Abort?)
    ensures ListsOk(s')
  {
    forall k {:trigger ListOk(s', k)}
      ensures ListOk(s', k)
    {
      assert ListOk(s, k);
      if k in s.lists {
        TurnList(s, s', step, k);
      }
    }
  }

  lemma TurnList(s: State, s': State, step: Step, k: Key)
    requires k in s.lists && Inv(s.lists[k])
    requires Epochs(s) && Owners(s) && EndingStep(s, s', step) && (step.Register? || step.Abort?)
    ensures k in s'.lists && Inv(s'.lists[k])
  {
    if Owns(s, step.t, k) {
      if step.Register? {
        RegisterKeeps(s.lists[k], step.epoch);
      } else {
        StartAbortKeeps(s.lists[k]);
      }
    }
  }

  lemma TurnEpochs(s: State, s': State, step: Step)
    requires Epochs(s) && Locks(s) && EndingStep(s, s', step) && (step.Register? || step.Abort?)
    ensures Epochs(s') && Locks(s')
  {
  }

  lemma TurnLows(s: State, s': State, step: Step)
    requires Lows(s) && EndingStep(s, s', step) && (step.Register? || step.Abort?)
    ensures Lows(s')
  {
    forall k {:trigger s'.lists[k]} | k in s'.lists
      ensures s'.lists[k].low == s.lists[k].low
    {
    }
  }

  lemma TurnOwners(s: State, s': State, step: Step)
    requires Owners(s) && EndingStep(s, s', step) && (step.Register? || step.Abort?)
    ensures Owners(s')
  {
    forall k {:trigger s'.lists[k]} | k in s'.lists
      ensures s'.lists[k].owner.By? == s.lists[k].owner.By?
      ensures s.lists[k].owner.By? ==> if s.lists[k].owner.w.id == step.t
        then s'.lists[k] == Turned(step, s.lists[k]) else s'.lists[k] == s.lists[k]
    {
      assert s.lists[k].owner.By? ==> Owns(s, s.lists[k].owner.w.id, k);
    }
  }

  lemma TurnHistory(s: State, s': State, step: Step)
    requires Items(s) && Complete(s) && Owners(s) && EndingStep(s, s', step) && (step.Register? || step.Abort?)
    ensures Items(s') && Complete(s')
  {
    forall k, i {:trigger s'.lists[k].hist[i]} | k in s'.lists && 0 <= i < |s'.lists[k].hist|
      ensures ItemOk(s', k, s'.lists[k].hist[i])
    {
      assert ItemOk(s, k, s.lists[k].hist[i]);
    }
    forall u, k {:trigger PartDone(s', u, k)} | u in s'.txns && k in s'.txns[u].writes
      ensures PartDone(s', u, k)
    {
      assert PartDone(s, u, k);
      assert Owns(s, u, k) ==> Owns(s', u, k);
    }
  }

  /** A commit registers or an abort starts. */
  lemma TurnKeeps(s: State, s': State, step: Step)
    requires SInv(s) && EndingStep(s, s', step) && (step.Register? || step.Abort?)
    ensures SInv(s')
  {
    TurnLists(s, s', step);
    TurnEpochs(s, s', step);
    TurnLows(s, s', step);
    TurnOwners(s, s', step);
    TurnHistory(s, s', step);
  }

  // ---------------------------------------------------------------------------
  // A list is released.

  lemma ReleaseOwners(s: State, key: Key, L': List)
    requires Epochs(s) && Locks(s) && Owners(s) && Lows(s) && key in s.lists && L'.owner.Nobody?
    requires L'.low == s.lists[key].low
    ensures var s' := SetList(s, key, L'); Epochs(s') && Locks(s') && Owners(s') && Lows(s')
  {
  }

  lemma CommittedHistory(s: State, t: TxnId, key: Key)
    requires Items(s) && Complete(s) && Owners(s) && key in s.lists && Owns(s, t, key)
    requires t in s.txns && s.txns[t].phase.Publishing? && s.lists[key].owner.w.mode.Committing?
    ensures var s' := SetList(s, key, FinishCommit(s.lists[key])); Items(s') && Complete(s')
  {
    var L := s.lists[key];
    var s' := SetList(s, key, FinishCommit(L));
    forall k, i {:trigger s'.lists[k].hist[i]} | k in s'.lists && 0 <= i < |s'.lists[k].hist|
      ensures ItemOk(s', k, s'.lists[k].hist[i])
    {
      if i < |s.lists[k].hist| {
        assert ItemOk(s, k, s.lists[k].hist[i]);
      }
    }
    forall u, k {:trigger PartDone(s', u, k)} | u in s'.txns && k in s'.txns[u].writes
      ensures PartDone(s', u, k)
    {
      assert PartDone(s, u, k);
      assert Owns(s, u, k) && !(u == t && k == key) ==> Owns(s', u, k);
      if k == key && L.owner.w.ops != [] {
        assert s'.lists[k].hist[|L.hist|].txn == t;
        if InHistory(L, u) {
          var i :| 0 <= i < |L.hist| && L.hist[i].txn == u;
          assert s'.lists[k].hist[i].txn == u;
        }
      }
    }
  }

  lemma ListCommittedKeeps(s: State, s': State, t: TxnId, key: Key)
    requires SInv(s) && EndingStep(s, s', ListCommitted(t, key))
    ensures SInv(s')
  {
    assert ListOk(s, key) && Committed(s.lists[key]);
    FinishCommitKeeps(s.lists[key]);
    OneList(s, s', key, FinishCommit(s.lists[key]));
    ReleaseOwners(s, key, FinishCommit(s.lists[key]));
    CommittedHistory(s, t, key);
  }

  lemma AbortedHistory(s: State, t: TxnId, key: Key, L': List)
    requires Items(s) && Complete(s) && key in s.lists && Owns(s, t, key)
    requires t in s.txns && s.txns[t].phase.RollingBack? && L'.hist == s.lists[key].hist
    ensures var s' := SetList(s, key, L'); Items(s') && Complete(s')
  {
    var s' := SetList(s, key, L');
    forall k, i {:trigger s'.lists[k].hist[i]} | k in s'.lists && 0 <= i < |s'.lists[k].hist|
      ensures ItemOk(s', k, s'.lists[k].hist[i])
    {
      assert ItemOk(s, k, s.lists[k].hist[i]);
    }
    forall u, k {:trigger PartDone(s', u, k)} | u in s'.txns && k in s'.txns[u].writes
      ensures PartDone(s', u, k)
    {
      assert PartDone(s, u, k);
      assert Owns(s, u, k) && u != t ==> Owns(s', u, k);
    }
  }

  lemma ListAbortedKeeps(s: State, s': State, t: TxnId, key: Key)
    requires SInv(s) && EndingStep(s, s', ListAborted(t, key))
    ensures SInv(s')
  {
    assert ListOk(s, key) && s.lists[key].owner.w.mode.Aborting?;
    FinishAbortKeeps(s.lists[key]);
    OneList(s, s', key, FinishAbort(s.lists[key]));
    ReleaseOwners(s, key, FinishAbort(s.lists[key]));
    AbortedHistory(s, t, key, FinishAbort(s.lists[key]));
  }

  // ---------------------------------------------------------------------------
  // Compaction.

  lemma CompactFrame(s: State, key: Key, L': List, e: int)
    requires Frame(s) && key in s.lists && s.lists[key].owner.Nobody? && CompactionEpoch(s, e)
    requires L'.owner.Nobody? && L'.hist == s.lists[key].hist
    requires L'.low <= if s.lists[key].low < e then e else s.lists[key].low
    ensures Frame(SetList(s, key, L'))
  {
    var s' := SetList(s, key, L');
    forall k, i {:trigger s'.lists[k].hist[i]} | k in s'.lists && 0 <= i < |s'.lists[k].hist|
      ensures ItemOk(s', k, s'.lists[k].hist[i])
    {
      assert ItemOk(s, k, s.lists[k].hist[i]);
    }
    forall u, k {:trigger PartDone(s', u, k)} | u in s'.txns && k in s'.txns[u].writes
      ensures PartDone(s', u, k)
    {
      assert PartDone(s, u, k);
      assert Owns(s, u, k) ==> Owns(s', u, k);
    }
  }

  lemma CompactList(L: List, e: int, cut: bool)
    requires Inv(L) && L.owner.Nobody? && 0 <= e < TOMBSTONE
    ensures var L' := if cut then Cut(L, e) else Rewrite(L, e);
      && Inv(L') && L'.owner.Nobody? && L'.hist == L.hist
      && L'.low <= (if L.low < e then e else L.low)
  {
    if cut { CutKeeps(L, e); } else { RewriteKeeps(L, e); }
  }

  lemma CompactKeeps(s: State, s': State, step: Step)
    requires SInv(s) && CompactionStep(s, s', step) && (step.CompactCut? || step.CompactRewrite?)
    ensures SInv(s')
  {
    hide Inv, Cut, Rewrite, Registered, AbortStarted, NobodyBehind, BetweenOperations;
    var L, e := s.lists[step.key], step.epoch;
    assert ListOk(s, step.key) && L.owner.Nobody? && e < TOMBSTONE;
    CompactList(L, e, step.CompactCut?);
    var L' := if step.CompactCut? then Cut(L, e) else Rewrite(L, e);
    OneList(s, s', step.key, L');
    CompactFrame(s, step.key, L', e);
  }

  // ---------------------------------------------------------------------------
  // Every step.

  lemma SameLists(s: State, s': State)
    requires ListsOk(s) && s'.lists == s.lists
    ensures ListsOk(s')
  {
    forall k {:trigger ListOk(s', k)}
      ensures ListOk(s', k)
    {
      assert ListOk(s, k);
    }
  }

  lemma ReaderNextKeeps(s: State, s': State, step: Step)
    requires Frame(s) && OutsideStep(s, s', step)
    requires step.Begin? || step.BeginReadOnly? || step.EndReadOnly? || step.Advance?
    ensures Frame(s') && s'.lists == s.lists
  {
    hide Frame;
    match step {
      case Begin => BeginKeeps(s, s');
      case BeginReadOnly(r) => ReadersStepKeeps(s, s', r);
      case EndReadOnly(r) => ReadersStepKeeps(s, s', r);
      case Advance(e) => AdvanceKeeps(s, s', e);
    }
  }

  lemma LockNextKeeps(s: State, s': State, step: Step)
    requires Frame(s) && OutsideStep(s, s', step)
    requires step.Lock? || step.Unlock? || step.Clean? || step.Finish?
    ensures Frame(s') && s'.lists == s.lists
  {
    hide Frame;
    match step {
      case Lock(t, v) => LockKeeps(s, s', t, v);
      case Unlock(t, v) => UnlockKeeps(s, s', t, v);
      case Clean(t) => CleanKeeps(s, s', t);
      case Finish(t) => FinishKeeps(s, s', t);
    }
  }

  lemma OperationNextKeeps(s: State, s': State, step: Step)
    requires SInv(s) && OperationStep(s, s', step)
    requires step.StartInPlace? || step.StartGrowing? || step.Mark?
    ensures SInv(s')
  {
    hide SInv, OperationStep, EndingStep;
    match step {
      case StartInPlace(t, key, op) => StartInPlaceKeeps(s, s', t, key, op);
      case StartGrowing(t, key, op) => StartGrowingKeeps(s, s', t, key, op);
      case Mark(t, key) => MarkStepKeeps(s, s', t, key);
    }
  }

  lemma WrittenNextKeeps(s: State, s': State, step: Step)
    requires SInv(s) && OperationStep(s, s', step)
    requires step.FirstTouch? || step.Insert? || step.Erase?
    ensures SInv(s')
  {
    hide SInv, OperationStep, EndingStep;
    match step {
      case FirstTouch(t, key) => FirstTouchKeeps(s, s', t, key);
      case Insert(t, key) => InsertKeeps(s, s', t, key);
      case Erase(t, key) => EraseKeeps(s, s', t, key);
    }
  }

  lemma CommitNextKeeps(s: State, s': State, step: Step)
    requires SInv(s) && EndingStep(s, s', step)
    requires step.PublishTail? || step.MarkCommitting? || step.SwingHead? || step.Stamp?
    ensures SInv(s')
  {
    hide SInv, OperationStep, EndingStep;
    match step {
      case PublishTail(t, key, b) => PublishTailKeeps(s, s', t, key, b);
      case MarkCommitting(t, key, b) => MarkCommittingKeeps(s, s', t, key, b);
      case SwingHead(t, key) => SwingHeadKeeps(s, s', t, key);
      case Stamp(t, key) => StampStepKeeps(s, s', t, key);
    }
  }

  lemma ReleaseNextKeeps(s: State, s': State, step: Step)
    requires SInv(s) && EndingStep(s, s', step)
    requires step.ListCommitted? || step.ListAborted?
    ensures SInv(s')
  {
    match step {
      case ListCommitted(t, key) => ListCommittedKeeps(s, s', t, key);
      case ListAborted(t, key) => ListAbortedKeeps(s, s', t, key);
    }
  }

  /** Every step of every transaction and of the compactor keeps the invariant. */
  lemma NextKeeps(s: State, s': State, step: Step)
    requires SInv(s) && NextStep(s, s', step)
    ensures SInv(s')
  {
    hide ListsOk, Frame, NextStep;
    StepKind(s, s', step);
    if step.Register? || step.Abort? {
      TurnKeeps(s, s', step);
    } else if step.CompactCut? || step.CompactRewrite? {
      CompactKeeps(s, s', step);
    } else if step.StartInPlace? || step.StartGrowing? || step.Mark? {
      OperationNextKeeps(s, s', step);
    } else if step.FirstTouch? || step.Insert? || step.Erase? {
      WrittenNextKeeps(s, s', step);
    } else if step.PublishTail? || step.MarkCommitting? || step.SwingHead? || step.Stamp? {
      CommitNextKeeps(s, s', step);
    } else if step.ListCommitted? || step.ListAborted? {
      ReleaseNextKeeps(s, s', step);
    } else {
      if step.Lock? || step.Unlock? || step.Clean? || step.Finish? {
        LockNextKeeps(s, s', step);
      } else {
        ReaderNextKeeps(s, s', step);
      }
      SameLists(s, s');
    }
  }
}
