/** What a transaction gets from its own calls: between the call of put_edge or del_edge and its
    last write other transactions take any steps, and then the transaction's list is the old one
    with exactly that operation applied. */
module OperationEffects {
  import opened Timestamps
  import opened EdgeLog
  import opened VersionedList
  import opened ListInvariant
  import opened Store
  import opened StoreInvariant
  import opened SnapshotIsolation

  /** The call of an operation. */
  ghost predicate Calls(s: State, s': State, t: TxnId, key: Key, op: Op) {
    NextStep(s, s', StartInPlace(t, key, op)) || NextStep(s, s', StartGrowing(t, key, op))
  }

  /** Its last write. */
  ghost predicate Completes(s: State, s': State, t: TxnId, key: Key) {
    NextStep(s, s', Insert(t, key)) || NextStep(s, s', Erase(t, key))
  }

  ghost predicate CallsAt(run: seq<State>, m: nat, t: TxnId, key: Key, op: Op) {
    m + 1 < |run| && Calls(run[m], run[m + 1], t, key, op)
  }

  ghost predicate CompletesAt(run: seq<State>, m: nat, t: TxnId, key: Key) {
    m + 1 < |run| && Completes(run[m], run[m + 1], t, key)
  }

  /** The operation has begun and not ended, after the completed ones in `before`. */
  ghost predicate Pending(s: State, t: TxnId, key: Key, op: Op, before: seq<Op>) {
    && InPhase(s, t, key, IsRunning)
    && var w := s.lists[key].owner.w;
       (w.stage == Finding(op) || w.stage == Adding(op)) && w.ops == before
  }

  ghost predicate NotRunning(s: State, t: TxnId) {
    t in s.txns && !s.txns[t].phase.Running?
  }

  lemma CallPends(s: State, s': State, t: TxnId, key: Key, op: Op)
    requires Frame(s) && Calls(s, s', t, key, op)
    ensures t in s.txns && key in s.txns[t].writes && Pending(s', t, key, op, s.txns[t].writes[key])
  {
    hide CopyForGrowth, OwnEntries, Current, EndingStep, CompactionStep, Epochs, Locks, Lows, Items, Complete;
  }

  /** A write to another list. */
  lemma ElsewherePends(s: State, s': State, step: Step, t: TxnId, key: Key, op: Op, before: seq<Op>)
    requires Pending(s, t, key, op, before) && OperationStep(s, s', step) && step.key != key
    ensures Pending(s', t, key, op, before)
  {
    hide Stay, Grow, MarkDeleted, WriteEntry, EndDelete, Touch, Working, NoConflict;
  }

  /** On the list itself only the mark can come before the last write. */
  lemma HerePends(s: State, s': State, step: Step, t: TxnId, key: Key, op: Op, before: seq<Op>)
    requires Pending(s, t, key, op, before) && OperationStep(s, s', step) && step.key == key
    requires !step.Insert? && !step.Erase?
    ensures Pending(s', t, key, op, before)
  {
    hide CopyForGrowth, OwnEntries, Current, Victim, Grow, Touch;
  }

  lemma LastWriteCompletes(s: State, s': State, step: Step, t: TxnId, key: Key, op: Op, before: seq<Op>)
    requires Pending(s, t, key, op, before) && OperationStep(s, s', step) && step.key == key
    requires step.Insert? || step.Erase?
    ensures Completes(s, s', t, key)
  {
    hide OutsideStep, EndingStep, CompactionStep, WriteEntry, EndDelete, Working;
    assert NextStep(s, s', step);
    assert step.t == t;
  }

  lemma OperationPends(s: State, s': State, step: Step, t: TxnId, key: Key, op: Op, before: seq<Op>)
    requires Pending(s, t, key, op, before) && OperationStep(s, s', step) && !Completes(s, s', t, key)
    ensures Pending(s', t, key, op, before)
  {
    hide Pending, OperationStep, Completes;
    if step.key != key {
      ElsewherePends(s, s', step, t, key, op, before);
    } else if step.Insert? || step.Erase? {
      LastWriteCompletes(s, s', step, t, key, op, before);
      assert false;
    } else {
      HerePends(s, s', step, t, key, op, before);
    }
  }

  lemma EndingPends(s: State, s': State, step: Step, t: TxnId, key: Key, op: Op, before: seq<Op>)
    requires Owners(s) && Pending(s, t, key, op, before) && EndingStep(s, s', step)
    ensures Pending(s', t, key, op, before) || NotRunning(s', t)
  {
    hide CopyForGrowth, OwnEntries, Current, Victim;
  }

  lemma OutsidePends(s: State, s': State, step: Step, t: TxnId, key: Key, op: Op, before: seq<Op>)
    requires Epochs(s) && Pending(s, t, key, op, before) && OutsideStep(s, s', step)
    ensures Pending(s', t, key, op, before) || NotRunning(s', t)
  {
  }

  lemma CompactionPends(s: State, s': State, step: Step, t: TxnId, key: Key, op: Op, before: seq<Op>)
    requires Owners(s) && Pending(s, t, key, op, before) && CompactionStep(s, s', step)
    ensures Pending(s', t, key, op, before)
  {
    hide Cut, Rewrite;
  }

  lemma OutsideEnded(s: State, s': State, step: Step, t: TxnId)
    requires Epochs(s) && NotRunning(s, t) && OutsideStep(s, s', step)
    ensures NotRunning(s', t)
  {
    hide NobodyBehind, Owns;
  }

  lemma WrittenEnded(s: State, s': State, step: Step, t: TxnId)
    requires NotRunning(s, t) && (OperationStep(s, s', step) || CompactionStep(s, s', step))
    ensures NotRunning(s', t)
  {
    hide Stay, Grow, MarkDeleted, WriteEntry, EndDelete, Touch, Cut, Rewrite, Working, NoConflict, CompactionEpoch;
  }

  lemma EndingEnded(s: State, s': State, step: Step, t: TxnId)
    requires NotRunning(s, t) && EndingStep(s, s', step)
    ensures NotRunning(s', t)
  {
    hide CommitHead, FinishStamp, PublishSize, MarkTail, FinishCommit, FinishAbort;
    hide BetweenOperations, TailsDone, HeadsDone, StampsDone;
  }

  lemma StaysEnded(s: State, s': State, step: Step, t: TxnId)
    requires Epochs(s) && NotRunning(s, t) && NextStep(s, s', step)
    ensures NotRunning(s', t)
  {
    hide Epochs, OutsideStep, OperationStep, EndingStep, CompactionStep, NotRunning;
    if OutsideStep(s, s', step) {
      OutsideEnded(s, s', step, t);
    } else if EndingStep(s, s', step) {
      EndingEnded(s, s', step, t);
    } else {
      WrittenEnded(s, s', step, t);
    }
  }

  lemma StepPends(s: State, s': State, t: TxnId, key: Key, op: Op, before: seq<Op>)
    requires Frame(s) && Next(s, s') && !Completes(s, s', t, key)
    requires Pending(s, t, key, op, before) || NotRunning(s, t)
    ensures Pending(s', t, key, op, before) || NotRunning(s', t)
  {
    hide Locks, Owners, Lows, Items, Complete, Epochs, Pending, OutsideStep, OperationStep, EndingStep, CompactionStep;
    hide NotRunning;
    var step :| NextStep(s, s', step);
    if NotRunning(s, t) {
      StaysEnded(s, s', step, t);
    } else if OutsideStep(s, s', step) {
      OutsidePends(s, s', step, t, key, op, before);
    } else if OperationStep(s, s', step) {
      OperationPends(s, s', step, t, key, op, before);
    } else if EndingStep(s, s', step) {
      EndingPends(s, s', step, t, key, op, before);
    } else {
      CompactionPends(s, s', step, t, key, op, before);
    }
  }

  lemma {:induction false} PendsUntil(run: seq<State>, i: nat, j: nat, t: TxnId, key: Key, op: Op)
    requires IsRun(run) && i < j < |run| && CallsAt(run, i, t, key, op)
    requires forall m: nat :: i < m < j ==> !CompletesAt(run, m, t, key)
    ensures t in run[i].txns && key in run[i].txns[t].writes
    ensures Pending(run[j], t, key, op, run[i].txns[t].writes[key]) || NotRunning(run[j], t)
    decreases j
  {
    hide Init, Pending, NotRunning, Frame, Calls, Completes, Next;
    RunInv(run, i);
    CallPends(run[i], run[i + 1], t, key, op);
    if i + 1 < j {
      PendsUntil(run, i, j - 1, t, key, op);
      RunInv(run, j - 1);
      assert !CompletesAt(run, j - 1, t, key);
      assert Next(run[j - 1], run[j]);
      StepPends(run[j - 1], run[j], t, key, op, run[i].txns[t].writes[key]);
    }
  }

  lemma CompletionAdds(s: State, s': State, t: TxnId, key: Key, op: Op, before: seq<Op>)
    requires Completes(s, s', t, key) && (Pending(s, t, key, op, before) || NotRunning(s, t))
    ensures t in s'.txns && s'.txns[t].phase.Running? && Owns(s', t, key) && s'.lists[key].owner.w.stage.Ready?
    ensures key in s'.txns[t].writes && s'.txns[t].writes[key] == before + [op]
  {
    hide Victim, Current, WriteSlot, OutsideStep, EndingStep, CompactionStep;
  }

  /** What a call records is the operation that was called, whatever happens until its last
      write. */
  lemma RecordsCall(run: seq<State>, i: nat, j: nat, t: TxnId, key: Key, op: Op)
    requires IsRun(run) && i < j && CallsAt(run, i, t, key, op) && CompletesAt(run, j, t, key)
    requires forall m: nat :: i < m < j ==> !CompletesAt(run, m, t, key)
    ensures t in run[i].txns && key in run[i].txns[t].writes && t in run[j + 1].txns && key in run[j + 1].txns[t].writes
    ensures run[j + 1].txns[t].writes[key] == run[i].txns[t].writes[key] + [op]
  {
    hide Pending, NotRunning, Calls, Completes;
    PendsUntil(run, i, j, t, key, op);
    CompletionAdds(run[j], run[j + 1], t, key, op, run[i].txns[t].writes[key]);
  }

  // ---------------------------------------------------------------------------
  // What the caller sees.

  lemma CallReady(s: State, s': State, t: TxnId, key: Key, op: Op)
    requires Calls(s, s', t, key, op)
    ensures Owns(s, t, key) && t in s.txns && s.txns[t].phase.Running? && s.lists[key].owner.w.stage.Ready?
  {
    hide Grow, Stay;
  }

  /** Whatever happens between the call and its last write, the transaction's list is then the
      old one with exactly that operation applied, and a put_edge is answered by get_edge with
      the payload that was put. */
  lemma OperationApplied(run: seq<State>, i: nat, j: nat, t: TxnId, key: Key, op: Op)
    requires IsRun(run) && i < j && CallsAt(run, i, t, key, op) && CompletesAt(run, j, t, key)
    requires forall m: nat :: i < m < j ==> !CompletesAt(run, m, t, key)
    ensures key in run[i].lists && key in run[j + 1].lists && t in run[i].txns && t in run[j + 1].txns
    ensures Working(run[i].lists[key]) && Working(run[j + 1].lists[key])
    ensures run[j + 1].txns[t].read == run[i].txns[t].read
    ensures var L, L', r := run[i].lists[key], run[j + 1].lists[key], run[i].txns[t].read;
      && OwnEdges(L', r) == ApplyOp(OwnEdges(L, r), op)
      && (op.Put? ==> OwnEdge(L', op.dst, r) == [op.data])
  {
    hide SInv, Init, Next, NextStep, Calls, Completes, Pending, NotRunning, Working, OwnEdges, OwnEdge, Snapshot, View;
    hide Current, ApplyOps;
    CallReady(run[i], run[i + 1], t, key, op);
    RecordsCall(run, i, j, t, key, op);
    PendsUntil(run, i, j, t, key, op);
    CompletionAdds(run[j], run[j + 1], t, key, op, run[i].txns[t].writes[key]);
    SnapshotIsolation.OwnView(run, i, key, t);
    SnapshotIsolation.OwnView(run, j + 1, key, t);
    ReadStays(run, i, j + 1, t);
    RunInv(run, i);
    ReadBelowGlobal(run[i], t);
    SnapshotRepeats(run, i, j + 1, key, run[i].txns[t].read);
    var before := Snapshot(run[i].lists[key].base, run[i].lists[key].hist, run[i].txns[t].read);
    ApplyOpsStep(before, run[i].txns[t].writes[key], op);
  }

  lemma ReadBelowGlobal(s: State, t: TxnId)
    requires SInv(s) && t in s.txns
    ensures s.txns[t].read <= s.global
  {
  }

  /** del_edge answers whether there was an edge to remove. */
  lemma DeleteAnswer(s: State, t: TxnId, key: Key, dst: Vertex)
    requires SInv(s) && t in s.txns && key in s.txns[t].writes
    requires Pending(s, t, key, Del(dst), s.txns[t].writes[key]) && s.lists[key].owner.w.stage.Finding?
    ensures InOp(s.lists[key])
    ensures 0 <= Victim(s.lists[key]) <==> OwnEdge(s.lists[key], dst, s.txns[t].read) != []
  {
    assert ListOk(s, key);
  }
}
