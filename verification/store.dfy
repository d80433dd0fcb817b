/** The graph store: transactions, readers, locks and edge lists, as a state machine whose
    steps are the single writes of put_edge, del_edge, commit, abort and compact. */
module Store {
  import opened Timestamps
  import opened EdgeLog
  import opened VersionedList
  import opened ListInvariant

  datatype Key = Key(src: Vertex, etype: nat)

  /** Running operations; commit registered; locks released; commit counted as finished;
      rolling back; gone. */
  datatype Phase =
    | Running | Publishing(epoch: int) | Released(epoch: int) | Finished(epoch: int) | RollingBack | Aborted

  /** `writes` records the operations completed on each touched list. */
  datatype Txn = Txn(read: int, phase: Phase, writes: map<Key, seq<Op>>)

  datatype State = State(
    global: int, writing: int, nextTxn: TxnId, txns: map<TxnId, Txn>, readers: map<nat, int>,
    locks: map<Vertex, TxnId>, lists: map<Key, List>)

  datatype Step =
    | Begin
    | BeginReadOnly(reader: nat)
    | EndReadOnly(reader: nat)
    | Lock(t: TxnId, v: Vertex)
    | Unlock(t: TxnId, v: Vertex)
    | FirstTouch(t: TxnId, key: Key)
    | StartInPlace(t: TxnId, key: Key, op: Op)
    | StartGrowing(t: TxnId, key: Key, op: Op)
    | Mark(t: TxnId, key: Key)
    | Insert(t: TxnId, key: Key)
    | Erase(t: TxnId, key: Key)
    | Register(t: TxnId, epoch: int)
    | PublishTail(t: TxnId, key: Key, block: int)
    | MarkCommitting(t: TxnId, key: Key, block: int)
    | SwingHead(t: TxnId, key: Key)
    | Stamp(t: TxnId, key: Key)
    | ListCommitted(t: TxnId, key: Key)
    | Clean(t: TxnId)
    | Finish(t: TxnId)
    | Abort(t: TxnId)
    | ListAborted(t: TxnId, key: Key)
    | Advance(epoch: int)
    | CompactCut(key: Key, epoch: int)
    | CompactRewrite(key: Key, epoch: int)

  /** The transaction still has its read epoch in the table of readers. */
  predicate Live(x: Txn) {
    x.phase.Running? || x.phase.Publishing? || x.phase.RollingBack?
  }

  ghost predicate Owns(s: State, t: TxnId, key: Key) {
    key in s.lists && s.lists[key].owner.By? && s.lists[key].owner.w.id == t
  }

  ghost predicate InPhase(s: State, t: TxnId, key: Key, p: Phase -> bool) {
    t in s.txns && p(s.txns[t].phase) && Owns(s, t, key)
  }

  ghost function SetList(s: State, key: Key, L: List): State {
    s.(lists := s.lists[key := L])
  }

  ghost function SetPhase(s: State, t: TxnId, p: Phase): State
    requires t in s.txns
  {
    s.(txns := s.txns[t := s.txns[t].(phase := p)])
  }

  /** Record that `t` has completed an operation on the list. */
  ghost function SetOps(s: State, t: TxnId, key: Key, L: List): State
    requires t in s.txns && L.owner.By?
  {
    SetList(s, key, L).(txns := s.txns[t := s.txns[t].(writes := s.txns[t].writes[key := L.owner.w.ops])])
  }

  ghost predicate IsRunning(p: Phase) { p.Running? }

  ghost predicate IsPublishing(p: Phase) { p.Publishing? }

  ghost predicate IsRollingBack(p: Phase) { p.RollingBack? }

  /** All blocks that `t` filled have had their counts published and their committed times marked. */
  ghost predicate TailsDone(s: State, t: TxnId) {
    forall k {:trigger Owns(s, t, k)} :: Owns(s, t, k) ==> s.lists[k].owner.w.tails == {}
  }

  ghost predicate HeadsDone(s: State, t: TxnId) {
    forall k {:trigger Owns(s, t, k)} :: Owns(s, t, k) ==> s.lists[k].owner.w.headDone
  }

  ghost predicate StampsDone(s: State, t: TxnId) {
    forall k {:trigger Owns(s, t, k)} :: Owns(s, t, k) ==> s.lists[k].owner.w.todo == []
  }

  ghost predicate BetweenOperations(s: State, t: TxnId) {
    forall k {:trigger Owns(s, t, k)} :: Owns(s, t, k) ==> s.lists[k].owner.w.stage.Ready?
  }

  /** All lists of a transaction that registers its commit learn its epoch. */
  ghost function Registered(s: State, t: TxnId, c: int): State
    requires t in s.txns
  {
    SetPhase(s, t, Phase.Publishing(c)).(
      writing := c,
      lists := map k | k in s.lists :: if Owns(s, t, k) then VersionedList.Register(s.lists[k], c) else s.lists[k])
  }

  ghost function AbortStarted(s: State, t: TxnId): State
    requires t in s.txns
  {
    SetPhase(s, t, RollingBack).(
      lists := map k | k in s.lists :: if Owns(s, t, k) then StartAbort(s.lists[k]) else s.lists[k])
  }

  /** No transaction up to epoch `e` is still committing. */
  ghost predicate NobodyBehind(s: State, e: int) {
    forall t {:trigger s.txns[t]} :: t in s.txns && (s.txns[t].phase.Publishing? || s.txns[t].phase.Released?) ==>
      e < s.txns[t].phase.epoch
  }

  /** Compaction may use `e`: it is readable, and no reader is below it. */
  ghost predicate CompactionEpoch(s: State, e: int) {
    && 0 <= e <= s.global
    && (forall t {:trigger s.txns[t]} :: t in s.txns && Live(s.txns[t]) ==> e <= s.txns[t].read)
    && (forall r {:trigger s.readers[r]} :: r in s.readers ==> e <= s.readers[r])
  }

  /** A transaction or a reader comes or goes, takes or gives back a lock, or an epoch is published. */
  ghost predicate OutsideStep(s: State, s': State, step: Step): (b: bool)
    ensures b ==>
      || step.Begin? || step.BeginReadOnly? || step.EndReadOnly? || step.Advance?
      || step.Lock? || step.Unlock? || step.Clean? || step.Finish?
  {
    match step
    case Begin =>
      && s.nextTxn + 1 < RO_TRANSACTION
      && s' == s.(nextTxn := s.nextTxn + 1, txns := s.txns[s.nextTxn := Txn(s.global, Running, map[])])
    case BeginReadOnly(r) =>
      && r !in s.readers
      && s' == s.(readers := s.readers[r := s.global])
    case EndReadOnly(r) =>
      s' == s.(readers := s.readers - {r})
    case Lock(t, v) =>
      && t in s.txns && s.txns[t].phase.Running? && v !in s.locks
      && s' == s.(locks := s.locks[v := t])
    case Unlock(t, v) =>
      && v in s.locks && s.locks[v] == t
      && t in s.txns && (s.txns[t].phase.Publishing? || s.txns[t].phase.RollingBack?)
      && (forall k {:trigger Owns(s, t, k)} :: !Owns(s, t, k))
      && s' == s.(locks := s.locks - {v})
    case Clean(t) =>
      && t in s.txns && (s.txns[t].phase.Publishing? || s.txns[t].phase.RollingBack?)
      && (forall v {:trigger s.locks[v]} :: v in s.locks ==> s.locks[v] != t)
      && (forall k {:trigger Owns(s, t, k)} :: !Owns(s, t, k))
      && s' == SetPhase(s, t, if s.txns[t].phase.Publishing? then Phase.Released(s.txns[t].phase.epoch) else Aborted)
    case Finish(t) =>
      && t in s.txns && s.txns[t].phase.Released?
      && s' == SetPhase(s, t, Phase.Finished(s.txns[t].phase.epoch))
    case Advance(e) =>
      && s.global <= e <= s.writing && NobodyBehind(s, e)
      && s' == s.(global := e)
    case _ => false
  }

  /** A single write of put_edge or del_edge. */
  ghost predicate OperationStep(s: State, s': State, step: Step): (b: bool)
    ensures b ==>
      || step.FirstTouch? || step.StartInPlace? || step.StartGrowing?
      || step.Mark? || step.Insert? || step.Erase?
  {
    match step
    case FirstTouch(t, key) =>
      && t in s.txns && s.txns[t].phase.Running? && key.src in s.locks && s.locks[key.src] == t
      && key in s.lists && s.lists[key].owner.Nobody? && WfHeap(s.lists[key].heap)
      && -1 <= s.lists[key].head < |s.lists[key].heap| && NoConflict(s.lists[key], t, s.txns[t].read)
      && s' == SetOps(s, t, key, Touch(s.lists[key], t, s.txns[t].read))
    case StartInPlace(t, key, op) =>
      && InPhase(s, t, key, IsRunning) && Working(s.lists[key]) && s.lists[key].owner.w.stage.Ready?
      && 0 <= s.lists[key].owner.w.ptr
      && s' == SetList(s, key, Stay(s.lists[key], op))
    case StartGrowing(t, key, op) =>
      && InPhase(s, t, key, IsRunning) && Working(s.lists[key]) && s.lists[key].owner.w.stage.Ready? && op.Put?
      && s' == SetList(s, key, Grow(s.lists[key], op))
    case Mark(t, key) =>
      && InPhase(s, t, key, IsRunning) && InOp(s.lists[key]) && s.lists[key].owner.w.stage.Finding?
      && s' == SetList(s, key, MarkDeleted(s.lists[key]))
    case Insert(t, key) =>
      && InPhase(s, t, key, IsRunning) && InOp(s.lists[key]) && s.lists[key].owner.w.stage.Adding?
      && s.lists[key].owner.w.stage.op.Put?
      && s' == SetOps(s, t, key, WriteEntry(s.lists[key]))
    case Erase(t, key) =>
      && InPhase(s, t, key, IsRunning) && InOp(s.lists[key]) && s.lists[key].owner.w.stage.Adding?
      && s.lists[key].owner.w.stage.op.Del?
      && s' == SetOps(s, t, key, EndDelete(s.lists[key]))
    case _ => false
  }

  /** A single write of commit or abort. */
  ghost predicate EndingStep(s: State, s': State, step: Step): (b: bool)
    ensures b ==>
      || step.Register? || step.PublishTail? || step.MarkCommitting? || step.SwingHead? || step.Stamp?
      || step.ListCommitted? || step.Abort? || step.ListAborted?
  {
    match step
    case Register(t, c) =>
      && t in s.txns && s.txns[t].phase.Running? && BetweenOperations(s, t)
      && s.global < c < LAST_EPOCH && s.writing <= c <= s.writing + 1
      && s' == Registered(s, t, c)
    case PublishTail(t, key, b) =>
      && InPhase(s, t, key, IsPublishing) && b in s.lists[key].owner.w.tails
      && b in s.lists[key].owner.w.cnt && 0 <= b < |s.lists[key].heap|
      && s' == SetList(s, key, PublishSize(s.lists[key], b))
    case MarkCommitting(t, key, b) =>
      && InPhase(s, t, key, IsPublishing) && b in s.lists[key].owner.w.tails
      && b in s.lists[key].owner.w.cnt && 0 <= b < |s.lists[key].heap|
      && s.lists[key].heap[b].n == s.lists[key].owner.w.cnt[b]
      && s' == SetList(s, key, MarkTail(s.lists[key], b))
    case SwingHead(t, key) =>
      && InPhase(s, t, key, IsPublishing) && TailsDone(s, t) && !s.lists[key].owner.w.headDone
      && WfHeap(s.lists[key].heap) && -1 <= s.lists[key].head < |s.lists[key].heap|
      && s' == SetList(s, key, CommitHead(s.lists[key]))
    case Stamp(t, key) =>
      && ((InPhase(s, t, key, IsPublishing) && TailsDone(s, t) && HeadsDone(s, t)) || InPhase(s, t, key, IsRollingBack))
      && s.lists[key].owner.w.todo != [] && ValidLoc(s.lists[key].heap, s.lists[key].owner.w.todo[0])
      && s' == SetList(s, key, FinishStamp(s.lists[key]))
    case ListCommitted(t, key) =>
      && InPhase(s, t, key, IsPublishing) && TailsDone(s, t) && HeadsDone(s, t) && StampsDone(s, t)
      && s.lists[key].owner.w.mode.Committing?
      && s' == SetList(s, key, FinishCommit(s.lists[key]))
    case Abort(t) =>
      && t in s.txns && s.txns[t].phase.Running?
      && s' == AbortStarted(s, t)
    case ListAborted(t, key) =>
      && InPhase(s, t, key, IsRollingBack) && s.lists[key].owner.w.todo == []
      && s.lists[key].owner.w.floor <= |s.lists[key].heap|
      && s' == SetList(s, key, FinishAbort(s.lists[key]))
    case _ => false
  }

  /** Half of a compaction of one list. */
  ghost predicate CompactionStep(s: State, s': State, step: Step): (b: bool)
    ensures b ==> step.CompactCut? || step.CompactRewrite?
  {
    match step
    case CompactCut(key, e) =>
      && key in s.lists && key.src !in s.locks && CompactionEpoch(s, e)
      && WfHeap(s.lists[key].heap) && -1 <= s.lists[key].head < |s.lists[key].heap|
      && s' == SetList(s, key, Cut(s.lists[key], e))
    case CompactRewrite(key, e) =>
      && key in s.lists && key.src !in s.locks && CompactionEpoch(s, e)
      && WfHeap(s.lists[key].heap) && -1 <= s.lists[key].head < |s.lists[key].heap|
      && s' == SetList(s, key, Rewrite(s.lists[key], e))
    case _ => false
  }

  ghost predicate NextStep(s: State, s': State, step: Step) {
    OutsideStep(s, s', step) || OperationStep(s, s', step) || EndingStep(s, s', step) || CompactionStep(s, s', step)
  }

  lemma StepKind(s: State, s': State, step: Step)
    requires NextStep(s, s', step)
    ensures step.FirstTouch? || step.StartInPlace? || step.StartGrowing? ==> OperationStep(s, s', step)
    ensures step.Mark? || step.Insert? || step.Erase? ==> OperationStep(s, s', step)
    ensures step.Register? || step.PublishTail? || step.MarkCommitting? || step.SwingHead? || step.Stamp? ==>
      EndingStep(s, s', step)
    ensures step.ListCommitted? || step.Abort? || step.ListAborted? ==> EndingStep(s, s', step)
    ensures step.CompactCut? || step.CompactRewrite? ==> CompactionStep(s, s', step)
    ensures step.Begin? || step.BeginReadOnly? || step.EndReadOnly? || step.Advance? ==> OutsideStep(s, s', step)
    ensures step.Lock? || step.Unlock? || step.Clean? || step.Finish? ==> OutsideStep(s, s', step)
  {
    hide OutsideStep, OperationStep, EndingStep, CompactionStep;
  }

  ghost predicate Next(s: State, s': State) {
    exists step :: NextStep(s, s', step)
  }

  /** A bulk-loaded graph: all stamps are the start epoch, nobody is running. */
  ghost predicate Init(s: State) {
    && 0 <= s.global == s.writing < LAST_EPOCH
    && s.nextTxn == 1 && s.txns == map[] && s.readers == map[] && s.locks == map[]
    && (forall k {:trigger s.lists[k]} :: k in s.lists ==> BulkLoaded(s.lists[k], s.global))
  }

  ghost predicate IsRun(run: seq<State>) {
    && run != []
    && Init(run[0])
    && (forall i :: 0 <= i < |run| - 1 ==> Next(run[i], run[i + 1]))
  }
}
