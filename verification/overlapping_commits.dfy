/** What first committer wins leaves open: two transactions that start from one snapshot and write
    different lists of one vertex both commit, and neither sees the other. */
module OverlappingCommits {
  import opened Timestamps
  import opened EdgeLog
  import opened VersionedList
  import opened ListInvariant
  import opened Store
  import opened StoreInvariant
  import opened SnapshotIsolation

  /** Neither of two committed transactions has the other in its snapshot. */
  predicate Overlap(x: Txn, y: Txn)
    requires HasEpoch(x.phase) && HasEpoch(y.phase)
  {
    x.read < y.phase.epoch && y.read < x.phase.epoch
  }

  /** Then they have written no list in common. */
  lemma OverlapIsDisjoint(run: seq<State>, i: nat, t: TxnId, u: TxnId)
    requires IsRun(run) && i < |run| && t != u && t in run[i].txns && u in run[i].txns
    requires HasEpoch(run[i].txns[t].phase) && HasEpoch(run[i].txns[u].phase) && Overlap(run[i].txns[t], run[i].txns[u])
    ensures forall k :: k in run[i].txns[t].writes && k in run[i].txns[u].writes ==>
      run[i].txns[t].writes[k] == [] || run[i].txns[u].writes[k] == []
  {
    hide IsRun;
    forall k | k in run[i].txns[t].writes && k in run[i].txns[u].writes
      ensures run[i].txns[t].writes[k] == [] || run[i].txns[u].writes[k] == []
    {
      if run[i].txns[t].writes[k] != [] && run[i].txns[u].writes[k] != [] {
        FirstCommitterWins(run, i, k, t, u);
      }
    }
  }

  /** How many of the commits lie at or below epoch `r`. */
  function CommitsBy(hist: seq<Item>, r: int): (n: nat)
    ensures n <= |hist|
  {
    if hist == [] || hist[0].epoch > r then 0 else 1 + CommitsBy(hist[1..], r)
  }

  lemma {:induction false} CommitsByMeans(hist: seq<Item>, r: int)
    requires forall a, b :: 0 <= a < b < |hist| ==> hist[a].epoch < hist[b].epoch
    ensures forall a :: 0 <= a < |hist| ==> (hist[a].epoch <= r <==> a < CommitsBy(hist, r))
  {
    if hist != [] && hist[0].epoch <= r {
      CommitsByMeans(hist[1..], r);
      forall a | 0 < a < |hist|
        ensures hist[a] == hist[1..][a - 1]
      {
      }
    }
  }

  /** A snapshot is the list as the commits up to its epoch have left it: the later ones are
      missing altogether. */
  lemma {:induction false} SnapshotIsPrefix(base: seq<Edge>, hist: seq<Item>, r: int, n: nat)
    requires n <= |hist| && forall a :: 0 <= a < |hist| ==> (hist[a].epoch <= r <==> a < n)
    requires forall a :: 0 <= a < |hist| ==> hist[a].epoch <= LAST_EPOCH
    ensures Snapshot(base, hist, r) == Snapshot(base, hist[..n], LAST_EPOCH)
  {
    if n == |hist| {
      assert hist[..n] == hist;
      SnapshotStable(base, hist, r, LAST_EPOCH);
    } else {
      var front := hist[..|hist| - 1];
      SnapshotIsPrefix(base, front, r, n);
      assert front[..n] == hist[..n];
    }
  }

  /** What a transaction sees of a list that another one has written: the other one's commit is
      in its snapshot if and only if it had become readable when it began. */
  lemma SeesCommit(run: seq<State>, i: nat, k: Key, t: TxnId, r: int, u: TxnId, a: int)
    requires IsRun(run) && i < |run| && Reading(run[i], t, r) && k in run[i].lists && !Owns(run[i], t, k)
    requires PartAt(run[i], u, k, a)
    ensures var L := run[i].lists[k];
      var n := CommitsBy(L.hist, r);
      && WfHeap(L.heap) && -1 <= L.head < |L.heap|
      && ReadAt(L.heap, L.head, r, t) == Snapshot(L.base, L.hist[..n], LAST_EPOCH)
      && (a < n <==> run[i].txns[u].phase.epoch <= r)
  {
    SnapshotRead(run, i, k, t, r);
    RunInv(run, i);
    var L := run[i].lists[k];
    assert ListOk(run[i], k);
    CommitsByMeans(L.hist, r);
    SnapshotIsPrefix(L.base, L.hist, r, CommitsBy(L.hist, r));
  }

  // ---------------------------------------------------------------------------
  // A transaction that writes one edge and commits.

  /** A bulk-loaded list with an empty block. */
  function EmptyList(): List {
    List([Block(4, 4, -1, 0, [])], 0, {}, [], [], 4, Nobody)
  }

  /** The stages of a put_edge and its commit at epoch `c` on that list, one write at a time. */
  function Stage(t: TxnId, op: Op, c: int, i: nat): List
    requires op.Put? && i <= 10
  {
    var e, d := Entry(op.dst, op.data, -t, TOMBSTONE), Entry(op.dst, op.data, c, TOMBSTONE);
    var w0 := Writer(t, 4, 1, 0, 0, map[], [], [], Ready, Active, {}, false);
    var w4 := w0.(cnt := map[0 := 1], todo := [EntryCre(0, 0)], ops := [op]);
    var w7 := w4.(mode := Committing(c), todo := [EntryCre(0, 0), BlockCom(0)]);
    var done := List([Block(4, c, -1, 1, [d])], 0, {}, [], [], 4, By(w7.(todo := [], headDone := true)));
    match i
    case 0 => EmptyList().(owner := By(w0))
    case 1 => EmptyList().(owner := By(w0.(stage := Finding(op))))
    case 2 => EmptyList().(owner := By(w0.(stage := Adding(op))))
    case 3 => EmptyList().(heap := [Block(4, 4, -1, 0, [e])], owner := By(w4))
    case 4 => EmptyList().(heap := [Block(4, 4, -1, 0, [e])], owner := By(w4.(mode := Committing(c), tails := {0})))
    case 5 => EmptyList().(heap := [Block(4, 4, -1, 1, [e])], owner := By(w4.(mode := Committing(c), tails := {0})))
    case 6 => EmptyList().(heap := [Block(4, -t, -1, 1, [e])], owner := By(w7))
    case 7 => EmptyList().(heap := [Block(4, -t, -1, 1, [e])], owner := By(w7.(headDone := true)))
    case 8 =>
      EmptyList().(heap := [Block(4, -t, -1, 1, [d])], owner := By(w7.(todo := [BlockCom(0)], headDone := true)))
    case 9 => done
    case 10 => done.(owner := Nobody, hist := [Item(t, 4, c, [op])])
  }

  lemma StagesWrite(t: TxnId, op: Op, c: int)
    requires op.Put? && 0 < t < RO_TRANSACTION
    ensures NoConflict(EmptyList(), t, 4) && Touch(EmptyList(), t, 4) == Stage(t, op, c, 0)
    ensures Working(Stage(t, op, c, 0)) && Stay(Stage(t, op, c, 0), op) == Stage(t, op, c, 1)
    ensures InOp(Stage(t, op, c, 1)) && MarkDeleted(Stage(t, op, c, 1)) == Stage(t, op, c, 2)
    ensures InOp(Stage(t, op, c, 2)) && WriteEntry(Stage(t, op, c, 2)) == Stage(t, op, c, 3)
  {
    assert Current(Stage(t, op, c, 1)) == [];
    var none: map<int, nat> := map[];
    assert none[0 := 1] == map[0 := 1];
    assert WriteEntry(Stage(t, op, c, 2)).owner.w == Stage(t, op, c, 3).owner.w;
  }

  lemma StagesPublish(t: TxnId, op: Op, c: int)
    requires op.Put? && 0 < t < RO_TRANSACTION && 4 < c < LAST_EPOCH
    ensures VersionedList.Register(Stage(t, op, c, 3), c) == Stage(t, op, c, 4)
    ensures PublishSize(Stage(t, op, c, 4), 0) == Stage(t, op, c, 5)
    ensures MarkTail(Stage(t, op, c, 5), 0) == Stage(t, op, c, 6)
    ensures CommitHead(Stage(t, op, c, 6)) == Stage(t, op, c, 7)
  {
    var one: map<int, nat>, tails: set<int>, todo: seq<Loc> := map[0 := 1], {0}, [EntryCre(0, 0)];
    assert one.Keys == tails && tails - tails == {} && todo + [BlockCom(0)] == [EntryCre(0, 0), BlockCom(0)];
    assert MarkTail(Stage(t, op, c, 5), 0).owner.w == Stage(t, op, c, 6).owner.w;
  }

  lemma StagesStamp(t: TxnId, op: Op, c: int)
    requires op.Put? && 0 < t < RO_TRANSACTION && 4 < c < LAST_EPOCH
    ensures FinishStamp(Stage(t, op, c, 7)) == Stage(t, op, c, 8)
    ensures FinishStamp(Stage(t, op, c, 8)) == Stage(t, op, c, 9)
    ensures FinishCommit(Stage(t, op, c, 9)) == Stage(t, op, c, 10)
  {
    assert [EntryCre(0, 0), BlockCom(0)][1..] == [BlockCom(0)];
    assert FinishStamp(Stage(t, op, c, 7)).heap[0].es == Stage(t, op, c, 8).heap[0].es;
    assert FinishStamp(Stage(t, op, c, 7)).heap == Stage(t, op, c, 8).heap;
  }

  /** The store while transaction `t` works on the list and on nothing else. */
  ghost function Busy(s: State, t: TxnId, key: Key, L: List, locked: bool, x: Txn, writing: int): State {
    s.(lists := s.lists[key := L], txns := s.txns[t := x], writing := writing,
       locks := if locked then s.locks[key.src := t] else s.locks)
  }

  lemma BusyOps(s: State, t: TxnId, key: Key, L: List, L': List, x: Txn, writing: int)
    requires L'.owner.By?
    ensures SetList(Busy(s, t, key, L, true, x, writing), key, L') == Busy(s, t, key, L', true, x, writing)
    ensures SetOps(Busy(s, t, key, L, true, x, writing), t, key, L')
         == Busy(s, t, key, L', true, x.(writes := x.writes[key := L'.owner.w.ops]), writing)
  {
  }

  /** Transaction `t` has just begun at epoch 4, the list is empty, its vertex is not locked. */
  ghost predicate Fresh(s: State, t: TxnId, key: Key, c: int) {
    && t in s.txns && s.txns[t] == Txn(4, Running, map[]) && 0 < t < RO_TRANSACTION
    && key in s.lists && s.lists[key] == EmptyList() && key.src !in s.locks
    && (forall k {:trigger s.lists[k]} :: k in s.lists ==> s.lists[k].owner.Nobody?)
    && (forall v {:trigger s.locks[v]} :: v in s.locks ==> s.locks[v] != t)
    && s.global == 4 < c < LAST_EPOCH && s.writing <= c <= s.writing + 1
  }

  lemma LockStep(s: State, t: TxnId, key: Key, c: int)
    requires Fresh(s, t, key, c)
    ensures OutsideStep(s, Busy(s, t, key, EmptyList(), true, Txn(4, Running, map[]), s.writing), Lock(t, key.src))
  {
    var s' := Busy(s, t, key, EmptyList(), true, Txn(4, Running, map[]), s.writing);
    assert s'.lists == s.lists && s'.txns == s.txns;
  }

  lemma TouchStep(s: State, t: TxnId, key: Key, op: Op, c: int)
    requires Fresh(s, t, key, c) && op.Put?
    ensures OperationStep(Busy(s, t, key, EmptyList(), true, Txn(4, Running, map[]), s.writing),
                          Busy(s, t, key, Stage(t, op, c, 0), true, Txn(4, Running, map[key := []]), s.writing),
                          FirstTouch(t, key))
  {
    StagesWrite(t, op, c);
    var none: map<Key, seq<Op>> := map[];
    assert none[key := []] == map[key := []];
    BusyOps(s, t, key, EmptyList(), Stage(t, op, c, 0), Txn(4, Running, map[]), s.writing);
    hide NoConflict, Touch, Busy, SetOps;
    BusyFacts(s, t, key, EmptyList(), Txn(4, Running, map[]), s.writing);
    EmptyFacts();
  }

  lemma EmptyFacts()
    ensures EmptyList().owner.Nobody? && WfHeap(EmptyList().heap) && -1 <= EmptyList().head < |EmptyList().heap|
  {
  }

  lemma BusyFacts(s: State, t: TxnId, key: Key, L: List, x: Txn, writing: int)
    ensures var b := Busy(s, t, key, L, true, x, writing);
      && t in b.txns && b.txns[t] == x && key in b.lists && b.lists[key] == L
      && key.src in b.locks && b.locks[key.src] == t && b.global == s.global && b.writing == writing
  {
  }

  lemma BusyOwns(s: State, t: TxnId, key: Key, L: List, x: Txn, writing: int)
    requires L.owner.By? && L.owner.w.id == t
    ensures Owns(Busy(s, t, key, L, true, x, writing), t, key)
    ensures x.phase.Running? ==> InPhase(Busy(s, t, key, L, true, x, writing), t, key, IsRunning)
    ensures x.phase.Publishing? ==> InPhase(Busy(s, t, key, L, true, x, writing), t, key, IsPublishing)
  {
  }

  lemma OperationFacts(s: State, t: TxnId, key: Key, op: Op, c: int, i: nat, x: Txn, w: int)
    requires op.Put? && i < 3 && x.phase.Running? && 0 < t < RO_TRANSACTION
    ensures var b, L := Busy(s, t, key, Stage(t, op, c, i), true, x, w), Stage(t, op, c, i + 1);
      && key in b.lists && b.lists[key] == Stage(t, op, c, i) && t in b.txns && L.owner.By?
      && InPhase(b, t, key, IsRunning)
      && SetList(b, key, L) == Busy(s, t, key, L, true, x, w)
      && SetOps(b, t, key, L) == Busy(s, t, key, L, true, x.(writes := x.writes[key := L.owner.w.ops]), w)
  {
    StageOwners(t, op, c);
    BusyOps(s, t, key, Stage(t, op, c, i), Stage(t, op, c, i + 1), x, w);
    BusyOwns(s, t, key, Stage(t, op, c, i), x, w);
    BusyFacts(s, t, key, Stage(t, op, c, i), x, w);
  }

  lemma StartStep(s: State, t: TxnId, key: Key, op: Op, c: int, x: Txn, w: int)
    requires op.Put? && x.phase.Running? && 0 < t < RO_TRANSACTION
    ensures OperationStep(Busy(s, t, key, Stage(t, op, c, 0), true, x, w),
                          Busy(s, t, key, Stage(t, op, c, 1), true, x, w), StartInPlace(t, key, op))
  {
    OperationFacts(s, t, key, op, c, 0, x, w);
    StagesWrite(t, op, c);
    StageOwners(t, op, c);
    hide Busy, Stage, SetList, SetOps, InPhase, Stay, Working;
  }

  lemma MarkStep(s: State, t: TxnId, key: Key, op: Op, c: int, x: Txn, w: int)
    requires op.Put? && x.phase.Running? && 0 < t < RO_TRANSACTION
    ensures OperationStep(Busy(s, t, key, Stage(t, op, c, 1), true, x, w),
                          Busy(s, t, key, Stage(t, op, c, 2), true, x, w), Store.Step.Mark(t, key))
  {
    OperationFacts(s, t, key, op, c, 1, x, w);
    StagesWrite(t, op, c);
    StageOwners(t, op, c);
    hide Busy, Stage, SetList, SetOps, InPhase, MarkDeleted, Working;
  }

  lemma InsertStep(s: State, t: TxnId, key: Key, op: Op, c: int, x: Txn, w: int)
    requires op.Put? && x.phase.Running? && 0 < t < RO_TRANSACTION
    ensures OperationStep(Busy(s, t, key, Stage(t, op, c, 2), true, x, w),
                          Busy(s, t, key, Stage(t, op, c, 3), true, x.(writes := x.writes[key := [op]]), w),
                          Insert(t, key))
  {
    OperationFacts(s, t, key, op, c, 2, x, w);
    StagesWrite(t, op, c);
    StageOwners(t, op, c);
    hide Busy, Stage, SetList, SetOps, InPhase, WriteEntry, Working;
  }

  lemma StageOwners(t: TxnId, op: Op, c: int)
    requires op.Put?
    ensures forall i :: 0 <= i < 10 ==> Stage(t, op, c, i).owner.By? && Stage(t, op, c, i).owner.w.id == t
    ensures Stage(t, op, c, 0).owner.w.stage.Ready? && 0 <= Stage(t, op, c, 0).owner.w.ptr
    ensures Stage(t, op, c, 1).owner.w.stage == Finding(op) && Stage(t, op, c, 2).owner.w.stage == Adding(op)
    ensures Stage(t, op, c, 3).owner.w.stage.Ready? && Stage(t, op, c, 3).owner.w.ops == [op]
    ensures Stage(t, op, c, 10).owner.Nobody?
  {
  }

  lemma RegisterStep(s: State, t: TxnId, key: Key, op: Op, c: int)
    requires Fresh(s, t, key, c) && op.Put?
    ensures var x := Txn(4, Running, map[key := [op]]);
      EndingStep(Busy(s, t, key, Stage(t, op, c, 3), true, x, s.writing),
                 Busy(s, t, key, Stage(t, op, c, 4), true, x.(phase := Phase.Publishing(c)), c), Step.Register(t, c))
  {
    var x := Txn(4, Running, map[key := [op]]);
    var b, b' := Busy(s, t, key, Stage(t, op, c, 3), true, x, s.writing),
                 Busy(s, t, key, Stage(t, op, c, 4), true, x.(phase := Phase.Publishing(c)), c);
    StageOwners(t, op, c);
    StagesPublish(t, op, c);
    hide Stage, VersionedList.Register;
    OnlyOwner(s, t, key, Stage(t, op, c, 3), x, s.writing);
    assert Registered(b, t, c).lists == b'.lists;
    assert Registered(b, t, c).txns == b'.txns;
  }

  /** The transaction owns no other list. */
  lemma OnlyOwner(s: State, t: TxnId, key: Key, L: List, x: Txn, writing: int)
    requires forall k {:trigger s.lists[k]} :: k in s.lists ==> s.lists[k].owner.Nobody?
    ensures forall k {:trigger Owns(Busy(s, t, key, L, true, x, writing), t, k)} ::
      Owns(Busy(s, t, key, L, true, x, writing), t, k) ==> k == key
  {
  }

  /** The transaction with its commit epoch. */
  function Publisher(key: Key, op: Op, c: int): Txn {
    Txn(4, Phase.Publishing(c), map[key := [op]])
  }

  lemma PublishFacts(t: TxnId, op: Op, c: int)
    requires op.Put?
    ensures forall i :: 3 <= i < 6 ==> Stage(t, op, c, i).owner.w.cnt == map[0 := 1] && |Stage(t, op, c, i).heap| == 1
    ensures Stage(t, op, c, 4).owner.w.tails == {0} && Stage(t, op, c, 5).owner.w.tails == {0}
    ensures Stage(t, op, c, 5).heap[0].n == 1
    ensures forall i :: 6 <= i < 10 ==>
      Stage(t, op, c, i).owner.w.tails == {} && Stage(t, op, c, i).owner.w.mode.Committing?
    ensures !Stage(t, op, c, 6).owner.w.headDone && WfHeap(Stage(t, op, c, 6).heap)
    ensures -1 <= Stage(t, op, c, 6).head < |Stage(t, op, c, 6).heap|
    ensures forall i :: 7 <= i < 10 ==> Stage(t, op, c, i).owner.w.headDone
    ensures Stage(t, op, c, 7).owner.w.todo == [EntryCre(0, 0), BlockCom(0)]
    ensures ValidLoc(Stage(t, op, c, 7).heap, EntryCre(0, 0)) && ValidLoc(Stage(t, op, c, 8).heap, BlockCom(0))
    ensures Stage(t, op, c, 8).owner.w.todo == [BlockCom(0)] && Stage(t, op, c, 9).owner.w.todo == []
  {
  }

  lemma PublishSteps(s: State, t: TxnId, key: Key, op: Op, c: int)
    requires Fresh(s, t, key, c) && op.Put?
    ensures var x := Publisher(key, op, c);
      && EndingStep(Busy(s, t, key, Stage(t, op, c, 4), true, x, c), Busy(s, t, key, Stage(t, op, c, 5), true, x, c),
                    PublishTail(t, key, 0))
      && EndingStep(Busy(s, t, key, Stage(t, op, c, 5), true, x, c), Busy(s, t, key, Stage(t, op, c, 6), true, x, c),
                    MarkCommitting(t, key, 0))
  {
    var x := Publisher(key, op, c);
    StageOwners(t, op, c);
    StagesPublish(t, op, c);
    PublishFacts(t, op, c);
    forall i | 4 <= i < 6
      ensures Busy(s, t, key, Stage(t, op, c, i), true, x, c).lists[key] == Stage(t, op, c, i)
      ensures InPhase(Busy(s, t, key, Stage(t, op, c, i), true, x, c), t, key, IsPublishing)
      ensures SetList(Busy(s, t, key, Stage(t, op, c, i), true, x, c), key, Stage(t, op, c, i + 1))
           == Busy(s, t, key, Stage(t, op, c, i + 1), true, x, c)
    {
      BusyFacts(s, t, key, Stage(t, op, c, i), x, c);
      BusyOwns(s, t, key, Stage(t, op, c, i), x, c);
      BusyOps(s, t, key, Stage(t, op, c, i), Stage(t, op, c, i + 1), x, c);
    }
    hide Busy, Stage, SetList, InPhase, PublishSize, MarkTail;
  }

  /** What the later steps of a commit ask of all lists of the transaction holds of its only one. */
  lemma OnlyListDone(s: State, t: TxnId, key: Key, L: List, x: Txn, c: int)
    requires forall k {:trigger s.lists[k]} :: k in s.lists ==> s.lists[k].owner.Nobody?
    requires L.owner.By? && L.owner.w.tails == {}
    ensures var b := Busy(s, t, key, L, true, x, c);
      && TailsDone(b, t)
      && (L.owner.w.headDone ==> HeadsDone(b, t))
      && (L.owner.w.todo == [] ==> StampsDone(b, t))
  {
    OnlyOwner(s, t, key, L, x, c);
  }

  lemma CommitFacts(s: State, t: TxnId, key: Key, op: Op, c: int, i: nat)
    requires Fresh(s, t, key, c) && op.Put? && 6 <= i < 10
    ensures var b, L := Busy(s, t, key, Stage(t, op, c, i), true, Publisher(key, op, c), c), Stage(t, op, c, i + 1);
      && key in b.lists && b.lists[key] == Stage(t, op, c, i) && t in b.txns
      && InPhase(b, t, key, IsPublishing) && TailsDone(b, t)
      && (i >= 7 ==> HeadsDone(b, t)) && (i >= 9 ==> StampsDone(b, t))
      && SetList(b, key, L) == Busy(s, t, key, L, true, Publisher(key, op, c), c)
  {
    var x := Publisher(key, op, c);
    StageOwners(t, op, c);
    PublishFacts(t, op, c);
    BusyFacts(s, t, key, Stage(t, op, c, i), x, c);
    BusyOwns(s, t, key, Stage(t, op, c, i), x, c);
    OnlyListDone(s, t, key, Stage(t, op, c, i), x, c);
    BusyList(s, t, key, Stage(t, op, c, i), Stage(t, op, c, i + 1), x, c);
    hide Stage, Busy, TailsDone, HeadsDone, StampsDone, InPhase, SetList;
  }

  lemma HeadStep(s: State, t: TxnId, key: Key, op: Op, c: int)
    requires Fresh(s, t, key, c) && op.Put?
    ensures var x := Publisher(key, op, c);
      EndingStep(Busy(s, t, key, Stage(t, op, c, 6), true, x, c), Busy(s, t, key, Stage(t, op, c, 7), true, x, c),
                 SwingHead(t, key))
  {
    CommitFacts(s, t, key, op, c, 6);
    StagesPublish(t, op, c);
    PublishFacts(t, op, c);
    hide Busy, Stage, SetList, InPhase, CommitHead, TailsDone, WfHeap;
  }

  lemma StampStep(s: State, t: TxnId, key: Key, op: Op, c: int, i: nat)
    requires Fresh(s, t, key, c) && op.Put? && 7 <= i < 9
    ensures var x := Publisher(key, op, c);
      EndingStep(Busy(s, t, key, Stage(t, op, c, i), true, x, c), Busy(s, t, key, Stage(t, op, c, i + 1), true, x, c),
                 Stamp(t, key))
  {
    CommitFacts(s, t, key, op, c, i);
    StagesStamp(t, op, c);
    PublishFacts(t, op, c);
    hide Busy, Stage, SetList, InPhase, FinishStamp, TailsDone, HeadsDone, ValidLoc;
  }

  lemma ListStep(s: State, t: TxnId, key: Key, op: Op, c: int)
    requires Fresh(s, t, key, c) && op.Put?
    ensures var x := Publisher(key, op, c);
      EndingStep(Busy(s, t, key, Stage(t, op, c, 9), true, x, c), Busy(s, t, key, Stage(t, op, c, 10), true, x, c),
                 ListCommitted(t, key))
  {
    CommitFacts(s, t, key, op, c, 9);
    StagesStamp(t, op, c);
    PublishFacts(t, op, c);
    hide Busy, Stage, SetList, InPhase, FinishCommit, TailsDone, HeadsDone, StampsDone;
  }

  lemma BusyList(s: State, t: TxnId, key: Key, L: List, L': List, x: Txn, writing: int)
    ensures SetList(Busy(s, t, key, L, true, x, writing), key, L') == Busy(s, t, key, L', true, x, writing)
  {
  }

  /** After the commit the transaction owns nothing. */
  lemma NothingOwned(s: State, t: TxnId, key: Key, L: List, locked: bool, x: Txn, c: int)
    requires L.owner.Nobody? && forall k {:trigger s.lists[k]} :: k in s.lists ==> s.lists[k].owner.Nobody?
    ensures var b := Busy(s, t, key, L, locked, x, c);
      && t in b.txns && b.txns[t] == x && b.locks == (if locked then s.locks[key.src := t] else s.locks)
      && forall k {:trigger Owns(b, t, k)} :: !Owns(b, t, k)
  {
  }

  lemma UnlockStep(s: State, t: TxnId, key: Key, L: List, x: Txn, c: int)
    requires Fresh(s, t, key, c) && L.owner.Nobody? && x.phase.Publishing?
    ensures OutsideStep(Busy(s, t, key, L, true, x, c), Busy(s, t, key, L, false, x, c), Unlock(t, key.src))
  {
    NothingOwned(s, t, key, L, true, x, c);
    assert Busy(s, t, key, L, true, x, c).locks - {key.src} == s.locks;
  }

  lemma CleanStep(s: State, t: TxnId, key: Key, L: List, x: Txn, c: int)
    requires Fresh(s, t, key, c) && L.owner.Nobody? && x.phase == Phase.Publishing(c)
    ensures OutsideStep(Busy(s, t, key, L, false, x, c),
                        Busy(s, t, key, L, false, x.(phase := Phase.Released(c)), c), Clean(t))
  {
    NothingOwned(s, t, key, L, false, x, c);
    BusyPhase(s, t, key, L, x, c, Phase.Released(c));
    hide Busy, Owns, SetPhase;
  }

  lemma FinishStep(s: State, t: TxnId, key: Key, L: List, x: Txn, c: int)
    requires L.owner.Nobody? && x.phase == Phase.Released(c)
    ensures OutsideStep(Busy(s, t, key, L, false, x, c),
                        Busy(s, t, key, L, false, x.(phase := Phase.Finished(c)), c), Finish(t))
  {
    BusyPhase(s, t, key, L, x, c, Phase.Finished(c));
    hide Busy, SetPhase;
  }

  lemma BusyPhase(s: State, t: TxnId, key: Key, L: List, x: Txn, c: int, p: Phase)
    ensures var b := Busy(s, t, key, L, false, x, c);
      t in b.txns && b.txns[t] == x && SetPhase(b, t, p) == Busy(s, t, key, L, false, x.(phase := p), c)
  {
  }

  // ---------------------------------------------------------------------------
  // Two such transactions.

  /** A sequence of steps of the store. */
  ghost predicate IsPath(path: seq<State>) {
    path != [] && forall i :: 0 <= i < |path| - 1 ==> Next(path[i], path[i + 1])
  }

  lemma PathMore(path: seq<State>, s: State, s': State, step: Step)
    requires IsPath(path) && path[|path| - 1] == s
    requires OutsideStep(s, s', step) || OperationStep(s, s', step) || EndingStep(s, s', step)
    ensures IsPath(path + [s'])
  {
    hide OutsideStep, OperationStep, EndingStep, CompactionStep;
    assert NextStep(s, s', step);
    var longer := path + [s'];
    forall i | 0 <= i < |longer| - 1
      ensures Next(longer[i], longer[i + 1])
    {
      assert i < |path| - 1 ==> longer[i] == path[i] && longer[i + 1] == path[i + 1];
    }
  }

  /** The store when the transaction is through. */
  ghost function Through(s: State, t: TxnId, key: Key, op: Op, c: int): State
    requires op.Put?
  {
    Busy(s, t, key, Stage(t, op, c, 10), false, Publisher(key, op, c).(phase := Phase.Finished(c)), c)
  }

  lemma WritesPath(s: State, t: TxnId, key: Key, op: Op, c: int, before: seq<State>) returns (path: seq<State>)
    requires Fresh(s, t, key, c) && op.Put? && IsPath(before) && before[|before| - 1] == s
    ensures IsPath(path) && path[0] == before[0]
    ensures path[|path| - 1] == Busy(s, t, key, Stage(t, op, c, 4), true, Publisher(key, op, c), c)
  {
    hide Busy, Stage, Fresh, OutsideStep, OperationStep, EndingStep, IsPath;
    LockStep(s, t, key, c);
    TouchStep(s, t, key, op, c);
    RegisterStep(s, t, key, op, c);
    var x, w := Txn(4, Running, map[key := []]), s.writing;
    assert 0 < t < RO_TRANSACTION by { FreshId(s, t, key, c); }
    assert x.writes[key := [op]] == map[key := [op]];
    StartStep(s, t, key, op, c, x, w);
    MarkStep(s, t, key, op, c, x, w);
    InsertStep(s, t, key, op, c, x, w);
    var s1 := Busy(s, t, key, EmptyList(), true, Txn(4, Running, map[]), w);
    var s2 := Busy(s, t, key, Stage(t, op, c, 0), true, x, w);
    var s3 := Busy(s, t, key, Stage(t, op, c, 1), true, x, w);
    var s4 := Busy(s, t, key, Stage(t, op, c, 2), true, x, w);
    var s5 := Busy(s, t, key, Stage(t, op, c, 3), true, x.(writes := map[key := [op]]), w);
    var s6 := Busy(s, t, key, Stage(t, op, c, 4), true, Publisher(key, op, c), c);
    NotEmpty(before);
    PathMore(before, s, s1, Lock(t, key.src));
    PathMore(before + [s1], s1, s2, FirstTouch(t, key));
    PathMore(before + [s1] + [s2], s2, s3, StartInPlace(t, key, op));
    PathMore(before + [s1] + [s2] + [s3], s3, s4, Store.Step.Mark(t, key));
    PathMore(before + [s1] + [s2] + [s3] + [s4], s4, s5, Insert(t, key));
    path := before + [s1] + [s2] + [s3] + [s4] + [s5];
    PathMore(path, s5, s6, Step.Register(t, c));
    path := path + [s6];
  }

  lemma FreshId(s: State, t: TxnId, key: Key, c: int)
    requires Fresh(s, t, key, c)
    ensures 0 < t < RO_TRANSACTION
  {
  }

  lemma NotEmpty(path: seq<State>)
    requires IsPath(path)
    ensures path != []
  {
  }

  lemma CommitsPath(s: State, t: TxnId, key: Key, op: Op, c: int, before: seq<State>) returns (path: seq<State>)
    requires Fresh(s, t, key, c) && op.Put? && IsPath(before)
    requires before[|before| - 1] == Busy(s, t, key, Stage(t, op, c, 4), true, Publisher(key, op, c), c)
    ensures IsPath(path) && path[0] == before[0] && path[|path| - 1] == Through(s, t, key, op, c)
  {
    hide Busy, Stage, Fresh, OutsideStep, OperationStep, EndingStep, IsPath;
    PublishSteps(s, t, key, op, c);
    var x := Publisher(key, op, c);
    HeadStep(s, t, key, op, c);
    StampStep(s, t, key, op, c, 7);
    StampStep(s, t, key, op, c, 8);
    ListStep(s, t, key, op, c);
    StageOwners(t, op, c);
    UnlockStep(s, t, key, Stage(t, op, c, 10), x, c);
    CleanStep(s, t, key, Stage(t, op, c, 10), x, c);
    FinishStep(s, t, key, Stage(t, op, c, 10), x.(phase := Phase.Released(c)), c);
    var states := [
      Busy(s, t, key, Stage(t, op, c, 4), true, x, c), Busy(s, t, key, Stage(t, op, c, 5), true, x, c),
      Busy(s, t, key, Stage(t, op, c, 6), true, x, c), Busy(s, t, key, Stage(t, op, c, 7), true, x, c),
      Busy(s, t, key, Stage(t, op, c, 8), true, x, c), Busy(s, t, key, Stage(t, op, c, 9), true, x, c),
      Busy(s, t, key, Stage(t, op, c, 10), true, x, c), Busy(s, t, key, Stage(t, op, c, 10), false, x, c),
      Busy(s, t, key, Stage(t, op, c, 10), false, x.(phase := Phase.Released(c)), c), Through(s, t, key, op, c)];
    var steps := [
      PublishTail(t, key, 0), MarkCommitting(t, key, 0), SwingHead(t, key), Stamp(t, key), Stamp(t, key),
      ListCommitted(t, key), Unlock(t, key.src), Clean(t), Finish(t)];
    path := before;
    NotEmpty(path);
    var i := 0;
    while i < 9
      invariant 0 <= i <= 9 && path != [] && IsPath(path) && path[0] == before[0] && path[|path| - 1] == states[i]
    {
      PathMore(path, states[i], states[i + 1], steps[i]);
      path := path + [states[i + 1]];
      i := i + 1;
    }
  }

  /** Both transactions begin at epoch 4. */
  function Opening(a: Key, b: Key, n: nat): State
    requires n <= 2
  {
    State(4, 4, 1 + n,
          if n == 0 then map[] else if n == 1 then map[1 := Txn(4, Running, map[])]
          else map[1 := Txn(4, Running, map[]), 2 := Txn(4, Running, map[])],
          map[], map[], map[a := EmptyList(), b := EmptyList()])
  }

  lemma OpeningPath(a: Key, b: Key)
    ensures Init(Opening(a, b, 0))
    ensures IsPath([Opening(a, b, 0), Opening(a, b, 1), Opening(a, b, 2)])
  {
    var path := [Opening(a, b, 0), Opening(a, b, 1), Opening(a, b, 2)];
    assert NextStep(path[0], path[1], Begin);
    assert NextStep(path[1], path[2], Begin);
  }

  lemma FreshFirst(a: Key, b: Key)
    requires a != b
    ensures Fresh(Opening(a, b, 2), 1, a, 5)
  {
  }

  lemma FreshSecond(a: Key, b: Key, op: Op)
    requires a != b && op.Put?
    ensures Fresh(Through(Opening(a, b, 2), 1, a, op, 5), 2, b, 6)
  {
    StageOwners(1, op, 5);
  }

  /** Transactions 1 and 2 both begin at epoch 4 and put an edge each into two lists of one
      vertex.  Both commit, at epochs 5 and 6, and in the snapshot that each of them read the
      other one's list is still empty. */
  lemma OverlapHappens(v: Vertex, etype: nat, etype': nat, op: Op, op': Op) returns (run: seq<State>)
    requires etype != etype' && op.Put? && op'.Put?
    ensures IsRun(run)
    ensures var s, a, b := run[|run| - 1], Key(v, etype), Key(v, etype');
      && s.txns == map[1 := Txn(4, Phase.Finished(5), map[a := [op]]), 2 := Txn(4, Phase.Finished(6), map[b := [op']])]
      && Overlap(s.txns[1], s.txns[2])
      && s.lists.Keys == {a, b}
      && Snapshot(s.lists[a].base, s.lists[a].hist, 4) == [] == Snapshot(s.lists[b].base, s.lists[b].hist, 4)
      && Snapshot(s.lists[a].base, s.lists[a].hist, 6) == [Edge(op.dst, op.data)]
      && Snapshot(s.lists[b].base, s.lists[b].hist, 6) == [Edge(op'.dst, op'.data)]
  {
    var a, b := Key(v, etype), Key(v, etype');
    var s0 := Opening(a, b, 2);
    var s1 := Through(s0, 1, a, op, 5);
    run := [Opening(a, b, 0), Opening(a, b, 1), s0];
    OpeningPath(a, b);
    FreshFirst(a, b);
    FreshSecond(a, b, op);
    run := WritesPath(s0, 1, a, op, 5, run);
    run := CommitsPath(s0, 1, a, op, 5, run);
    run := WritesPath(s1, 2, b, op', 6, run);
    run := CommitsPath(s1, 2, b, op', 6, run);
    OverlapOutcome(a, b, op, op');
  }

  lemma OverlapOutcome(a: Key, b: Key, op: Op, op': Op)
    requires a != b && op.Put? && op'.Put?
    ensures var s := Through(Through(Opening(a, b, 2), 1, a, op, 5), 2, b, op', 6);
      && s.txns == map[1 := Txn(4, Phase.Finished(5), map[a := [op]]), 2 := Txn(4, Phase.Finished(6), map[b := [op']])]
      && s.lists == map[a := Stage(1, op, 5, 10), b := Stage(2, op', 6, 10)]
      && Snapshot(s.lists[a].base, s.lists[a].hist, 4) == [] == Snapshot(s.lists[b].base, s.lists[b].hist, 4)
      && Snapshot(s.lists[a].base, s.lists[a].hist, 6) == [Edge(op.dst, op.data)]
      && Snapshot(s.lists[b].base, s.lists[b].hist, 6) == [Edge(op'.dst, op'.data)]
  {
    OneCommit(Item(1, 4, 5, [op]), 4);
    OneCommit(Item(1, 4, 5, [op]), 6);
    OneCommit(Item(2, 4, 6, [op']), 4);
    OneCommit(Item(2, 4, 6, [op']), 6);
  }

  lemma OneCommit(it: Item, r: int)
    requires |it.ops| == 1 && it.ops[0].Put?
    ensures Snapshot([], [it], r) == if it.epoch <= r then [Edge(it.ops[0].dst, it.ops[0].data)] else []
  {
    assert [it][..0] == [] && it.ops[..0] == [];
    assert ApplyOps([], it.ops) == ApplyOp([], it.ops[0]);
  }
}
