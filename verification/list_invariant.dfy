/** What every single write keeps true of one edge list.

    The invariant `Inv` says of the published part of the list that every reader between
    the oldest live one and the pending commit sees the committed updates up to its epoch,
    and nothing freed.  Of the transaction that holds the lock it says that every mark it
    has left is on its list of stamps to finish, or vanishes with a private block; that its
    private blocks are the newest part of the chain; and that its cached block shows it its
    own operations on top of all commits.

    The lemmas follow the life of a writer: the first touch, the single writes of put_edge
    and del_edge, the single writes of a commit or of an abort, and then the two halves of
    compaction, which find no writer.  Each step has its lemma, named after the step, and
    helpers in front of it for the parts of the invariant. */
module ListInvariant {
  import opened Timestamps
  import opened EdgeLog
  import opened VersionedList

  // ---------------------------------------------------------------------------
  // The invariant.

  ghost predicate ChainAvoids(heap: seq<Block>, p: int, bad: set<int>)
    requires WfHeap(heap) && -1 <= p < |heap|
    decreases p
  {
    p < 0 || (p !in bad && ChainAvoids(heap, heap[p].prev, bad))
  }

  /** The heap is well formed and no freed block can be reached from the head. */
  ghost predicate Shape(L: List) {
    && WfHeap(L.heap)
    && -1 <= L.head < |L.heap|
    && 0 <= L.low
    && (forall b :: b in L.freed ==> 0 <= b < |L.heap|)
    && ChainAvoids(L.heap, L.head, L.freed)
  }

  /** Every later committer began after the earlier one's epoch had become readable. */
  ghost predicate HistOk(L: List) {
    && (forall i {:trigger L.hist[i]} :: 0 <= i < |L.hist| ==>
          0 <= L.hist[i].read < L.hist[i].epoch < TOMBSTONE)
    && (forall i, j :: 0 <= i < j < |L.hist| ==> L.hist[i].epoch <= L.hist[j].read)
    && (L.head < 0 ==> L.hist == [] && L.base == [])
  }

  /** A mark of a transaction, or already the stamp that replaces it. */
  ghost predicate OwnStamp(w: Writer, x: int) {
    || x == -w.id
    || (w.mode.Committing? && x == w.mode.epoch)
    || (w.mode.Aborting? && x == TOMBSTONE)
  }

  /** A location that the writer is certain to finish, or that vanishes with its block. */
  ghost predicate Covered(w: Writer, l: Loc) {
    || l in w.todo
    || (l.BlockCom? && w.floor <= l.b && (!w.mode.Committing? || l.b in w.tails))
  }

  /** Every uncommitted mark belongs to the lock holder and will be finished. */
  ghost predicate MarksOwned(L: List) {
    forall l {:trigger StampAt(L.heap, l)} :: ValidLoc(L.heap, l) && StampAt(L.heap, l) < 0 ==>
      L.owner.By? && StampAt(L.heap, l) == -L.owner.w.id && Covered(L.owner.w, l)
  }

  ghost predicate SettledEntry(e: Entry, from: int, upTo: int, o: Owner) {
    && 0 <= e.cre <= upTo
    && (e.del == TOMBSTONE || from <= e.del <= upTo || (o.By? && e.del == -o.w.id))
  }

  /** The writer is in the middle of making its operations public. */
  ghost predicate Publishing(L: List) {
    L.owner.By? && L.owner.w.mode.Committing? && L.owner.w.ops != []
  }

  /** The published head: all its stamps lie at or below its committed time, and no
      deletion precedes the creation of the block. */
  ghost predicate HeadOk(L: List)
    requires Shape(L)
  {
    !Publishing(L) && 0 <= L.head ==>
      var blk := L.heap[L.head];
      && 0 <= blk.cre
      && 0 <= blk.com < TOMBSTONE
      && (blk.cre <= blk.com || blk.cre <= L.low)
      && (forall i {:trigger L.hist[i]} :: 0 <= i < |L.hist| ==> L.hist[i].epoch <= blk.com)
      && (if L.hist == [] then blk.com <= L.low else blk.com == L.hist[|L.hist| - 1].epoch)
      && (forall j {:trigger blk.es[j]} :: 0 <= j < blk.n ==> SettledEntry(blk.es[j], blk.cre, blk.com, L.owner))
  }

  /** Epochs below this bound do not see the writer's pending commit. */
  ghost function Horizon(L: List): int {
    if Publishing(L) then L.owner.w.mode.epoch else TOMBSTONE
  }

  /** Every reader sees exactly the committed updates up to its epoch. */
  ghost predicate ReadersOk(L: List)
    requires Shape(L)
  {
    forall r {:trigger ReadAt(L.heap, L.head, r, RO_TRANSACTION)} :: L.low <= r < Horizon(L) ==>
      ReadAt(L.heap, L.head, r, RO_TRANSACTION) == Snapshot(L.base, L.hist, r)
  }

  /** Where the writer stands: its private blocks lie above `floor`, its cached block is the
      newest of them or else the head it found. */
  ghost predicate WriterFrame(L: List)
    requires Shape(L) && L.owner.By?
  {
    var w := L.owner.w;
    && 0 < w.id < RO_TRANSACTION
    && L.low <= w.read < LAST_EPOCH
    && (w.mode.Committing? ==> w.read < w.mode.epoch < TOMBSTONE)
    && w.floor <= |L.heap|
    && -1 <= w.home < w.floor
    && w.ptr == (if |L.heap| > w.floor then |L.heap| - 1 else w.home)
    && L.head == (if w.headDone then w.ptr else w.home)
    && (w.headDone ==> w.mode.Committing? && w.tails == {})
    && (forall b :: b in L.freed ==> b < w.floor)
    && ChainAvoids(L.heap, w.home, L.freed)
    && (forall i {:trigger L.hist[i]} :: 0 <= i < |L.hist| ==> L.hist[i].epoch <= w.read)
    && (0 <= w.home ==> 0 <= L.heap[w.home].cre <= w.read)
    && (w.home < 0 ==> L.hist == [] && L.base == [])
    && (w.ptr < 0 ==> w.stage.Ready?)
  }

  /** The private blocks form the newest part of the chain. */
  ghost predicate PrivateOk(L: List)
    requires Shape(L) && L.owner.By?
  {
    var w := L.owner.w;
    forall i {:trigger L.heap[i]} :: w.floor <= i < |L.heap| ==>
      L.heap[i].prev == (if i == w.floor then w.home else i - 1) && OwnStamp(w, L.heap[i].cre)
  }

  ghost predicate CountsOk(L: List)
    requires Shape(L) && L.owner.By? && WriterFrame(L)
  {
    var w := L.owner.w;
    && (forall b {:trigger b in w.cnt} :: b in w.cnt ==>
          (b == w.home >= 0 || w.floor <= b < |L.heap|) && w.cnt[b] <= |L.heap[b].es|)
    && w.tails <= w.cnt.Keys
    && (w.mode.Committing? ==> forall b {:trigger b in w.cnt} :: b in w.cnt && b !in w.tails ==>
          L.heap[b].n == w.cnt[b] && OwnStamp(w, L.heap[b].com))
  }

  /** The stamps to finish are the writer's, and none lies beyond its entry count. */
  ghost predicate TodoOk(L: List)
    requires Shape(L) && L.owner.By? && WriterFrame(L)
  {
    var w := L.owner.w;
    forall l {:trigger l in w.todo} :: l in w.todo ==>
      && ValidLoc(L.heap, l)
      && OwnStamp(w, StampAt(L.heap, l))
      && ((l.EntryCre? || l.EntryDel?) && l.b == w.ptr ==> l.i < Cnt(L, l.b))
  }

  /** Entries added to the published head are the writer's own. */
  ghost predicate HomeOk(L: List)
    requires Shape(L) && L.owner.By? && WriterFrame(L)
  {
    var w := L.owner.w;
    0 <= w.home && w.home in w.cnt ==>
      && L.heap[w.home].n <= w.cnt[w.home] <= |L.heap[w.home].es|
      && forall j {:trigger L.heap[w.home].es[j]} :: L.heap[w.home].n <= j < w.cnt[w.home] ==>
           OwnStamp(w, L.heap[w.home].es[j].cre)
  }

  ghost predicate WriterEntry(w: Writer, e: Entry, from: int) {
    && (OwnStamp(w, e.cre) || 0 <= e.cre <= w.read)
    && (OwnStamp(w, e.del) || e.del == TOMBSTONE || (w.ptr == w.home && 0 <= from <= e.del <= w.read))
  }

  ghost predicate BlockOk(L: List)
    requires Shape(L) && L.owner.By? && WriterFrame(L) && CountsOk(L)
  {
    var w := L.owner.w;
    if w.ptr < 0 then w.ops == []
    else
      forall j {:trigger L.heap[w.ptr].es[j]} :: 0 <= j < Cnt(L, w.ptr) ==>
        WriterEntry(w, L.heap[w.ptr].es[j], L.heap[w.ptr].cre)
  }

  /** What the writer should see: the commits so far and its completed operations, with
      the running one half done. */
  ghost function Expected(L: List): seq<Edge>
    requires L.owner.By?
  {
    var w := L.owner.w;
    var l := ApplyOps(Snapshot(L.base, L.hist, LAST_EPOCH), w.ops);
    if w.stage.Adding? && !(w.stage.op.Put? && w.stage.op.force) then RemoveFirst(l, w.stage.op.dst) else l
  }

  /** The cached block shows the transaction its own operations on top of all commits. */
  ghost predicate OwnView(L: List)
    requires Shape(L) && L.owner.By? && WriterFrame(L) && CountsOk(L)
  {
    var w := L.owner.w;
    0 <= w.ptr && !w.mode.Aborting? ==> View(Current(L), LAST_EPOCH, w.id) == Expected(L)
  }

  /** Every block the writer has filled will be published by commit. */
  ghost predicate Synced(L: List)
    requires L.owner.By?
  {
    var w := L.owner.w;
    && (forall b :: w.floor <= b < |L.heap| && (b != w.ptr || w.stage.Ready?) ==> b in w.cnt)
    && (w.stage.Ready? && w.ops != [] ==> 0 <= w.ptr && w.ptr in w.cnt)
    && (w.stage.Ready? && w.ops == [] ==> w.cnt == map[] && |L.heap| == w.floor && w.todo == [])
    && (!w.mode.Aborting? && !w.mode.Active? ==> w.stage.Ready?)
  }

  ghost predicate WriterOk(L: List)
    requires Shape(L)
  {
    L.owner.By? ==>
      && WriterFrame(L) && PrivateOk(L) && CountsOk(L) && TodoOk(L) && HomeOk(L) && BlockOk(L)
      && OwnView(L) && Synced(L)
  }

  ghost predicate Inv(L: List) {
    Shape(L) && HistOk(L) && MarksOwned(L) && HeadOk(L) && ReadersOk(L) && WriterOk(L)
  }

  // ---------------------------------------------------------------------------
  // Chains and snapshots.

  lemma {:induction false} AvoidsAgrees(h: seq<Block>, h': seq<Block>, p: int, bad: set<int>)
    requires WfHeap(h) && WfHeap(h') && -1 <= p < |h| && p < |h'|
    requires forall i {:trigger h[i]} :: 0 <= i <= p ==> h'[i].prev == h[i].prev
    requires ChainAvoids(h, p, bad)
    ensures ChainAvoids(h', p, bad)
    decreases p
  {
    if p >= 0 {
      assert h'[p].prev == h[p].prev;
      AvoidsAgrees(h, h', h[p].prev, bad);
    }
  }

  lemma {:induction false} SnapshotStable(base: seq<Edge>, hist: seq<Item>, r: int, r': int)
    requires forall i :: 0 <= i < |hist| ==> (hist[i].epoch <= r <==> hist[i].epoch <= r')
    ensures Snapshot(base, hist, r) == Snapshot(base, hist, r')
  {
    if hist == [] {
    } else {
      SnapshotStable(base, hist[..|hist| - 1], r, r');
    }
  }

  lemma SnapshotStep(base: seq<Edge>, hist: seq<Item>, it: Item, r: int)
    ensures Snapshot(base, hist + [it], r)
         == if it.epoch <= r then ApplyOps(Snapshot(base, hist, r), it.ops) else Snapshot(base, hist, r)
  {
    assert (hist + [it])[..|hist|] == hist;
  }

  // ---------------------------------------------------------------------------
  // Changes that readers below the horizon cannot notice.

  /** No reader below the horizon has reached this stamp. */
  ghost predicate Late(x: int, hor: int) {
    (x < 0 && x != -RO_TRANSACTION) || hor <= x
  }

  ghost predicate Alike(x: int, y: int, hor: int) {
    x == y || (Late(x, hor) && Late(y, hor))
  }

  ghost predicate BlockAlike(b: Block, b': Block, hor: int) {
    && b.n <= |b.es| && b'.n <= |b'.es| && b.n <= b'.n
    && Alike(b.cre, b'.cre, hor)
    && (forall j {:trigger b.es[j]} {:trigger b'.es[j]} :: 0 <= j < b.n ==>
          && EdgeOf(b.es[j]) == EdgeOf(b'.es[j])
          && Alike(b.es[j].cre, b'.es[j].cre, hor)
          && Alike(b.es[j].del, b'.es[j].del, hor))
    && (forall j {:trigger b'.es[j]} :: b.n <= j < b'.n ==> Late(b'.es[j].cre, hor))
  }

  lemma BlockAlikeView(b: Block, b': Block, hor: int, r: int)
    requires BlockAlike(b, b', hor) && 0 <= r < hor
    ensures View(b.es[..b.n], r, RO_TRANSACTION) == View(b'.es[..b'.n], r, RO_TRANSACTION)
  {
    ViewUnseenTail(b'.es[..b'.n], b.n, r, RO_TRANSACTION);
    assert b'.es[..b'.n][..b.n] == b'.es[..b.n];
    ViewAgrees(b.es[..b.n], b'.es[..b.n], r, RO_TRANSACTION, r, RO_TRANSACTION);
  }

  lemma {:induction false} LocateAlike(h: seq<Block>, h': seq<Block>, p: int, hor: int, r: int)
    requires WfHeap(h) && WfHeap(h') && -1 <= p < |h| && p < |h'| && 0 <= r < hor
    requires forall i {:trigger h[i]} {:trigger h'[i]} :: 0 <= i <= p ==>
      Alike(h[i].cre, h'[i].cre, hor) && h'[i].prev == h[i].prev
    ensures Locate(h, p, r, RO_TRANSACTION) == Locate(h', p, r, RO_TRANSACTION)
    decreases p
  {
    if p >= 0 && !Reached(h[p].cre, r, RO_TRANSACTION) {
      LocateAlike(h, h', h[p].prev, hor, r);
    }
  }

  lemma ReadersKept(L: List, L': List)
    requires Shape(L) && Shape(L') && ReadersOk(L)
    requires L'.head == L.head && L'.base == L.base && L'.hist == L.hist && L'.low == L.low
    requires Horizon(L') <= Horizon(L)
    requires forall i {:trigger L.heap[i]} {:trigger L'.heap[i]} :: 0 <= i <= L.head ==>
      L'.heap[i].prev == L.heap[i].prev && BlockAlike(L.heap[i], L'.heap[i], Horizon(L'))
    ensures ReadersOk(L')
  {
    forall r {:trigger ReadAt(L'.heap, L'.head, r, RO_TRANSACTION)} | L'.low <= r < Horizon(L')
      ensures ReadAt(L'.heap, L'.head, r, RO_TRANSACTION) == Snapshot(L'.base, L'.hist, r)
    {
      LocateAlike(L.heap, L'.heap, L.head, Horizon(L'), r);
      var q := Locate(L.heap, L.head, r, RO_TRANSACTION);
      if q >= 0 {
        BlockAlikeView(L.heap[q], L'.heap[q], Horizon(L'), r);
      }
      assert ReadAt(L.heap, L.head, r, RO_TRANSACTION) == Snapshot(L.base, L.hist, r);
    }
  }

  /** A step that leaves the heap alone. */
  lemma SameHeapReaders(L: List, L': List)
    requires Shape(L) && ReadersOk(L)
    requires L' == L.(owner := L'.owner) && Horizon(L') <= Horizon(L)
    ensures Shape(L') && ReadersOk(L')
  {
    ReadersKept(L, L');
  }

  // ---------------------------------------------------------------------------
  // The first write of a transaction to the list.

  lemma TouchView(L: List, t: TxnId, read: int)
    requires Shape(L) && HeadOk(L) && ReadersOk(L) && L.owner.Nobody? && 0 <= L.head
    requires 0 < t < RO_TRANSACTION && L.low <= LAST_EPOCH && L.heap[L.head].cre <= LAST_EPOCH
    ensures var blk := L.heap[L.head];
      View(blk.es[..blk.n], LAST_EPOCH, t) == Snapshot(L.base, L.hist, LAST_EPOCH)
  {
    var blk := L.heap[L.head];
    assert Reached(blk.cre, LAST_EPOCH, RO_TRANSACTION);
    assert ReadAt(L.heap, L.head, LAST_EPOCH, RO_TRANSACTION) == Snapshot(L.base, L.hist, LAST_EPOCH);
    ViewAgrees(blk.es[..blk.n], blk.es[..blk.n], LAST_EPOCH, RO_TRANSACTION, LAST_EPOCH, t);
  }

  /** The conflict check finds exactly the commits that the transaction has not seen. */
  lemma ConflictIff(L: List, t: TxnId, read: int)
    requires Inv(L) && L.owner.Nobody? && 0 < t < RO_TRANSACTION && L.low <= read
    ensures NoConflict(L, t, read) <==> forall i :: 0 <= i < |L.hist| ==> L.hist[i].epoch <= read
  {
    hide ReadAt, Snapshot, ChainAvoids, ReadersOk;
    if L.head >= 0 {
      assert StampAt(L.heap, BlockCom(L.head)) == L.heap[L.head].com;
      ReachedMeaning(L.heap[L.head].com, read, t);
    }
  }

  /** Without a conflict the writer starts from the newest block, and that block shows it
      everything that has been committed. */
  lemma TouchKeeps(L: List, t: TxnId, read: int)
    requires Inv(L) && L.owner.Nobody? && NoConflict(L, t, read)
    requires 0 < t < RO_TRANSACTION && L.low <= read < LAST_EPOCH
    ensures var T := Touch(L, t, read); Inv(T) && Working(T) && T.owner.w.ptr == L.head
  {
    var T := Touch(L, t, read);
    forall l {:trigger StampAt(T.heap, l)} | ValidLoc(T.heap, l)
      ensures StampAt(T.heap, l) >= 0
    {
      assert ValidLoc(L.heap, l) && StampAt(L.heap, l) == StampAt(T.heap, l);
    }
    if L.head >= 0 {
      var blk := L.heap[L.head];
      assert StampAt(L.heap, BlockCom(L.head)) == blk.com;
      assert Reached(blk.cre, read, t);
      TouchView(L, t, read);
    }
    SameHeapReaders(L, T);
  }

  // ---------------------------------------------------------------------------
  // Reallocation.

  lemma GrowHeap(L: List, op: Op)
    requires Shape(L) && Working(L) && WriterFrame(L) && op.Put? && L.owner.w.stage.Ready?
    ensures Shape(Grow(L, op))
  {
    hide ReadAt, Snapshot, ChainAvoids, CopyForGrowth, Current, OwnEntries;
    AvoidsAgrees(L.heap, Grow(L, op).heap, L.head, L.freed);
  }

  lemma GrowHead(L: List, op: Op)
    requires Shape(L) && HistOk(L) && HeadOk(L) && Working(L) && op.Put? && L.owner.w.stage.Ready? && Shape(Grow(L, op))
    ensures HistOk(Grow(L, op)) && HeadOk(Grow(L, op))
  {
    hide ReadAt, Snapshot, ChainAvoids, CopyForGrowth, Current, OwnEntries;
    var G := Grow(L, op);
    assert 0 <= L.head ==> G.heap[L.head] == L.heap[L.head];
  }

  lemma GrowFrame(L: List, op: Op)
    requires Shape(L) && Working(L) && WriterFrame(L) && op.Put? && L.owner.w.stage.Ready? && Shape(Grow(L, op))
    ensures WriterFrame(Grow(L, op))
  {
    hide ReadAt, Snapshot, ChainAvoids, CopyForGrowth, Current, OwnEntries;
    AvoidsAgrees(L.heap, Grow(L, op).heap, L.owner.w.home, L.freed);
  }

  lemma GrowReaders(L: List, op: Op)
    requires Shape(L) && ReadersOk(L) && Working(L) && op.Put? && L.owner.w.stage.Ready? && Shape(Grow(L, op))
    ensures ReadersOk(Grow(L, op))
  {
    hide ReadAt, Snapshot, ChainAvoids, CopyForGrowth, Current, OwnEntries, ReadersOk;
    ReadersKept(L, Grow(L, op));
  }

  lemma GrowShape(L: List, op: Op)
    requires Shape(L) && ReadersOk(L) && HistOk(L) && HeadOk(L) && Working(L) && WriterFrame(L)
    requires op.Put? && L.owner.w.stage.Ready?
    ensures var G := Grow(L, op);
      Shape(G) && HistOk(G) && HeadOk(G) && ReadersOk(G) && WriterFrame(G)
  {
    hide Grow, HeadOk, ReadersOk, HistOk, ChainAvoids;
    GrowHeap(L, op);
    GrowHead(L, op);
    GrowReaders(L, op);
    GrowFrame(L, op);
  }

  lemma GrownEntries(L: List)
    requires Shape(L) && Working(L) && 0 <= L.owner.w.ptr && WriterFrame(L) && CountsOk(L) && BlockOk(L)
    ensures var w, es := L.owner.w, CopyForGrowth(Current(L), L.owner.w.read, L.owner.w.id);
      && (forall j {:trigger es[j]} :: 0 <= j < |es| ==>
           (es[j].cre == -w.id || 0 <= es[j].cre <= w.read) && es[j].del == TOMBSTONE)
      && View(es, LAST_EPOCH, w.id) == View(Current(L), LAST_EPOCH, w.id)
  {
    var w, es := L.owner.w, CopyForGrowth(Current(L), L.owner.w.read, L.owner.w.id);
    forall j {:trigger es[j]} | 0 <= j < |es|
      ensures (es[j].cre == -w.id || 0 <= es[j].cre <= w.read) && es[j].del == TOMBSTONE
    {
      assert es[j] in Current(L);
    }
    forall j | 0 <= j < |Current(L)| && Reached(Current(L)[j].del, w.read, w.id)
      ensures Reached(Current(L)[j].del, LAST_EPOCH, w.id)
    {
      assert Current(L)[j] == L.heap[w.ptr].es[j];
    }
    GrowthKeepsView(Current(L), w.read, w.id, LAST_EPOCH);
  }

  lemma GrowMarks(L: List, op: Op)
    requires Shape(L) && Working(L) && WriterFrame(L) && CountsOk(L) && BlockOk(L) && MarksOwned(L)
    requires op.Put? && L.owner.w.stage.Ready?
    ensures MarksOwned(Grow(L, op))
  {
    var w, G, b := L.owner.w, Grow(L, op), |L.heap|;
    if w.ptr >= 0 { GrownEntries(L); }
    forall l {:trigger StampAt(G.heap, l)} | ValidLoc(G.heap, l) && StampAt(G.heap, l) < 0
      ensures StampAt(G.heap, l) == -w.id && Covered(G.owner.w, l)
    {
      if l.b < b {
        assert ValidLoc(L.heap, l) && StampAt(L.heap, l) == StampAt(G.heap, l);
      } else if l.EntryCre? {
        assert G.heap[b].es[l.i].cre == -w.id;
      }
    }
  }

  lemma GrowCounts(L: List, op: Op)
    requires Shape(L) && Working(L) && WriterFrame(L) && CountsOk(L) && PrivateOk(L) && HomeOk(L) && Synced(L)
    requires op.Put? && L.owner.w.stage.Ready? && Shape(Grow(L, op)) && WriterFrame(Grow(L, op))
    ensures var G := Grow(L, op); CountsOk(G) && PrivateOk(G) && HomeOk(G) && Synced(G)
  {
    var w, G, b := L.owner.w, Grow(L, op), |L.heap|;
    forall i {:trigger G.heap[i]} | w.floor <= i < |G.heap|
      ensures G.heap[i].prev == (if i == w.floor then w.home else i - 1) && OwnStamp(G.owner.w, G.heap[i].cre)
    {
      if i < b {
        assert G.heap[i] == L.heap[i];
      }
    }
    assert w.home >= 0 ==> G.heap[w.home] == L.heap[w.home];
  }

  lemma GrowTodo(L: List, op: Op)
    requires Shape(L) && Working(L) && WriterFrame(L) && CountsOk(L) && TodoOk(L)
    requires op.Put? && L.owner.w.stage.Ready? && Shape(Grow(L, op)) && WriterFrame(Grow(L, op))
    ensures TodoOk(Grow(L, op))
  {
    var w, G, b := L.owner.w, Grow(L, op), |L.heap|;
    forall l {:trigger l in G.owner.w.todo} | l in G.owner.w.todo
      ensures ValidLoc(G.heap, l) && OwnStamp(G.owner.w, StampAt(G.heap, l))
      ensures (l.EntryCre? || l.EntryDel?) && l.b == b ==> l.i < Cnt(G, b)
    {
      if l in w.todo {
        assert ValidLoc(L.heap, l) && StampAt(L.heap, l) == StampAt(G.heap, l);
      }
    }
  }

  lemma GrowBlock(L: List, op: Op)
    requires Shape(L) && Working(L) && WriterFrame(L) && CountsOk(L) && BlockOk(L)
    requires op.Put? && L.owner.w.stage.Ready?
    requires var G := Grow(L, op); Shape(G) && WriterFrame(G) && CountsOk(G)
    ensures BlockOk(Grow(L, op))
  {
    if L.owner.w.ptr >= 0 { GrownEntries(L); }
  }

  lemma GrowView(L: List, op: Op)
    requires Shape(L) && Working(L) && WriterFrame(L) && CountsOk(L) && BlockOk(L) && OwnView(L)
    requires op.Put? && L.owner.w.stage.Ready?
    requires var G := Grow(L, op); Shape(G) && WriterFrame(G) && CountsOk(G)
    ensures OwnView(Grow(L, op))
  {
    hide ReadersOk, MarksOwned, ChainAvoids, CopyForGrowth, OwnEntries;
    var w, G, b := L.owner.w, Grow(L, op), |L.heap|;
    assert b !in w.cnt;
    assert Current(G) == G.heap[b].es;
    if w.ptr >= 0 {
      GrownEntries(L);
    }
  }

  /** Reallocation moves the writer to a private block that shows it the same list. */
  lemma GrowKeeps(L: List, op: Op)
    requires Inv(L) && Working(L) && op.Put? && L.owner.w.stage.Ready?
    ensures var G := Grow(L, op); Inv(G) && InOp(G)
  {
    GrowShape(L, op);
    GrowMarks(L, op);
    GrowCounts(L, op);
    GrowTodo(L, op);
    GrowBlock(L, op);
    GrowView(L, op);
  }

  lemma StayKeeps(L: List, op: Op)
    requires Inv(L) && Working(L) && 0 <= L.owner.w.ptr && L.owner.w.stage.Ready?
    ensures var S := Stay(L, op); Inv(S) && InOp(S)
  {
    hide ReadAt, Snapshot, ChainAvoids, ReadersOk, MarksOwned, View, ApplyOps;
    var S := Stay(L, op);
    SameHeapReaders(L, S);
    SameHeapMarks(L, S);
    assert Current(S) == Current(L);
  }

  /** Marks stay owned when the heap and the writer's obligations stay. */
  lemma SameHeapMarks(L: List, L': List)
    requires MarksOwned(L) && L.owner.By? && L'.owner.By? && L'.heap == L.heap
    requires L'.owner.w.id == L.owner.w.id
    requires forall l :: ValidLoc(L.heap, l) && Covered(L.owner.w, l) ==> Covered(L'.owner.w, l)
    ensures MarksOwned(L')
  {
    forall l {:trigger StampAt(L'.heap, l)} | ValidLoc(L'.heap, l) && StampAt(L'.heap, l) < 0
      ensures StampAt(L'.heap, l) == -L'.owner.w.id && Covered(L'.owner.w, l)
    {
      assert StampAt(L.heap, l) < 0;
    }
  }

  // ---------------------------------------------------------------------------
  // Writes inside one block.

  /** `L'` differs from `L` in block `p`, whose link stays, and in the writer's state. */
  ghost predicate Edits(L: List, L': List, p: int) {
    && L.owner.By? && L'.owner.By?
    && 0 <= p < |L.heap| == |L'.heap|
    && L'.heap == L.heap[p := L'.heap[p]]
    && L'.heap[p].prev == L.heap[p].prev && L'.heap[p].n <= |L'.heap[p].es|
    && L' == L.(heap := L'.heap, owner := L'.owner)
    && L'.owner.w.id == L.owner.w.id && L'.owner.w.read == L.owner.w.read
    && L'.owner.w.floor == L.owner.w.floor && L'.owner.w.home == L.owner.w.home
    && L'.owner.w.ptr == L.owner.w.ptr && L'.owner.w.mode == L.owner.w.mode
    && L'.owner.w.headDone == L.owner.w.headDone
  }

  lemma EditShape(L: List, L': List, p: int)
    requires Shape(L) && L.owner.By? && WriterFrame(L) && ReadersOk(L) && HistOk(L) && Edits(L, L', p)
    requires L.owner.w.ptr < 0 ==> L'.owner.w.stage.Ready?
    requires Horizon(L') <= Horizon(L)
    requires p == L.owner.w.home ==> 0 <= L'.heap[p].cre <= L.owner.w.read
    requires p <= L.head ==> BlockAlike(L.heap[p], L'.heap[p], Horizon(L'))
    requires L'.owner.w.tails <= L.owner.w.tails
    ensures Shape(L') && WriterFrame(L') && ReadersOk(L') && HistOk(L')
  {
    AvoidsAgrees(L.heap, L'.heap, L.head, L.freed);
    AvoidsAgrees(L.heap, L'.heap, L.owner.w.home, L.freed);
    ReadersKept(L, L');
  }

  /** Stamps at other locations are untouched. */
  ghost predicate OthersSame(h: seq<Block>, h': seq<Block>, ls: set<Loc>) {
    forall l {:trigger StampAt(h', l)} {:trigger ValidLoc(h', l)} :: ValidLoc(h', l) && l !in ls ==>
      ValidLoc(h, l) && StampAt(h, l) == StampAt(h', l)
  }

  lemma OthersSameEntry(h: seq<Block>, p: nat, es: seq<Entry>, k: nat)
    requires p < |h| && |h[p].es| <= |es|
    requires forall j :: 0 <= j < |es| && j != k ==> j < |h[p].es| && es[j] == h[p].es[j]
    ensures OthersSame(h, h[p := h[p].(es := es)], {EntryCre(p, k), EntryDel(p, k)})
  {
    var h' := h[p := h[p].(es := es)];
    forall l {:trigger StampAt(h', l)} {:trigger ValidLoc(h', l)}
      | ValidLoc(h', l) && l !in {EntryCre(p, k), EntryDel(p, k)}
      ensures ValidLoc(h, l) && StampAt(h, l) == StampAt(h', l)
    {
      if l.b == p && (l.EntryCre? || l.EntryDel?) {
        assert h'[p].es[l.i] == es[l.i];
      }
    }
  }

  // ---------------------------------------------------------------------------
  // Marking the replaced or deleted edge.

  lemma VictimLives(L: List)
    requires Shape(L) && InOp(L) && WriterFrame(L) && CountsOk(L) && BlockOk(L) && Victim(L) >= 0
    ensures var e := L.heap[L.owner.w.ptr].es[Victim(L)];
      e.del == TOMBSTONE && Current(L)[Victim(L)] == e
  {
    assert Current(L)[Victim(L)] == L.heap[L.owner.w.ptr].es[Victim(L)];
  }

  lemma MarkMarks(L: List)
    requires Shape(L) && InOp(L) && WriterFrame(L) && CountsOk(L) && MarksOwned(L) && TodoOk(L)
    requires L.owner.w.stage.Finding? && Victim(L) >= 0
    requires var M := MarkDeleted(L); Shape(M) && WriterFrame(M)
    ensures var M := MarkDeleted(L); MarksOwned(M) && TodoOk(M)
  {
    var w, M, i := L.owner.w, MarkDeleted(L), Victim(L);
    OthersSameEntry(L.heap, w.ptr, M.heap[w.ptr].es, i);
    assert StampAt(M.heap, EntryCre(w.ptr, i)) == StampAt(L.heap, EntryCre(w.ptr, i));
    forall l {:trigger l in M.owner.w.todo} | l in M.owner.w.todo
      ensures ValidLoc(M.heap, l) && OwnStamp(M.owner.w, StampAt(M.heap, l))
      ensures (l.EntryCre? || l.EntryDel?) && l.b == w.ptr ==> l.i < Cnt(M, w.ptr)
    {
      if l != EntryDel(w.ptr, i) {
        assert l in w.todo && ValidLoc(L.heap, l);
        assert ValidLoc(M.heap, l) && StampAt(M.heap, l) == StampAt(L.heap, l);
      }
    }
  }

  lemma MarkFrame(L: List)
    requires Shape(L) && HistOk(L) && ReadersOk(L) && HeadOk(L) && InOp(L) && WriterFrame(L) && CountsOk(L)
    requires BlockOk(L)
    requires L.owner.w.stage.Finding? && Victim(L) >= 0
    ensures var M := MarkDeleted(L);
      Shape(M) && WriterFrame(M) && ReadersOk(M) && HistOk(M) && HeadOk(M)
  {
    VictimLives(L);
    EditShape(L, MarkDeleted(L), L.owner.w.ptr);
  }

  lemma MarkCounts(L: List)
    requires Shape(L) && InOp(L) && WriterFrame(L) && CountsOk(L) && PrivateOk(L) && HomeOk(L) && BlockOk(L)
    requires Synced(L)
    requires L.owner.w.stage.Finding? && Victim(L) >= 0
    requires var M := MarkDeleted(L); Shape(M) && WriterFrame(M)
    ensures var M := MarkDeleted(L); CountsOk(M) && PrivateOk(M) && HomeOk(M) && Synced(M)
  {
  }

  lemma MarkBlock(L: List)
    requires Shape(L) && InOp(L) && WriterFrame(L) && CountsOk(L) && BlockOk(L)
    requires L.owner.w.stage.Finding? && Victim(L) >= 0
    requires var M := MarkDeleted(L); Shape(M) && WriterFrame(M) && CountsOk(M)
    ensures BlockOk(MarkDeleted(L))
  {
  }

  lemma MarkView(L: List)
    requires Shape(L) && InOp(L) && WriterFrame(L) && CountsOk(L) && BlockOk(L) && OwnView(L)
    requires L.owner.w.stage.Finding?
    requires var M := MarkDeleted(L); Shape(M) && WriterFrame(M) && CountsOk(M)
    ensures OwnView(MarkDeleted(L))
  {
    hide ReadAt, Snapshot, ChainAvoids, ApplyOps, View, FindIdx, Locate;
    var w, M, es, i := L.owner.w, MarkDeleted(L), Current(L), Victim(L);
    if i >= 0 {
      assert Current(M) == es[i := es[i].(del := -w.id)];
    } else {
      assert Current(M) == es;
    }
    if !(w.stage.op.Put? && w.stage.op.force) {
      OwnEpochs(L);
      FindAgrees(es, w.stage.op.dst, w.read, LAST_EPOCH, w.id);
      if i >= 0 {
        ViewDelete(es, es[i].(del := -w.id), w.stage.op.dst, LAST_EPOCH, w.id);
      } else {
        ViewMissing(es, w.stage.op.dst, LAST_EPOCH, w.id);
      }
    }
  }

  /** For the writer's own block, its read epoch and the last epoch show the same. */
  lemma OwnEpochs(L: List)
    requires Shape(L) && Working(L) && 0 <= L.owner.w.ptr && WriterFrame(L) && CountsOk(L) && BlockOk(L)
    ensures forall j {:trigger Current(L)[j]} :: 0 <= j < |Current(L)| ==>
      (Seen(Current(L)[j], L.owner.w.read, L.owner.w.id) <==> Seen(Current(L)[j], LAST_EPOCH, L.owner.w.id))
  {
    var w, es := L.owner.w, Current(L);
    forall j {:trigger es[j]} | 0 <= j < |es|
      ensures Seen(es[j], w.read, w.id) <==> Seen(es[j], LAST_EPOCH, w.id)
    {
      assert es[j] == L.heap[w.ptr].es[j];
    }
  }

  lemma MarkNothing(L: List)
    requires Inv(L) && InOp(L) && L.owner.w.stage.Finding? && Victim(L) < 0
    ensures Inv(MarkDeleted(L))
  {
    hide ReadAt, Snapshot, ChainAvoids, OwnView, ReadersOk, MarksOwned;
    var M := MarkDeleted(L);
    SameHeapReaders(L, M);
    SameHeapMarks(L, M);
    MarkView(L);
  }

  /** Marking the old edge changes nothing for readers and removes it for the writer. */
  lemma MarkKeeps(L: List)
    requires Inv(L) && InOp(L) && L.owner.w.stage.Finding?
    ensures var M := MarkDeleted(L); Inv(M) && InOp(M) && M.owner.w.stage == Adding(L.owner.w.stage.op)
  {
    if Victim(L) >= 0 {
      MarkFrame(L);
      MarkMarks(L);
      MarkCounts(L);
      MarkBlock(L);
      MarkView(L);
    } else {
      MarkNothing(L);
    }
  }

  // ---------------------------------------------------------------------------
  // Writing the new entry, ending a deletion.

  lemma WriteMarks(L: List)
    requires Shape(L) && InOp(L) && WriterFrame(L) && CountsOk(L) && MarksOwned(L) && TodoOk(L)
    requires L.owner.w.stage.Adding? && L.owner.w.stage.op.Put?
    requires var W := WriteEntry(L); Shape(W) && WriterFrame(W)
    ensures var W := WriteEntry(L); MarksOwned(W) && TodoOk(W)
  {
    var w, W, k := L.owner.w, WriteEntry(L), Cnt(L, L.owner.w.ptr);
    OthersSameEntry(L.heap, w.ptr, W.heap[w.ptr].es, k);
    forall l {:trigger l in W.owner.w.todo} | l in W.owner.w.todo
      ensures ValidLoc(W.heap, l) && OwnStamp(W.owner.w, StampAt(W.heap, l))
      ensures (l.EntryCre? || l.EntryDel?) && l.b == w.ptr ==> l.i < Cnt(W, w.ptr)
    {
      if l != EntryCre(w.ptr, k) {
        assert l in w.todo && ValidLoc(L.heap, l);
        assert ValidLoc(W.heap, l) && StampAt(W.heap, l) == StampAt(L.heap, l);
      }
    }
  }

  lemma WriteFrame(L: List)
    requires Shape(L) && HistOk(L) && ReadersOk(L) && HeadOk(L) && InOp(L) && WriterFrame(L) && CountsOk(L) && HomeOk(L)
    requires L.owner.w.stage.Adding? && L.owner.w.stage.op.Put?
    ensures var W := WriteEntry(L);
      Shape(W) && WriterFrame(W) && ReadersOk(W) && HistOk(W) && HeadOk(W)
  {
    EditShape(L, WriteEntry(L), L.owner.w.ptr);
  }

  lemma WriteCounts(L: List)
    requires Shape(L) && InOp(L) && WriterFrame(L) && CountsOk(L) && PrivateOk(L) && HomeOk(L) && BlockOk(L)
    requires Synced(L)
    requires L.owner.w.stage.Adding? && L.owner.w.stage.op.Put?
    requires var W := WriteEntry(L); Shape(W) && WriterFrame(W)
    ensures var W := WriteEntry(L); CountsOk(W) && PrivateOk(W) && HomeOk(W) && Synced(W)
  {
  }

  lemma WriteBlock(L: List)
    requires Shape(L) && InOp(L) && WriterFrame(L) && CountsOk(L) && BlockOk(L)
    requires L.owner.w.stage.Adding? && L.owner.w.stage.op.Put?
    requires var W := WriteEntry(L); Shape(W) && WriterFrame(W) && CountsOk(W)
    ensures BlockOk(WriteEntry(L))
  {
  }

  lemma WriteView(L: List)
    requires Shape(L) && InOp(L) && WriterFrame(L) && CountsOk(L) && OwnView(L)
    requires L.owner.w.stage.Adding? && L.owner.w.stage.op.Put?
    requires var W := WriteEntry(L); Shape(W) && WriterFrame(W) && CountsOk(W)
    ensures OwnView(WriteEntry(L))
  {
    hide ReadAt, Snapshot, ChainAvoids, Locate, ApplyOps, WfHeap;
    var w, W := L.owner.w, WriteEntry(L);
    var e := Entry(w.stage.op.dst, w.stage.op.data, -w.id, TOMBSTONE);
    assert Current(W) == Current(L) + [e];
    ViewStep(Current(W), LAST_EPOCH, w.id);
    assert Current(W)[..|Current(L)|] == Current(L);
    ApplyOpsStep(Snapshot(L.base, L.hist, LAST_EPOCH), w.ops, w.stage.op);
  }

  /** The new entry is in front for the writer and invisible to everybody else. */
  lemma WriteKeeps(L: List)
    requires Inv(L) && InOp(L) && L.owner.w.stage.Adding? && L.owner.w.stage.op.Put?
    ensures var W := WriteEntry(L);
      Inv(W) && Working(W) && W.owner.w.ops == L.owner.w.ops + [L.owner.w.stage.op]
  {
    WriteFrame(L);
    WriteMarks(L);
    WriteCounts(L);
    WriteBlock(L);
    WriteView(L);
  }

  lemma EndDeleteFrame(L: List)
    requires Inv(L) && InOp(L) && L.owner.w.stage.Adding? && L.owner.w.stage.op.Del?
    ensures var E := EndDelete(L);
      && Shape(E) && ReadersOk(E) && MarksOwned(E) && WriterFrame(E) && CountsOk(E) && Working(E)
      && Current(E) == Current(L)
  {
    hide ReadAt, Snapshot, ChainAvoids, HeadOk, OwnView;
    SameHeapReaders(L, EndDelete(L));
    SameHeapMarks(L, EndDelete(L));
  }

  lemma EndDeleteView(L: List)
    requires Inv(L) && InOp(L) && L.owner.w.stage.Adding? && L.owner.w.stage.op.Del?
    requires var E := EndDelete(L); Shape(E) && WriterFrame(E) && CountsOk(E) && Working(E) && Current(E) == Current(L)
    ensures OwnView(EndDelete(L))
  {
    hide ReadAt, Snapshot, ChainAvoids, HeadOk, ReadersOk, MarksOwned;
    var w := L.owner.w;
    ApplyOpsStep(Snapshot(L.base, L.hist, LAST_EPOCH), w.ops, w.stage.op);
  }

  lemma EndDeleteKeeps(L: List)
    requires Inv(L) && InOp(L) && L.owner.w.stage.Adding? && L.owner.w.stage.op.Del?
    ensures var E := EndDelete(L);
      Inv(E) && Working(E) && E.owner.w.ops == L.owner.w.ops + [L.owner.w.stage.op]
  {
    hide ReadAt, Snapshot, ChainAvoids, OwnView, ReadersOk, MarksOwned;
    EndDeleteFrame(L);
    EndDeleteView(L);
  }

  // ---------------------------------------------------------------------------
  // Commit, one write at a time.

  lemma RegisterKeeps(L: List, c: int)
    requires Inv(L) && L.owner.By? && L.owner.w.mode.Active? && L.owner.w.stage.Ready?
    requires L.owner.w.read < c < TOMBSTONE
    ensures Inv(Register(L, c))
  {
    hide ReadAt, Snapshot, ChainAvoids, ReadersOk, MarksOwned, View, ApplyOps, Locate;
    var R := Register(L, c);
    SameHeapReaders(L, R);
    SameHeapMarks(L, R);
    if R.owner.w.ptr >= 0 {
      assert Current(R) == Current(L);
    }
  }

  lemma SizeFrame(L: List, b: int)
    requires Shape(L) && HistOk(L) && ReadersOk(L) && L.owner.By? && WriterFrame(L) && CountsOk(L) && HomeOk(L)
    requires Synced(L)
    requires L.owner.w.mode.Committing? && b in L.owner.w.tails
    ensures var T := PublishSize(L, b);
      Shape(T) && WriterFrame(T) && ReadersOk(T) && HistOk(T) && HeadOk(T) && Synced(T)
  {
    EditShape(L, PublishSize(L, b), b);
  }

  lemma SizeMarks(L: List, b: int)
    requires Shape(L) && L.owner.By? && WriterFrame(L) && CountsOk(L) && MarksOwned(L) && TodoOk(L)
    requires L.owner.w.mode.Committing? && b in L.owner.w.tails
    requires var T := PublishSize(L, b); Shape(T) && WriterFrame(T)
    ensures var T := PublishSize(L, b); MarksOwned(T) && TodoOk(T)
  {
    hide ReadAt, Snapshot, ChainAvoids, Locate;
    var w, T := L.owner.w, PublishSize(L, b);
    forall l {:trigger StampAt(T.heap, l)} | ValidLoc(T.heap, l)
      ensures ValidLoc(L.heap, l) && StampAt(L.heap, l) == StampAt(T.heap, l)
    {
    }
    forall l {:trigger l in T.owner.w.todo} | l in T.owner.w.todo
      ensures ValidLoc(T.heap, l) && OwnStamp(T.owner.w, StampAt(T.heap, l))
    {
      assert l in w.todo && ValidLoc(T.heap, l);
    }
  }

  lemma SizeCounts(L: List, b: int)
    requires Shape(L) && L.owner.By? && WriterFrame(L) && CountsOk(L) && L.owner.w.mode.Committing?
    requires b in L.owner.w.tails
    requires var T := PublishSize(L, b); Shape(T) && WriterFrame(T)
    ensures CountsOk(PublishSize(L, b))
  {
    hide ReadAt, Snapshot, ChainAvoids, Locate;
  }

  lemma SizeBlocks(L: List, b: int)
    requires Shape(L) && L.owner.By? && WriterFrame(L) && CountsOk(L) && PrivateOk(L) && HomeOk(L) && BlockOk(L)
    requires L.owner.w.mode.Committing? && b in L.owner.w.tails
    requires var T := PublishSize(L, b); Shape(T) && WriterFrame(T) && CountsOk(T)
    ensures var T := PublishSize(L, b); PrivateOk(T) && HomeOk(T) && BlockOk(T)
  {
    hide ReadAt, Snapshot, ChainAvoids, Locate;
  }

  /** Publishing an entry count shows readers only entries they cannot see yet. */
  lemma PublishSizeKeeps(L: List, b: int)
    requires Inv(L) && L.owner.By? && L.owner.w.mode.Committing? && b in L.owner.w.tails
    ensures Inv(PublishSize(L, b))
  {
    SizeFrame(L, b);
    SizeMarks(L, b);
    SizeCounts(L, b);
    SizeBlocks(L, b);
    if L.owner.w.ptr >= 0 {
      assert Current(PublishSize(L, b)) == Current(L);
    }
  }

  /** The block whose committed time is about to be marked: its count is out. */
  ghost predicate Sized(L: List, b: int)
    requires Shape(L)
  {
    && L.owner.By? && WriterFrame(L) && CountsOk(L) && L.owner.w.mode.Committing?
    && b in L.owner.w.tails && L.heap[b].n == L.owner.w.cnt[b]
  }

  lemma TailFrame(L: List, b: int)
    requires Shape(L) && HistOk(L) && ReadersOk(L) && HeadOk(L) && Sized(L, b) && Synced(L)
    ensures var T := MarkTail(L, b);
      Shape(T) && WriterFrame(T) && ReadersOk(T) && HistOk(T) && HeadOk(T) && Synced(T)
  {
    EditShape(L, MarkTail(L, b), b);
  }

  lemma TailMarks(L: List, b: int)
    requires Shape(L) && Sized(L, b) && MarksOwned(L) && TodoOk(L)
    requires var T := MarkTail(L, b); Shape(T) && WriterFrame(T)
    ensures var T := MarkTail(L, b); MarksOwned(T) && TodoOk(T)
  {
    hide ReadAt, Snapshot, ChainAvoids, Locate;
    var w, T := L.owner.w, MarkTail(L, b);
    forall l {:trigger StampAt(T.heap, l)} | ValidLoc(T.heap, l)
      ensures ValidLoc(L.heap, l) && (l != BlockCom(b) ==> StampAt(L.heap, l) == StampAt(T.heap, l))
      ensures StampAt(T.heap, l) < 0 ==> StampAt(T.heap, l) == -w.id && Covered(T.owner.w, l)
    {
      if l != BlockCom(b) {
        assert StampAt(L.heap, l) == StampAt(T.heap, l);
        assert Covered(w, l) ==> Covered(T.owner.w, l);
      }
    }
    forall l {:trigger l in T.owner.w.todo} | l in T.owner.w.todo
      ensures ValidLoc(T.heap, l) && OwnStamp(T.owner.w, StampAt(T.heap, l))
      ensures (l.EntryCre? || l.EntryDel?) && l.b == w.ptr ==> l.i < Cnt(T, w.ptr)
    {
      if l != BlockCom(b) {
        assert l in w.todo && ValidLoc(T.heap, l);
      }
    }
  }

  lemma TailCounts(L: List, b: int)
    requires Shape(L) && Sized(L, b)
    requires var T := MarkTail(L, b); Shape(T) && WriterFrame(T)
    ensures CountsOk(MarkTail(L, b))
  {
    hide ReadAt, Snapshot, ChainAvoids, Locate;
  }

  lemma TailBlocks(L: List, b: int)
    requires Shape(L) && Sized(L, b) && PrivateOk(L) && HomeOk(L) && BlockOk(L)
    requires var T := MarkTail(L, b); Shape(T) && WriterFrame(T) && CountsOk(T)
    ensures var T := MarkTail(L, b); PrivateOk(T) && HomeOk(T) && BlockOk(T)
  {
    hide ReadAt, Snapshot, ChainAvoids, Locate;
  }

  /** Nobody reads a committed time until the lock is gone. */
  lemma MarkTailKeeps(L: List, b: int)
    requires Inv(L) && L.owner.By? && L.owner.w.mode.Committing? && b in L.owner.w.tails
    requires L.heap[b].n == L.owner.w.cnt[b]
    ensures Inv(MarkTail(L, b))
  {
    TailFrame(L, b);
    TailMarks(L, b);
    TailCounts(L, b);
    TailBlocks(L, b);
    if L.owner.w.ptr >= 0 {
      assert Current(MarkTail(L, b)) == Current(L);
    }
  }

  /** Readers walk over the private blocks to the old head. */
  lemma {:induction false} PrivateWalk(L: List, p: int, r: int)
    requires Shape(L) && L.owner.By? && WriterFrame(L) && PrivateOk(L) && Publishing(L)
    requires L.owner.w.floor - 1 <= p < |L.heap| && 0 <= r < L.owner.w.mode.epoch
    ensures var q := if p < L.owner.w.floor then L.owner.w.home else p;
      && Locate(L.heap, q, r, RO_TRANSACTION) == Locate(L.heap, L.owner.w.home, r, RO_TRANSACTION)
      && ChainAvoids(L.heap, q, L.freed)
    decreases p
  {
    var w := L.owner.w;
    if p >= w.floor {
      assert L.heap[p].prev == (if p == w.floor then w.home else p - 1);
      assert !Reached(L.heap[p].cre, r, RO_TRANSACTION);
      PrivateWalk(L, p - 1, r);
    }
  }

  lemma HeadMoves(L: List)
    requires Shape(L) && L.owner.By? && WriterFrame(L)
    ensures CommitHead(L).head == L.owner.w.ptr
  {
    var w := L.owner.w;
    if !w.headDone && w.home >= 0 {
      assert Reached(L.heap[w.home].cre, w.read, w.id);
    }
  }

  lemma HeadFrame(L: List)
    requires Inv(L) && L.owner.By? && L.owner.w.mode.Committing? && L.owner.w.tails == {} && !L.owner.w.headDone
    ensures var H := CommitHead(L); Shape(H) && ReadersOk(H) && WriterFrame(H) && H.head == L.owner.w.ptr
  {
    var w, H := L.owner.w, CommitHead(L);
    HeadMoves(L);
    if w.ptr >= w.floor {
      PrivateWalk(L, w.ptr, 0);
      forall r {:trigger ReadAt(H.heap, H.head, r, RO_TRANSACTION)} | H.low <= r < Horizon(H)
        ensures ReadAt(H.heap, H.head, r, RO_TRANSACTION) == Snapshot(H.base, H.hist, r)
      {
        PrivateWalk(L, w.ptr, r);
        assert ReadAt(L.heap, L.head, r, RO_TRANSACTION) == Snapshot(L.base, L.hist, r);
      }
    } else {
      SameHeapReaders(L, H);
    }
  }

  /** Swinging the head to the new block is invisible below the commit epoch. */
  lemma HeadMarks(L: List)
    requires Inv(L) && L.owner.By? && L.owner.w.mode.Committing?
    ensures MarksOwned(CommitHead(L))
  {
    SameHeapMarks(L, CommitHead(L));
  }

  lemma CommitHeadKeeps(L: List)
    requires Inv(L) && L.owner.By? && L.owner.w.mode.Committing? && L.owner.w.tails == {} && !L.owner.w.headDone
    ensures Inv(CommitHead(L))
  {
    hide ReadAt, Snapshot, ChainAvoids, ReadersOk, MarksOwned, View, ApplyOps, Locate;
    HeadFrame(L);
    HeadMarks(L);
    if L.owner.w.ptr >= 0 {
      assert Current(CommitHead(L)) == Current(L);
    }
  }

  // Stamps, for commit and for abort.

  ghost predicate Finishing(L: List)
    requires Shape(L)
  {
    && L.owner.By? && !L.owner.w.mode.Active? && L.owner.w.todo != []
    && WriterFrame(L) && TodoOk(L)
    && L.owner.w.todo[0] in L.owner.w.todo
  }

  lemma StampFrame(L: List)
    requires Shape(L) && HistOk(L) && ReadersOk(L) && Finishing(L) && CountsOk(L) && Synced(L)
    ensures var F := FinishStamp(L); Shape(F) && WriterFrame(F) && ReadersOk(F) && HistOk(F)
  {
    hide ReadAt, Snapshot, ChainAvoids, ReadersOk;
    EditShape(L, FinishStamp(L), L.owner.w.todo[0].b);
  }

  lemma StampHead(L: List)
    requires Shape(L) && HeadOk(L) && Finishing(L) && CountsOk(L) && Synced(L) && Shape(FinishStamp(L))
    ensures var F := FinishStamp(L); HeadOk(F) && Synced(F)
  {
    hide ReadAt, Snapshot, ChainAvoids;
  }

  lemma StampMarks(L: List)
    requires Shape(L) && Finishing(L) && MarksOwned(L)
    requires var F := FinishStamp(L); Shape(F) && WriterFrame(F)
    ensures var F := FinishStamp(L); MarksOwned(F) && TodoOk(F)
  {
    var w, F := L.owner.w, FinishStamp(L);
    var d := w.todo[0];
    forall l {:trigger StampAt(F.heap, l)} | ValidLoc(F.heap, l)
      ensures ValidLoc(L.heap, l)
      ensures StampAt(F.heap, l) == if l == d then FinalStamp(w) else StampAt(L.heap, l)
      ensures StampAt(F.heap, l) < 0 ==> StampAt(F.heap, l) == -w.id && Covered(F.owner.w, l)
    {
      assert StampAt(F.heap, l) == if l == d then FinalStamp(w) else StampAt(L.heap, l);
      assert Covered(w, l) ==> l == d || Covered(F.owner.w, l);
    }
    forall l {:trigger l in F.owner.w.todo} | l in F.owner.w.todo
      ensures ValidLoc(F.heap, l) && OwnStamp(F.owner.w, StampAt(F.heap, l))
      ensures (l.EntryCre? || l.EntryDel?) && l.b == w.ptr ==> l.i < Cnt(F, w.ptr)
    {
      assert l in w.todo && ValidLoc(F.heap, l);
    }
  }

  lemma StampCounts(L: List)
    requires Shape(L) && Finishing(L) && CountsOk(L)
    requires var F := FinishStamp(L); Shape(F) && WriterFrame(F)
    ensures CountsOk(FinishStamp(L))
  {
  }

  lemma StampPrivate(L: List)
    requires Shape(L) && Finishing(L) && PrivateOk(L) && HomeOk(L)
    requires var F := FinishStamp(L); Shape(F) && WriterFrame(F)
    ensures var F := FinishStamp(L); PrivateOk(F) && HomeOk(F)
  {
  }

  lemma StampBlock(L: List)
    requires Shape(L) && Finishing(L) && CountsOk(L) && BlockOk(L)
    requires var F := FinishStamp(L); Shape(F) && WriterFrame(F) && CountsOk(F)
    ensures BlockOk(FinishStamp(L))
  {
  }

  lemma StampView(L: List)
    requires Shape(L) && Finishing(L) && CountsOk(L) && BlockOk(L) && OwnView(L)
    requires var F := FinishStamp(L); Shape(F) && WriterFrame(F) && CountsOk(F)
    ensures OwnView(FinishStamp(L))
  {
    var w, F := L.owner.w, FinishStamp(L);
    if w.ptr >= 0 && !w.mode.Aborting? {
      assert |Current(F)| == |Current(L)|;
      forall j | 0 <= j < |Current(L)|
        ensures EdgeOf(Current(L)[j]) == EdgeOf(Current(F)[j])
        ensures Seen(Current(L)[j], LAST_EPOCH, w.id) <==> Seen(Current(F)[j], LAST_EPOCH, w.id)
      {
        assert Current(L)[j] == L.heap[w.ptr].es[j] && Current(F)[j] == F.heap[w.ptr].es[j];
      }
      ViewAgrees(Current(L), Current(F), LAST_EPOCH, w.id, LAST_EPOCH, w.id);
    }
  }

  /** One stamp flips from the writer's mark to its epoch, or to "never". */
  lemma FinishStampKeeps(L: List)
    requires Inv(L) && L.owner.By? && !L.owner.w.mode.Active? && L.owner.w.todo != []
    ensures L.owner.w.todo[0] in L.owner.w.todo && Inv(FinishStamp(L))
  {
    assert L.owner.w.todo[0] in L.owner.w.todo;
    StampFrame(L);
    StampHead(L);
    StampMarks(L);
    StampCounts(L);
    StampPrivate(L);
    StampBlock(L);
    StampView(L);
  }

  // ---------------------------------------------------------------------------
  // The end of a commit.

  ghost predicate Committed(L: List) {
    && L.owner.By? && L.owner.w.mode.Committing?
    && L.owner.w.tails == {} && L.owner.w.headDone && L.owner.w.todo == []
  }

  lemma NoMarksLeft(L: List)
    requires Shape(L) && MarksOwned(L) && Committed(L)
    ensures forall l {:trigger StampAt(L.heap, l)} :: ValidLoc(L.heap, l) ==> 0 <= StampAt(L.heap, l)
  {
    forall l {:trigger StampAt(L.heap, l)} | ValidLoc(L.heap, l)
      ensures 0 <= StampAt(L.heap, l)
    {
      assert !Covered(L.owner.w, l);
    }
  }

  /** After the last write the published head is settled at the commit epoch. */
  ghost predicate CommitSettled(L: List)
    requires Shape(L) && L.owner.By? && L.owner.w.mode.Committing?
  {
    var w := L.owner.w;
    && 0 <= L.head && L.head == w.ptr && L.heap[L.head].n == Cnt(L, L.head)
    && L.heap[L.head].com == w.mode.epoch && 0 <= L.heap[L.head].cre <= w.mode.epoch
    && forall j {:trigger L.heap[L.head].es[j]} :: 0 <= j < L.heap[L.head].n ==>
         SettledEntry(L.heap[L.head].es[j], L.heap[L.head].cre, w.mode.epoch, Nobody)
  }

  lemma CommittedHead(L: List)
    requires Inv(L) && Committed(L) && L.owner.w.ops != []
    ensures CommitSettled(L)
  {
    NoMarksLeft(L);
    var w, p := L.owner.w, L.owner.w.ptr;
    assert w.ptr in w.cnt;
    assert 0 <= StampAt(L.heap, BlockCom(p)) && 0 <= StampAt(L.heap, BlockCre(p));
    forall j {:trigger L.heap[p].es[j]} | 0 <= j < L.heap[p].n
      ensures SettledEntry(L.heap[p].es[j], L.heap[p].cre, w.mode.epoch, Nobody)
    {
      assert 0 <= StampAt(L.heap, EntryCre(p, j)) && 0 <= StampAt(L.heap, EntryDel(p, j));
      assert WriterEntry(w, L.heap[p].es[j], L.heap[p].cre);
    }
  }

  /** From the commit epoch on, a reader's block is the transaction's, and shows its view. */
  lemma CommittedRead(L: List, r: int)
    requires Shape(L) && Committed(L) && WriterFrame(L) && CountsOk(L) && BlockOk(L) && CommitSettled(L)
    requires L.owner.w.mode.epoch <= r < TOMBSTONE
    ensures 0 <= L.owner.w.ptr
    ensures ReadAt(L.heap, L.head, r, RO_TRANSACTION) == View(Current(L), LAST_EPOCH, L.owner.w.id)
  {
    hide ChainAvoids, View, Snapshot, ApplyOps;
    var w := L.owner.w;
    var es := L.heap[w.ptr].es[..L.heap[w.ptr].n];
    assert Locate(L.heap, L.head, r, RO_TRANSACTION) == w.ptr;
    forall j | 0 <= j < |es|
      ensures Seen(es[j], r, RO_TRANSACTION) <==> Seen(es[j], LAST_EPOCH, w.id)
    {
      assert es[j] == L.heap[w.ptr].es[j];
    }
    ViewAgrees(es, es, r, RO_TRANSACTION, LAST_EPOCH, w.id);
    assert es == Current(L);
  }

  /** From the commit epoch on, readers see the transaction's operations applied. */
  lemma CommittedReaders(L: List, r: int)
    requires Inv(L) && Committed(L) && L.owner.w.ops != [] && L.low <= r < TOMBSTONE
    ensures ReadAt(L.heap, L.head, r, RO_TRANSACTION)
         == Snapshot(L.base, L.hist + [Item(L.owner.w.id, L.owner.w.read, L.owner.w.mode.epoch, L.owner.w.ops)], r)
  {
    hide ChainAvoids, ApplyOps, View, Snapshot, ReadAt, MarksOwned, TodoOk, HomeOk, PrivateOk, BlockOk, HeadOk;
    hide CommitSettled;
    var w := L.owner.w;
    SnapshotStep(L.base, L.hist, Item(w.id, w.read, w.mode.epoch, w.ops), r);
    if r >= w.mode.epoch {
      CommittedHead(L);
      CommittedRead(L, r);
      SnapshotStable(L.base, L.hist, r, LAST_EPOCH);
      assert View(Current(L), LAST_EPOCH, w.id) == Expected(L);
    } else {
      assert ReadAt(L.heap, L.head, r, RO_TRANSACTION) == Snapshot(L.base, L.hist, r);
    }
  }

  lemma CommittedMarks(L: List)
    requires Shape(L) && MarksOwned(L) && Committed(L)
    ensures Shape(FinishCommit(L)) && MarksOwned(FinishCommit(L))
  {
    hide ReadAt, Snapshot, ChainAvoids, MarksOwned;
    NoMarksLeft(L);
    SettledMarks(L.heap, FinishCommit(L));
  }

  lemma SettledMarks(heap: seq<Block>, F: List)
    requires F.heap == heap && forall l {:trigger StampAt(heap, l)} :: ValidLoc(heap, l) ==> 0 <= StampAt(heap, l)
    ensures MarksOwned(F)
  {
  }

  /** A transaction that has done nothing to the list. */
  lemma NothingCommitted(L: List)
    requires Shape(L) && HistOk(L) && HeadOk(L) && ReadersOk(L) && MarksOwned(L) && Committed(L) && WriterFrame(L)
    requires L.owner.w.ops == []
    ensures var F := FinishCommit(L); Shape(F) && HistOk(F) && HeadOk(F) && ReadersOk(F)
  {
    hide ReadAt, Snapshot, ChainAvoids;
    var F := FinishCommit(L);
    NoMarksLeft(L);
    SameHeapReaders(L, F);
    if L.head >= 0 {
      var blk := L.heap[L.head];
      forall j {:trigger blk.es[j]} | 0 <= j < blk.n
        ensures SettledEntry(blk.es[j], blk.cre, blk.com, Nobody)
      {
        assert 0 <= StampAt(L.heap, EntryDel(L.head, j));
      }
    }
  }

  lemma SettledHistory(L: List)
    requires Shape(L) && HistOk(L) && Committed(L) && WriterFrame(L) && CommitSettled(L) && L.owner.w.ops != []
    ensures HistOk(FinishCommit(L))
  {
    hide ReadAt, Snapshot, ChainAvoids, Locate, CommitSettled;
    var h, h' := L.hist, FinishCommit(L).hist;
    assert |h'| == |h| + 1 && h'[..|h|] == h;
    assert forall i {:trigger h'[i]} :: 0 <= i < |h| ==> h'[i] == h[i];
    assert 0 <= L.head by { CommitHeadExists(L); }
  }

  lemma CommitHeadExists(L: List)
    requires Shape(L) && Committed(L) && CommitSettled(L)
    ensures 0 <= L.head
  {
  }

  lemma SettledHead(L: List)
    requires Shape(L) && Committed(L) && WriterFrame(L) && CommitSettled(L) && L.owner.w.ops != []
    ensures Shape(FinishCommit(L)) && HeadOk(FinishCommit(L))
  {
    hide ReadAt, Snapshot, ChainAvoids, Locate;
    var h, h' := L.hist, FinishCommit(L).hist;
    assert forall i {:trigger h'[i]} :: 0 <= i < |h| ==> h'[i] == h[i];
  }

  lemma CommittedHistory(L: List)
    requires Inv(L) && Committed(L) && L.owner.w.ops != []
    ensures var F := FinishCommit(L); Shape(F) && HistOk(F) && HeadOk(F)
  {
    hide HistOk, HeadOk, ReadersOk, MarksOwned, ChainAvoids, PrivateOk, CountsOk, TodoOk, HomeOk, BlockOk, OwnView;
    hide Synced, CommitSettled, FinishCommit;
    CommittedHead(L);
    SettledHistory(L);
    SettledHead(L);
  }

  lemma CommittedReadersOk(L: List)
    requires Inv(L) && Committed(L) && L.owner.w.ops != [] && Shape(FinishCommit(L))
    ensures ReadersOk(FinishCommit(L))
  {
    hide ReadAt, Snapshot, Inv, ChainAvoids;
    var F := FinishCommit(L);
    forall r {:trigger ReadAt(F.heap, F.head, r, RO_TRANSACTION)} | F.low <= r < TOMBSTONE
      ensures ReadAt(F.heap, F.head, r, RO_TRANSACTION) == Snapshot(F.base, F.hist, r)
    {
      CommittedReaders(L, r);
    }
  }

  lemma FinishCommitKeeps(L: List)
    requires Inv(L) && Committed(L)
    ensures Inv(FinishCommit(L))
  {
    hide Shape, HistOk, HeadOk, ReadersOk, MarksOwned, PrivateOk, CountsOk, TodoOk, HomeOk, BlockOk, OwnView, Synced;
    CommittedMarks(L);
    if L.owner.w.ops == [] {
      NothingCommitted(L);
    } else {
      CommittedHistory(L);
      CommittedReadersOk(L);
    }
  }

  // ---------------------------------------------------------------------------
  // Abort.

  lemma StartAbortKeeps(L: List)
    requires Inv(L) && L.owner.By? && L.owner.w.mode.Active?
    ensures Inv(StartAbort(L))
  {
    hide ReadAt, Snapshot, ChainAvoids, ReadersOk, MarksOwned, View, ApplyOps;
    SameHeapReaders(L, StartAbort(L));
    SameHeapMarks(L, StartAbort(L));
  }

  /** After an abort, grown or not, the list is what it was for everybody. */
  lemma FinishAbortKeeps(L: List)
    requires Inv(L) && L.owner.By? && L.owner.w.mode.Aborting? && L.owner.w.todo == []
    ensures var F := FinishAbort(L); Inv(F) && F.hist == L.hist && F.head == L.head
  {
    var w, F := L.owner.w, FinishAbort(L);
    AvoidsAgrees(L.heap, F.heap, L.head, L.freed);
    ReadersKept(L, F);
    forall l {:trigger StampAt(F.heap, l)} | ValidLoc(F.heap, l)
      ensures 0 <= StampAt(F.heap, l)
    {
      assert ValidLoc(L.heap, l) && StampAt(L.heap, l) == StampAt(F.heap, l);
      assert !Covered(w, l) || l.b >= w.floor;
    }
    if L.head >= 0 {
      var blk := L.heap[L.head];
      forall j {:trigger blk.es[j]} | 0 <= j < blk.n
        ensures SettledEntry(blk.es[j], blk.cre, blk.com, Nobody)
      {
        assert 0 <= StampAt(F.heap, EntryDel(L.head, j));
      }
    }
  }

  // ---------------------------------------------------------------------------
  // Compaction.

  lemma {:induction false} CutWalk(L: List, p: int, e: int, r: int)
    requires Shape(L) && -1 <= p <= L.head && 0 <= e <= r && FirstOlder(L.heap, L.head, e) >= 0
    requires FirstOlder(L.heap, p, e) == FirstOlder(L.heap, L.head, e)
    requires ChainAvoids(L.heap, p, L.freed)
    requires WfHeap(Cut(L, e).heap)
    ensures var C := Cut(L, e);
      && Locate(C.heap, p, r, RO_TRANSACTION) == Locate(L.heap, p, r, RO_TRANSACTION)
      && ChainAvoids(C.heap, p, C.freed)
    decreases p
  {
    var q := FirstOlder(L.heap, L.head, e);
    if p >= 0 && p != q {
      assert CmpNoLocal(L.heap[p].cre, e) >= 0;
      CutWalk(L, L.heap[p].prev, e, r);
    }
  }

  lemma {:induction false} FirstOlderIsOlder(heap: seq<Block>, p: int, e: int)
    requires WfHeap(heap) && -1 <= p < |heap|
    ensures var q := FirstOlder(heap, p, e); 0 <= q ==> 0 <= heap[q].cre < e
    decreases p
  {
    if p >= 0 && CmpNoLocal(heap[p].cre, e) >= 0 {
      FirstOlderIsOlder(heap, heap[p].prev, e);
    }
  }

  /** Cutting the version chain is invisible to readers at or above the compaction epoch, and
      what it frees can no longer be reached. */
  lemma CutKeeps(L: List, e: int)
    requires Inv(L) && L.owner.Nobody? && 0 <= e
    ensures var C := Cut(L, e); Inv(C) && C.hist == L.hist && C.low <= (if L.low < e then e else L.low)
  {
    var C, q := Cut(L, e), FirstOlder(L.heap, L.head, e);
    if q >= 0 {
      CutWalk(L, L.head, e, e);
      forall r {:trigger ReadAt(C.heap, C.head, r, RO_TRANSACTION)} | C.low <= r < TOMBSTONE
        ensures ReadAt(C.heap, C.head, r, RO_TRANSACTION) == Snapshot(C.base, C.hist, r)
      {
        CutWalk(L, L.head, e, r);
        assert ReadAt(L.heap, L.head, r, RO_TRANSACTION) == Snapshot(L.base, L.hist, r);
      }
      forall l {:trigger StampAt(C.heap, l)} | ValidLoc(C.heap, l)
        ensures 0 <= StampAt(C.heap, l)
      {
        assert ValidLoc(L.heap, l) && StampAt(L.heap, l) == StampAt(C.heap, l);
      }
    }
  }

  lemma RewriteMarks(L: List, e: int)
    requires Shape(L) && MarksOwned(L) && L.owner.Nobody? && 0 <= e
    requires 0 <= L.head ==> 0 <= L.heap[L.head].com
    ensures MarksOwned(Rewrite(L, e))
  {
    var R := Rewrite(L, e);
    if R != L {
      var blk, es := L.heap[L.head], R.heap[|L.heap|].es;
      forall l {:trigger StampAt(R.heap, l)} | ValidLoc(R.heap, l)
        ensures 0 <= StampAt(R.heap, l)
      {
        if l.b < |L.heap| {
          assert ValidLoc(L.heap, l) && StampAt(L.heap, l) == StampAt(R.heap, l);
        } else if l.EntryCre? || l.EntryDel? {
          assert es[l.i] in blk.es[..blk.n];
          var j :| 0 <= j < blk.n && blk.es[j] == es[l.i];
          assert 0 <= StampAt(L.heap, EntryCre(L.head, j)) && 0 <= StampAt(L.heap, EntryDel(L.head, j));
        }
      }
    }
  }

  /** A rewrite happens only when some entry is dead, and then the block is at most as
      young as the compaction epoch: no deletion precedes the creation of its block. */
  lemma RewriteMeansOld(L: List, e: int)
    requires Shape(L) && HeadOk(L) && L.owner.Nobody? && 0 <= e < TOMBSTONE && 0 <= L.head
    requires Rewrite(L, e) != L
    ensures 0 <= L.heap[L.head].cre <= e
  {
    var blk := L.heap[L.head];
    CompactionDrops(blk.es[..blk.n], e);
    var j :| 0 <= j < |blk.es[..blk.n]| && CmpNoLocal(blk.es[..blk.n][j].del, e) <= 0;
    assert SettledEntry(blk.es[j], blk.cre, blk.com, L.owner);
  }

  lemma RewriteHead(L: List, e: int)
    requires Shape(L) && HeadOk(L) && L.owner.Nobody? && 0 <= e < TOMBSTONE
    requires Shape(Rewrite(L, e))
    ensures HeadOk(Rewrite(L, e))
  {
    var R := Rewrite(L, e);
    if R != L {
      var blk, copy := L.heap[L.head], R.heap[|L.heap|];
      forall j {:trigger copy.es[j]} | 0 <= j < copy.n
        ensures SettledEntry(copy.es[j], copy.cre, copy.com, Nobody)
      {
        assert copy.es[j] in blk.es[..blk.n];
      }
    }
  }

  lemma LivingDels(L: List, j: nat)
    requires Shape(L) && MarksOwned(L) && L.owner.Nobody? && 0 <= L.head && j < L.heap[L.head].n
    ensures 0 <= L.heap[L.head].es[j].del
  {
    assert 0 <= StampAt(L.heap, EntryDel(L.head, j));
  }

  /** A block that is reached is the one that is read. */
  lemma ReadsHere(heap: seq<Block>, p: int, r: int)
    requires WfHeap(heap) && 0 <= p < |heap| && Reached(heap[p].cre, r, RO_TRANSACTION)
    ensures ReadAt(heap, p, r, RO_TRANSACTION) == View(heap[p].es[..heap[p].n], r, RO_TRANSACTION)
  {
  }

  lemma RewriteReads(L: List, e: int, r: int)
    requires Inv(L) && L.owner.Nobody? && 0 <= e <= r < TOMBSTONE && L.low <= r
    requires Rewrite(L, e) != L && Shape(Rewrite(L, e))
    ensures var R := Rewrite(L, e);
      ReadAt(R.heap, R.head, r, RO_TRANSACTION) == Snapshot(L.base, L.hist, r)
  {
    hide View, CopyForCompaction, Snapshot, ChainAvoids, Locate, ReadAt, HeadOk, MarksOwned, HistOk;
    var R, blk := Rewrite(L, e), L.heap[L.head];
    var es := blk.es[..blk.n];
    RewriteMeansOld(L, e);
    ReadsHere(L.heap, L.head, r);
    ReadsHere(R.heap, R.head, r);
    forall j | 0 <= j < |es|
      ensures 0 <= es[j].del
    {
      LivingDels(L, j);
    }
    CompactionKeepsView(es, e, r, RO_TRANSACTION);
    assert R.heap[R.head].es[..R.heap[R.head].n] == CopyForCompaction(es, e);
    assert ReadAt(L.heap, L.head, r, RO_TRANSACTION) == Snapshot(L.base, L.hist, r);
  }

  /** Dropping the entries that died up to the compaction epoch is invisible from it on. */
  lemma RewriteKeeps(L: List, e: int)
    requires Inv(L) && L.owner.Nobody? && 0 <= e < TOMBSTONE
    ensures var R := Rewrite(L, e); Inv(R) && R.hist == L.hist && R.low <= (if L.low < e then e else L.low)
  {
    var R := Rewrite(L, e);
    if R != L {
      AvoidsAgrees(L.heap, R.heap, L.head, L.freed);
      RewriteMarks(L, e);
      RewriteHead(L, e);
      forall r {:trigger ReadAt(R.heap, R.head, r, RO_TRANSACTION)} | R.low <= r < TOMBSTONE
        ensures ReadAt(R.heap, R.head, r, RO_TRANSACTION) == Snapshot(R.base, R.hist, r)
      {
        RewriteReads(L, e, r);
      }
    }
  }

  // ---------------------------------------------------------------------------
  // Other transactions, and the bulk-loaded start.

  /** A transaction that does not hold the lock reads what a read-only one does. */
  lemma OtherTransactionReads(L: List, r: int, t: TxnId)
    requires Shape(L) && MarksOwned(L) && 0 < t && 0 <= r
    requires L.owner.By? ==> L.owner.w.id != t && 0 < L.owner.w.id < RO_TRANSACTION
    ensures ReadAt(L.heap, L.head, r, t) == ReadAt(L.heap, L.head, r, RO_TRANSACTION)
  {
    OtherTransactionLocates(L, L.head, r, t);
    var q := Locate(L.heap, L.head, r, t);
    if q >= 0 {
      var es := L.heap[q].es[..L.heap[q].n];
      forall j | 0 <= j < |es|
        ensures Seen(es[j], r, t) <==> Seen(es[j], r, RO_TRANSACTION)
      {
        var c, d := StampAt(L.heap, EntryCre(q, j)), StampAt(L.heap, EntryDel(q, j));
        assert c == es[j].cre && d == es[j].del;
      }
      ViewAgrees(es, es, r, t, r, RO_TRANSACTION);
    }
  }

  lemma {:induction false} OtherTransactionLocates(L: List, p: int, r: int, t: TxnId)
    requires Shape(L) && MarksOwned(L) && 0 < t && 0 <= r && -1 <= p < |L.heap|
    requires L.owner.By? ==> L.owner.w.id != t && 0 < L.owner.w.id < RO_TRANSACTION
    ensures Locate(L.heap, p, r, t) == Locate(L.heap, p, r, RO_TRANSACTION)
    decreases p
  {
    if p >= 0 {
      var c := StampAt(L.heap, BlockCre(p));
      assert c == L.heap[p].cre;
      OtherTransactionLocates(L, L.heap[p].prev, r, t);
    }
  }

  /** A bulk-loaded list: every stamp is the start epoch or "never". */
  ghost predicate BulkLoaded(L: List, e0: int) {
    && WfHeap(L.heap) && -1 <= L.head < |L.heap| && 0 <= e0 < TOMBSTONE
    && L.freed == {} && L.hist == [] && L.low == e0 && L.owner == Nobody
    && (forall i {:trigger L.heap[i]} :: 0 <= i < |L.heap| ==>
          && L.heap[i].cre == e0 && L.heap[i].com == e0
          && forall j {:trigger L.heap[i].es[j]} :: 0 <= j < |L.heap[i].es| ==>
               L.heap[i].es[j].cre == e0 && (L.heap[i].es[j].del == e0 || L.heap[i].es[j].del == TOMBSTONE))
    && L.base == if L.head < 0 then [] else View(L.heap[L.head].es[..L.heap[L.head].n], e0, RO_TRANSACTION)
  }

  lemma {:induction false} AvoidsNothing(heap: seq<Block>, p: int)
    requires WfHeap(heap) && -1 <= p < |heap|
    ensures ChainAvoids(heap, p, {})
    decreases p
  {
    if p >= 0 { AvoidsNothing(heap, heap[p].prev); }
  }

  lemma BulkLoadedInv(L: List, e0: int)
    requires BulkLoaded(L, e0)
    ensures Inv(L)
  {
    AvoidsNothing(L.heap, L.head);
    forall r {:trigger ReadAt(L.heap, L.head, r, RO_TRANSACTION)} | L.low <= r < TOMBSTONE
      ensures ReadAt(L.heap, L.head, r, RO_TRANSACTION) == Snapshot(L.base, L.hist, r)
    {
      if L.head >= 0 {
        assert Reached(L.heap[L.head].cre, r, RO_TRANSACTION);
        var es := L.heap[L.head].es[..L.heap[L.head].n];
        forall j | 0 <= j < |es|
          ensures Seen(es[j], r, RO_TRANSACTION) <==> Seen(es[j], e0, RO_TRANSACTION)
        {
          assert es[j] == L.heap[L.head].es[j];
        }
        ViewAgrees(es, es, r, RO_TRANSACTION, e0, RO_TRANSACTION);
      }
    }
  }
}
