/** Walking over an edge block in either direction, and copying one into another. */
module EdgeIteration {
  import opened Timestamps
  import opened BlockSizing
  import opened EntryCodec
  import opened EdgeLog
  import opened BlockLayout
  import opened EdgeBlocks
  import opened Sequences

  const VERTEX_TOMBSTONE := 0xFFFF_FFFF_FFFF_FFFF

  /** The edges a reader sees, oldest first. */
  function OldestFirst(es: seq<Entry>, r: int, t: TxnId): seq<Edge> {
    if es == [] then [] else (if Seen(es[0], r, t) then [EdgeOf(es[0])] else []) + OldestFirst(es[1..], r, t)
  }

  lemma {:induction false} ViewFromOldest(es: seq<Entry>, r: int, t: TxnId)
    requires es != []
    ensures View(es, r, t) == View(es[1..], r, t) + if Seen(es[0], r, t) then [EdgeOf(es[0])] else []
  {
    var k := |es| - 1;
    if k > 0 {
      ViewFromOldest(es[..k], r, t);
      assert es[..k][1..] == es[1..][..k - 1];
      ViewStep(es, r, t);
      ViewStep(es[1..], r, t);
    } else {
      assert es[1..] == [] && es[..k] == [];
    }
  }

  /** The two directions see the same edges in opposite order. */
  lemma {:induction false} OldestFirstIsReversed(es: seq<Entry>, r: int, t: TxnId)
    ensures OldestFirst(es, r, t) == Reversed(View(es, r, t))
  {
    if es != [] {
      OldestFirstIsReversed(es[1..], r, t);
      ViewFromOldest(es, r, t);
      ReversedConcat(View(es[1..], r, t), if Seen(es[0], r, t) then [EdgeOf(es[0])] else []);
    }
  }

  lemma {:induction false} TotalAgrees(es: seq<Entry>, es': seq<Entry>)
    requires |es| == |es'| && forall j :: 0 <= j < |es| ==> es[j].data == es'[j].data
    ensures Total(es) == Total(es')
  {
    if es != [] {
      TotalAgrees(es[..|es| - 1], es'[..|es| - 1]);
    }
  }

  lemma SameWalk(log: seq<Entry>, now: seq<Entry>, pos: nat, r: int, t: TxnId)
    requires |now| == |log| && pos <= |log|
    requires forall j :: 0 <= j < |log| ==>
      EdgeOf(now[j]) == EdgeOf(log[j]) && (Seen(now[j], r, t) <==> Seen(log[j], r, t))
    ensures Total(now[..pos]) == Total(log[..pos])
    ensures OldestFirst(now[pos..], r, t) == OldestFirst(log[pos..], r, t)
    ensures View(now[..pos], r, t) == View(log[..pos], r, t)
  {
    hide Total, Seen, View, OldestFirst;
    TotalAgrees(log[..pos], now[..pos]);
    OldestFirstIsReversed(log[pos..], r, t);
    OldestFirstIsReversed(now[pos..], r, t);
    ViewAgrees(log[pos..], now[pos..], r, t, r, t);
    ViewAgrees(log[..pos], now[..pos], r, t, r, t);
  }

  predicate Visible(h: Header, r: int, t: TxnId) {
    Cmp(h.cre, r, t) <= 0 && Cmp(h.del, r, t) > 0
  }

  lemma SeenVisible(e: Entry, h: Header, r: int, t: TxnId)
    requires h == HeaderOf(e)
    ensures Seen(e, r, t) <==> Visible(h, r, t)
  {
  }

  class EdgeIterator {
    const block: EdgeBlock
    const numEntries: nat
    const r: int
    const local: TxnId
    const reverse: bool
    var entriesCursor: int
    var dataCursor: int

    /** The log being read, and how many of its entries lie before the cursors. */
    ghost var log: seq<Entry>
    ghost var pos: nat

    /** Where the cursors stand. */
    ghost predicate Aligned()
      reads this
    {
      && numEntries == |log| && pos <= |log|
      && entriesCursor == block.End() - ENTRY * pos && dataCursor == HEADER + Total(log[..pos])
    }

    ghost predicate Placed()
      reads this, block, block.mem, block.filter, if block.filter == null then {} else {block.filter.directory}
    {
      block.Valid() && block.Holds(log) && Aligned()
    }

    /** Between calls the cursors stand at a visible entry or at the end. */
    ghost predicate Ok()
      reads this, block, block.mem, block.filter, if block.filter == null then {} else {block.filter.directory}
    {
      Placed() && AtSeen()
    }

    ghost predicate AtSeen()
      reads this
      requires pos <= |log|
    {
      if reverse then pos < |log| ==> Seen(log[pos], r, local) else pos > 0 ==> Seen(log[pos - 1], r, local)
    }

    /** Between two calls other transactions have written to the block: stamps have moved, but
        no edge and nothing that this reader makes of the stamps has changed.  The iterator
        goes on as if nothing had happened. */
    ghost method Resume(now: seq<Entry>)
      requires Aligned() && AtSeen() && block.Valid() && block.Holds(now) && |now| == |log|
      requires forall j :: 0 <= j < |log| ==>
        EdgeOf(now[j]) == EdgeOf(log[j]) && (Seen(now[j], r, local) <==> Seen(log[j], r, local))
      modifies this`log
      ensures log == now && Ok() && Rest() == old(Rest())
    {
      hide Seen, Layout, Total, View, OldestFirst, EdgeOf;
      SameWalk(log, now, pos, r, local);
      log := now;
    }

    /** What is still to come. */
    ghost function Rest(): seq<Edge>
      reads this
      requires pos <= |log|
    {
      if reverse then OldestFirst(log[pos..], r, local) else View(log[..pos], r, local)
    }

    constructor (block: EdgeBlock, numEntries: nat, dataLength: nat, r: int, local: TxnId, reverse: bool,
                 ghost log: seq<Entry>)
      requires block.Valid() && block.Holds(log) && numEntries == |log| && dataLength == Total(log)
      ensures this.block == block && this.log == log && this.r == r && this.local == local && this.reverse == reverse
      ensures Ok() && Rest() == if reverse then OldestFirst(log, r, local) else View(log, r, local)
    {
      this.block, this.numEntries, this.log := block, numEntries, log;
      this.r, this.local, this.reverse := r, local, reverse;
      entriesCursor := if reverse then block.End() else block.End() - ENTRY * numEntries;
      dataCursor := if reverse then HEADER else HEADER + dataLength;
      pos := if reverse then 0 else |log|;
      new;
      assert log[..|log|] == log && log[0..] == log && log[..0] == [];
      SkipUnseen();
    }

    predicate IsValid()
      reads this
    {
      if reverse then entriesCursor != block.End() - ENTRY * numEntries else entriesCursor != block.End()
    }

    lemma ValidMeans()
      requires Ok()
      ensures IsValid() <==> Rest() != []
      ensures IsValid() <==> if reverse then pos < |log| else pos > 0
    {
      if !reverse && pos > 0 {
        ViewStep(log[..pos], r, local);
      }
    }

    /** The slot under the forward cursor, or behind the reverse one.  Next to the last entry
        there is none: what is found there is arbitrary. */
    method Peek() returns (h: Header)
      requires Placed()
      ensures reverse && pos < |log| ==> h == HeaderOf(log[pos])
      ensures !reverse && pos > 0 ==> h == HeaderOf(log[pos - 1])
    {
      var slot := if reverse then entriesCursor - ENTRY else entriesCursor;
      if IsValid() {
        h := block.HeaderAt(slot, log, if reverse then pos else pos - 1);
      } else {
        h := *;
      }
    }

    /** Pass the entry at the cursors. */
    method Advance()
      requires Placed() && IsValid()
      modifies this`entriesCursor, this`dataCursor, this`pos
      ensures Placed() && pos == if reverse then old(pos) + 1 else old(pos) - 1
    {
      hide Layout, Total, View, OldestFirst, Seen, EdgeBlock.Valid, EdgeBlock.Holds;
      var h := Peek();
      if reverse {
        TotalStep(log, pos);
        dataCursor := dataCursor + h.length;
        entriesCursor := entriesCursor - ENTRY;
        pos := pos + 1;
      } else {
        TotalStep(log, pos - 1);
        dataCursor := dataCursor - h.length;
        entriesCursor := entriesCursor + ENTRY;
        pos := pos - 1;
      }
    }

    ghost function Left(): nat
      reads this
    {
      if reverse then if pos <= |log| then |log| - pos else 0 else pos
    }

    /** The loop of the constructor: on to the first visible entry. */
    method SkipUnseen()
      requires Placed()
      modifies this`entriesCursor, this`dataCursor, this`pos
      ensures Ok() && Rest() == old(Rest())
    {
      hide View, OldestFirst, Layout, Total, EdgeBlock.Valid, EdgeBlock.Holds;
      while IsValid()
        invariant Placed() && Rest() == old(Rest())
        decreases Left()
      {
        var h := Peek();
        if Visible(h, r, local) {
          break;
        }
        PassUnseen(h);
        Advance();
      }
    }

    lemma PassUnseen(h: Header)
      requires Placed() && IsValid()
      requires (!Visible(h, r, local) || !Seen(log[if reverse then pos else pos - 1], r, local))
      requires h == HeaderOf(log[if reverse then pos else pos - 1])
      ensures reverse ==> OldestFirst(log[pos..], r, local) == OldestFirst(log[pos + 1..], r, local)
      ensures !reverse ==> View(log[..pos], r, local) == View(log[..pos - 1], r, local)
    {
      SeenVisible(log[if reverse then pos else pos - 1], h, r, local);
      if reverse {
        assert log[pos..][1..] == log[pos + 1..];
      } else {
        assert log[..pos][..pos - 1] == log[..pos - 1];
      }
    }

    lemma PassSeen()
      requires Placed() && IsValid() && Seen(log[if reverse then pos else pos - 1], r, local)
      ensures reverse ==> OldestFirst(log[pos..], r, local)[1..] == OldestFirst(log[pos + 1..], r, local)
      ensures !reverse ==> View(log[..pos], r, local)[1..] == View(log[..pos - 1], r, local)
    {
      if reverse {
        assert log[pos..][1..] == log[pos + 1..];
      } else {
        assert log[..pos][..pos - 1] == log[..pos - 1];
      }
    }

    /** On to the next visible entry.  The test after each step also looks at the place next
        to the last entry, to no effect. */
    method Next()
      requires Ok()
      modifies this`entriesCursor, this`dataCursor, this`pos
      ensures Ok() && Rest() == if old(Rest()) == [] then [] else old(Rest())[1..]
    {
      hide View, OldestFirst, Layout, Total, Seen, Visible, HeaderOf;
      ghost var first := true;
      ValidMeans();
      while IsValid()
        invariant Placed()
        invariant if first then Ok() && pos == old(pos) && Rest() == old(Rest())
                  else Rest() == (if old(Rest()) == [] then [] else old(Rest())[1..])
                       && (IsValid() ==> !Seen(log[if reverse then pos else pos - 1], r, local))
        invariant first && !IsValid() ==> old(Rest()) == []
        decreases Left()
      {
        if first {
          ValidMeans();
          PassSeen();
        } else {
          PassUnseen(HeaderOf(log[if reverse then pos else pos - 1]));
        }
        Advance();
        first := false;
        var h := Peek();
        if IsValid() {
          SeenVisible(log[if reverse then pos else pos - 1], h, r, local);
        }
        if Visible(h, r, local) {
          break;
        }
      }
    }

    method DstId() returns (dst: int)
      requires Ok()
      ensures dst == if Rest() == [] then VERTEX_TOMBSTONE else Rest()[0].dst
    {
      ValidMeans();
      if !IsValid() {
        return VERTEX_TOMBSTONE;
      }
      var h := Peek();
      dst := h.dst;
      RestHead();
    }

    method EdgeData() returns (data: seq<Byte>)
      requires Ok()
      ensures data == if Rest() == [] then [] else Rest()[0].data
    {
      hide Layout, View, OldestFirst, Seen, EntryAt, Total;
      ValidMeans();
      if !IsValid() {
        return [];
      }
      var h := Peek();
      RestHead();
      var from := if reverse then dataCursor else dataCursor - h.length;
      if !reverse {
        TotalStep(log, pos - 1);
      }
      data := block.PayloadSlice(from, h.length, log, if reverse then pos else pos - 1);
    }

    lemma RestHead()
      requires Ok() && IsValid()
      ensures Rest() != [] && Rest()[0] == EdgeOf(log[if reverse then pos else pos - 1])
    {
      hide Layout, Total;
      ValidMeans();
      if !reverse {
        ViewStep(log[..pos], r, local);
      }
    }
  }

  /** Reading a block to the end: exactly the visible edges with their payloads, newest first
      or, in reverse, oldest first. */
  method ReadAll(block: EdgeBlock, num: nat, length: nat, r: int, local: TxnId, reverse: bool, ghost log: seq<Entry>)
    returns (edges: seq<Edge>)
    requires block.Valid() && block.Holds(log) && num == |log| && length == Total(log)
    ensures edges == if reverse then Reversed(View(log, r, local)) else View(log, r, local)
  {
    hide View, OldestFirst, Layout, Total, Seen, EdgeIterator.Rest, EdgeIterator.IsValid, EdgeIterator.AtSeen,
         EdgeBlock.Valid, EdgeBlock.Holds;
    edges := [];
    var it := new EdgeIterator(block, num, length, r, local, reverse, log);
    ghost var all := it.Rest();
    it.ValidMeans();
    while it.IsValid()
      invariant fresh(it) && it.block == block && it.Ok() && edges + it.Rest() == all
      invariant it.IsValid() <==> it.Rest() != []
      decreases |it.Rest()|
    {
      var dst := it.DstId();
      var data := it.EdgeData();
      edges := edges + [Edge(dst, data)];
      it.Next();
      it.ValidMeans();
    }
    OldestFirstIsReversed(log, r, local);
  }

  /** The entries that compaction at epoch `e` keeps, and what they need. */
  method CountLive(block: EdgeBlock, num: nat, e: int, ghost log: seq<Entry>) returns (newNum: nat, newLength: nat)
    requires block.Valid() && block.Holds(log) && num == |log|
    ensures newNum == |CopyForCompaction(log, e)| && newLength == Total(CopyForCompaction(log, e))
  {
    hide Layout, Total, CopyForCompaction, CmpNoLocal;
    newNum, newLength := 0, 0;
    EmptyTotal();
    var entries, i := block.End(), 0;
    assert log[..0] == [];
    while i < num
      invariant i <= num && entries == block.End() - ENTRY * i
      invariant newNum == |CopyForCompaction(log[..i], e)| && newLength == Total(CopyForCompaction(log[..i], e))
    {
      entries := entries - ENTRY;
      var h := block.HeaderAt(entries, log, i);
      CompactionStep(log, e, i);
      if CmpNoLocal(h.del, e) > 0 {
        newNum := newNum + 1;
        newLength := newLength + h.length;
      }
      i := i + 1;
    }
    assert log[..num] == log;
  }

  lemma EmptyTotal()
    ensures Total([]) == 0
  {
  }

  lemma CompactionStep(log: seq<Entry>, e: int, i: nat)
    requires i < |log|
    ensures var c := CopyForCompaction(log[..i], e);
      CopyForCompaction(log[..i + 1], e) == if CmpNoLocal(log[i].del, e) > 0 then c + [log[i]] else c
    ensures var c := CopyForCompaction(log[..i], e); Total(c + [log[i]]) == Total(c) + |log[i].data|
  {
    var c := CopyForCompaction(log[..i], e);
    assert log[..i + 1][..i] == log[..i];
    assert c + [] == c;
    LongerLog(c, log[i], 0);
  }

  lemma GrowthStep(log: seq<Entry>, r: int, local: TxnId, i: nat)
    requires i < |log|
    ensures var c := CopyForGrowth(log[..i], r, local);
      CopyForGrowth(log[..i + 1], r, local) == if Reached(log[i].del, r, local) then c else c + [log[i]]
  {
    assert log[..i + 1][..i] == log[..i];
    var c := CopyForGrowth(log[..i], r, local);
    assert c + [] == c;
  }

  /** A copy is never larger than what it was taken from. */
  lemma {:induction false} GrowthSizes(log: seq<Entry>, r: int, local: TxnId, i: nat)
    requires i <= |log|
    ensures |CopyForGrowth(log[..i], r, local)| <= i
    ensures Total(CopyForGrowth(log[..i], r, local)) <= Total(log[..i])
  {
    hide CopyForGrowth, Total;
    if i > 0 {
      GrowthSizes(log, r, local, i - 1);
      GrowthStep(log, r, local, i - 1);
      TotalStep(log, i - 1);
      LongerLog(CopyForGrowth(log[..i - 1], r, local), log[i - 1], 0);
    } else {
      assert log[..0] == [];
      EmptyGrowth(r, local);
    }
  }

  lemma {:induction false} CompactionSizes(log: seq<Entry>, e: int, i: nat, j: nat)
    requires i <= j <= |log|
    ensures |CopyForCompaction(log[..i], e)| <= |CopyForCompaction(log[..j], e)|
    ensures Total(CopyForCompaction(log[..i], e)) <= Total(CopyForCompaction(log[..j], e))
    decreases j
  {
    hide CopyForCompaction, Total;
    if i < j {
      CompactionSizes(log, e, i, j - 1);
      CompactionStep(log, e, j - 1);
    }
  }

  lemma GrowthRoom(log: seq<Entry>, r: int, local: TxnId, added: nat, i: nat)
    requires i < |log|
    ensures var c := CopyForGrowth(log[..i], r, local);
      HasSpace(BlockOrder(HEADER + (1 + |log|) * ENTRY + Total(log) + added), |c|, Total(c), |log[i].data|)
  {
    hide HasSpace, BlockOrder, CopyForGrowth, Total;
    var c := CopyForGrowth(log[..i], r, local);
    GrowthSizes(log, r, local, i);
    TotalMonotone(log, i, |log|);
    assert log[..|log|] == log;
    GrowthFits(|log|, Total(log), added, |c|, Total(c), |log[i].data|);
  }

  lemma RoomLeft(log: seq<Entry>, r: int, local: TxnId, added: nat)
    ensures var c := CopyForGrowth(log, r, local);
      HasSpace(BlockOrder(HEADER + (1 + |log|) * ENTRY + Total(log) + added), |c|, Total(c), added)
  {
    hide HasSpace, BlockOrder, CopyForGrowth, Total;
    var c := CopyForGrowth(log, r, local);
    assert log[..|log|] == log;
    GrowthSizes(log, r, local, |log|);
    GrowthFits(|log|, Total(log), added, |c|, Total(c), added);
  }

  lemma CompactionRoom(log: seq<Entry>, e: int, i: nat)
    requires i < |log| && CmpNoLocal(log[i].del, e) > 0
    ensures var c, all := CopyForCompaction(log[..i], e), CopyForCompaction(log, e);
      HasSpace(BlockOrder(HEADER + |all| * ENTRY + Total(all)), |c|, Total(c), |log[i].data|)
  {
    hide HasSpace, BlockOrder, CopyForCompaction, Total, CmpNoLocal;
    var c, all := CopyForCompaction(log[..i], e), CopyForCompaction(log, e);
    assert log[..|log|] == log;
    CompactionSizes(log, e, i + 1, |log|);
    CompactionStep(log, e, i);
    CompactionFits(|all|, Total(all), |c|, Total(c), |log[i].data|);
  }

  ghost predicate Apart(block: EdgeBlock, target: EdgeBlock) {
    && target != block && target.mem != block.mem
    && (target.filter != null ==> target.filter != block.filter)
    && (target.filter != null && block.filter != null ==> target.filter.directory != block.filter.directory)
  }

  /** Append one entry of `block` to `target`, payload included. */
  method CopyEntry(block: EdgeBlock, target: EdgeBlock, data: int, h: Header, ghost log: seq<Entry>, ghost i: nat,
                   ghost c: seq<Entry>)
    requires block.Valid() && block.Holds(log) && i < |log| && h == HeaderOf(log[i]) && data == PayloadAt(log, i)
    requires target.Valid() && target.Holds(c) && target.numEntries == |c| && target.dataLength == Total(c)
    requires Apart(block, target) && HasSpace(target.order, |c|, Total(c), |log[i].data|)
    modifies target`numEntries, target`dataLength, target.mem, target.filter,
             if target.filter == null then {} else {target.filter.directory}
    ensures block.Valid() && block.Holds(log)
    ensures target.Valid() && target.Holds(c + [log[i]])
    ensures target.numEntries == |c + [log[i]]| && target.dataLength == Total(c + [log[i]])
  {
    hide Layout, Total, HasSpace;
    StorableAt(block.mem[..], block.End(), log, i);
    var payload := block.PayloadSlice(data, h.length, log, i);
    ClippedWhole(payload);
    var ok := target.Append(h.dst, h.cre, h.del, payload, c);
    assert Entry(h.dst, payload, h.cre, h.del) == log[i];
  }

  /** Copy one entry if its deletion is not visible at the epoch. */
  method CopyKept(block: EdgeBlock, target: EdgeBlock, data: int, h: Header, r: int, local: TxnId, added: nat,
                  ghost log: seq<Entry>, ghost i: nat)
    requires block.Valid() && block.Holds(log) && i < |log| && h == HeaderOf(log[i]) && data == PayloadAt(log, i)
    requires target.Valid() && target.Holds(CopyForGrowth(log[..i], r, local)) && Apart(block, target)
    requires target.numEntries == |CopyForGrowth(log[..i], r, local)|
    requires target.dataLength == Total(CopyForGrowth(log[..i], r, local))
    requires target.order == BlockOrder(HEADER + (1 + |log|) * ENTRY + Total(log) + added)
    modifies target`numEntries, target`dataLength, target.mem, target.filter,
             if target.filter == null then {} else {target.filter.directory}
    ensures block.Valid() && block.Holds(log)
    ensures target.Valid() && target.Holds(CopyForGrowth(log[..i + 1], r, local))
    ensures target.numEntries == |CopyForGrowth(log[..i + 1], r, local)|
    ensures target.dataLength == Total(CopyForGrowth(log[..i + 1], r, local))
  {
    hide Layout, Total, HasSpace, CopyForGrowth, BlockOrder, Encode;
    ghost var c := CopyForGrowth(log[..i], r, local);
    GrowthStep(log, r, local, i);
    if Cmp(h.del, r, local) > 0 {
      GrowthRoom(log, r, local, added, i);
      CopyEntry(block, target, data, h, log, i, c);
    }
  }

  /** put_edge's copy into a block sized for it: every append succeeds, and there is space
      for the new entry afterwards. */
  method Grow(block: EdgeBlock, target: EdgeBlock, num: nat, length: nat, r: int, local: TxnId, added: nat,
              ghost log: seq<Entry>)
    requires block.Valid() && block.Holds(log) && num == |log| && length == Total(log)
    requires target.Valid() && target.Holds([]) && target.numEntries == 0 && target.dataLength == 0
    requires target.order == BlockOrder(HEADER + (1 + num) * ENTRY + length + added)
    requires Apart(block, target)
    modifies target`numEntries, target`dataLength, target.mem, target.filter,
             if target.filter == null then {} else {target.filter.directory}
    ensures target.Valid() && target.Holds(CopyForGrowth(log, r, local))
    ensures target.numEntries == |CopyForGrowth(log, r, local)|
    ensures target.dataLength == Total(CopyForGrowth(log, r, local))
    ensures HasSpace(target.order, target.numEntries, target.dataLength, added)
  {
    hide Layout, Total, HasSpace, CopyForGrowth, BlockOrder, Cmp, Encode;
    var entries, data, i := block.End(), HEADER, 0;
    EmptyTotal();
    assert log[..0] == [] && log[..num] == log;
    EmptyGrowth(r, local);
    while i < num
      invariant i <= num && entries == block.End() - ENTRY * i && data == HEADER + Total(log[..i])
      invariant block.Valid() && block.Holds(log) && target.Valid() && target.Holds(CopyForGrowth(log[..i], r, local))
      invariant target.numEntries == |CopyForGrowth(log[..i], r, local)|
      invariant target.dataLength == Total(CopyForGrowth(log[..i], r, local))
    {
      entries := entries - ENTRY;
      var h := block.HeaderAt(entries, log, i);
      TotalStep(log, i);
      CopyKept(block, target, data, h, r, local, added, log, i);
      data := data + h.length;
      i := i + 1;
    }
    RoomLeft(log, r, local, added);
  }

  lemma EmptyGrowth(r: int, local: TxnId)
    ensures CopyForGrowth([], r, local) == []
  {
  }

  lemma StorableAt(m: seq<Byte>, end: int, log: seq<Entry>, k: nat)
    requires Layout(m, end, log) && k < |log|
    ensures Storable(log[k])
  {
    assert EntryAt(m, end, log, k);
  }

  /** Copy one entry if it is alive after the epoch. */
  method CopyLive(block: EdgeBlock, target: EdgeBlock, data: int, h: Header, e: int,
                  ghost log: seq<Entry>, ghost i: nat)
    requires block.Valid() && block.Holds(log) && i < |log| && h == HeaderOf(log[i]) && data == PayloadAt(log, i)
    requires target.Valid() && target.Holds(CopyForCompaction(log[..i], e)) && Apart(block, target)
    requires target.numEntries == |CopyForCompaction(log[..i], e)|
    requires target.dataLength == Total(CopyForCompaction(log[..i], e))
    requires var all := CopyForCompaction(log, e); target.order == BlockOrder(HEADER + |all| * ENTRY + Total(all))
    modifies target`numEntries, target`dataLength, target.mem, target.filter,
             if target.filter == null then {} else {target.filter.directory}
    ensures block.Valid() && block.Holds(log)
    ensures target.Valid() && target.Holds(CopyForCompaction(log[..i + 1], e))
    ensures target.numEntries == |CopyForCompaction(log[..i + 1], e)|
    ensures target.dataLength == Total(CopyForCompaction(log[..i + 1], e))
  {
    hide Layout, Total, HasSpace, CopyForCompaction, BlockOrder, Encode;
    ghost var c := CopyForCompaction(log[..i], e);
    CompactionStep(log, e, i);
    if CmpNoLocal(h.del, e) > 0 {
      CompactionRoom(log, e, i);
      CopyEntry(block, target, data, h, log, i, c);
    }
  }

  /** Compaction's copy into a block sized by CountLive: every append succeeds. */
  method Compact(block: EdgeBlock, target: EdgeBlock, num: nat, e: int, newNum: nat, newLength: nat,
                 ghost log: seq<Entry>)
    requires block.Valid() && block.Holds(log) && num == |log|
    requires target.Valid() && target.Holds([]) && target.numEntries == 0 && target.dataLength == 0
    requires newNum == |CopyForCompaction(log, e)| && newLength == Total(CopyForCompaction(log, e))
    requires target.order == BlockOrder(HEADER + newNum * ENTRY + newLength)
    requires Apart(block, target)
    modifies target`numEntries, target`dataLength, target.mem, target.filter,
             if target.filter == null then {} else {target.filter.directory}
    ensures target.Valid() && target.Holds(CopyForCompaction(log, e))
    ensures target.numEntries == newNum && target.dataLength == newLength
  {
    hide Layout, Total, HasSpace, CopyForCompaction, BlockOrder, CmpNoLocal, Encode;
    var entries, data, i := block.End(), HEADER, 0;
    EmptyTotal();
    assert log[..0] == [] && log[..num] == log;
    EmptyCompaction(e);
    while i < num
      invariant i <= num && entries == block.End() - ENTRY * i && data == HEADER + Total(log[..i])
      invariant block.Valid() && block.Holds(log) && target.Valid() && target.Holds(CopyForCompaction(log[..i], e))
      invariant target.numEntries == |CopyForCompaction(log[..i], e)|
      invariant target.dataLength == Total(CopyForCompaction(log[..i], e))
    {
      entries := entries - ENTRY;
      var h := block.HeaderAt(entries, log, i);
      TotalStep(log, i);
      CopyLive(block, target, data, h, e, log, i);
      data := data + h.length;
      i := i + 1;
    }
  }

  lemma EmptyCompaction(e: int)
    ensures CopyForCompaction([], e) == []
  {
  }
}
