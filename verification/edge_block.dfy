/** An edge block in memory: append, lookup, copying and deletion marks over its bytes. */
module EdgeBlocks {
  import opened Timestamps
  import opened BlockSizing
  import opened BloomFilters
  import opened EntryCodec
  import opened EdgeLog
  import opened BlockLayout

  /** The bytes of a payload that reach the block: its length field has 16 bits. */
  function Clipped(data: seq<Byte>): seq<Byte> {
    data[..|data| % 0x1_0000]
  }

  lemma ClippedWhole(data: seq<Byte>)
    ensures Clipped(data) == data <==> |data| <= MAX_LENGTH
    ensures |Clipped(data)| <= MAX_LENGTH
  {
    assert |data| <= MAX_LENGTH ==> data[..|data|] == data;
  }

  class EdgeBlock {
    const order: nat
    const mem: array<Byte>
    const filter: BloomFilter?
    var numEntries: nat
    var dataLength: nat

    /** fill: an empty block of 2^order bytes, whatever its memory held before. */
    constructor (order: nat, mem: array<Byte>)
      requires mem.Length == Pow2(order) && HEADER + FilterSize(order) <= Pow2(order)
      ensures this.order == order && this.mem == mem && (filter != null ==> fresh(filter) && fresh(filter.directory))
      ensures Valid() && Holds([]) && numEntries == 0 && dataLength == 0
    {
      this.order, this.mem := order, mem;
      numEntries, dataLength := 0, 0;
      if order >= BLOOM_FILTER_THRESHOLD {
        FilterFits(order);
        var f := new BloomFilter(order - BLOOM_FILTER_PORTION);
        filter := f;
      } else {
        filter := null;
      }
      new;
    }

    /** Where the slots end and the Bloom filter, if any, begins. */
    function End(): int {
      Pow2(order) - FilterSize(order)
    }

    ghost predicate Valid()
      reads this, mem, filter, if filter == null then {} else {filter.directory}
    {
      && mem.Length == Pow2(order)
      && (filter == null <==> order < BLOOM_FILTER_THRESHOLD)
      && (filter != null ==> filter.Valid())
    }

    /** The memory holds `log`, and the filter knows its destinations. */
    ghost predicate Holds(log: seq<Entry>)
      reads this, mem, filter
    {
      Layout(mem[..], End(), log) && (filter != null ==> forall e :: e in log ==> e.dst in filter.ids)
    }

    method Store(pos: int, bytes: seq<Byte>)
      requires 0 <= pos && pos + |bytes| <= mem.Length
      modifies mem
      ensures Stored(old(mem[..]), mem[..], pos, bytes)
    {
      var i := 0;
      while i < |bytes|
        invariant i <= |bytes|
        invariant forall j :: 0 <= j < i ==> mem[pos + j] == bytes[j]
        invariant forall j :: 0 <= j < mem.Length && (j < pos || pos + i <= j) ==> mem[j] == old(mem[j])
      {
        mem[pos + i] := bytes[i];
        i := i + 1;
      }
    }

    /** Write an entry and its payload behind `num` entries with `length` payload bytes, and
        leave it to the caller to make it count. */
    method AppendWithoutUpdateSize(dst: nat, cre: int, del: int, data: seq<Byte>, num: nat, length: nat,
                                   ghost log: seq<Entry>)
      returns (ok: bool)
      requires Valid() && Holds(log) && num == |log| && length == Total(log)
      requires dst <= MAX_VERTEX && IsInt64(cre) && IsInt64(del)
      modifies mem, filter, if filter == null then {} else {filter.directory}
      ensures Valid()
      ensures ok == HasSpace(order, num, length, |Clipped(data)|)
      ensures Holds(if ok then log + [Entry(dst, Clipped(data), cre, del)] else log)
    {
      hide Layout, Stored, Encode;
      var payload := Clipped(data);
      ok := HasSpace(order, num, length, |payload|);
      if ok {
        ghost var e := Entry(dst, payload, cre, del);
        var slot := Encode(Header(|payload|, dst, cre, del));
        ghost var m := mem[..];
        Store(End() - ENTRY * num - ENTRY, slot);
        ghost var m1 := mem[..];
        Store(HEADER + length, payload);
        LayoutAppend(m, m1, mem[..], End(), log, e, slot, payload);
        if filter != null {
          filter.Insert(dst);
        }
      }
    }

    /** The same with the block's own sizes, which it then advances. */
    method Append(dst: nat, cre: int, del: int, data: seq<Byte>, ghost log: seq<Entry>) returns (ok: bool)
      requires Valid() && Holds(log) && numEntries == |log| && dataLength == Total(log)
      requires dst <= MAX_VERTEX && IsInt64(cre) && IsInt64(del)
      modifies this`numEntries, this`dataLength, mem, filter, if filter == null then {} else {filter.directory}
      ensures Valid()
      ensures ok == HasSpace(order, |log|, Total(log), |Clipped(data)|)
      ensures var log' := if ok then log + [Entry(dst, Clipped(data), cre, del)] else log;
        Holds(log') && numEntries == |log'| && dataLength == Total(log')
    {
      hide Layout, Total, HasSpace;
      ok := AppendWithoutUpdateSize(dst, cre, del, data, numEntries, dataLength, log);
      if ok {
        LongerLog(log, Entry(dst, Clipped(data), cre, del), 0);
        numEntries := numEntries + 1;
        dataLength := dataLength + |Clipped(data)|;
      }
    }

    method SetDeletionTime(k: nat, t: int, ghost log: seq<Entry>)
      requires Valid() && Holds(log) && k < |log| && IsInt64(t)
      modifies mem
      ensures Valid() && Holds(log[k := log[k].(del := t)])
    {
      hide Layout, Stored, Time;
      ghost var m := mem[..];
      SlotBounds(m, End(), log, k);
      Store(End() - ENTRY * (k + 1) + 16, Time(t));
      LayoutDelete(m, mem[..], End(), log, k, t);
      ghost var log' := log[k := log[k].(del := t)];
      assert forall e :: e in log' ==> exists j :: 0 <= j < |log| && e.dst == log[j].dst;
    }

    /** The slot at `entries`, which is that of the k-th entry. */
    method HeaderAt(entries: int, ghost log: seq<Entry>, ghost k: nat) returns (h: Header)
      requires Valid() && Holds(log) && k < |log| && entries == SlotAt(End(), k)
      ensures h == HeaderOf(log[k])
    {
      hide Layout, Encode;
      SlotDecodes(mem[..], End(), log, k);
      SliceOfSlice(entries, ENTRY);
      h := Decode(mem[entries..entries + ENTRY]);
    }

    /** The payload slice at `data`, which is that of the k-th entry. */
    method PayloadSlice(data: int, length: int, ghost log: seq<Entry>, ghost k: nat) returns (payload: seq<Byte>)
      requires Valid() && Holds(log) && k < |log| && data == PayloadAt(log, k) && length == |log[k].data|
      ensures payload == log[k].data
    {
      hide Layout, Encode;
      SlotDecodes(mem[..], End(), log, k);
      SliceOfSlice(data, length);
      payload := mem[data..data + length];
    }

    /** The newest visible entry with the given destination and the slice of its payload, or
        -1: a scan from the newest slot, skipped when the filter rules the id out. */
    method FindEdge(dst: nat, num: nat, length: nat, r: int, local: TxnId, ghost log: seq<Entry>)
      returns (k: int, data: seq<Byte>)
      requires Valid() && Holds(log) && num == |log| && length == Total(log)
      ensures k == FindIdx(log, dst, r, local)
      ensures data == if k < 0 then [] else log[k].data
    {
      hide Layout, Total, Seen, Encode, FindIdx, Cmp;
      k, data := -1, [];
      if filter != null {
        var found := filter.Find(dst);
        if !found {
          AbsentNotFound(log, dst, r, local);
          return;
        }
      }
      var entries, payload := End() - ENTRY * num, HEADER + length;
      var i := 0;
      assert log[..num] == log;
      while i < num
        invariant i <= num && entries == End() - ENTRY * (num - i) && payload == HEADER + Total(log[..num - i])
        invariant FindIdx(log, dst, r, local) == FindIdx(log[..num - i], dst, r, local)
      {
        ghost var n := num - i - 1;
        TotalStep(log, n);
        FindStep(log, n, dst, r, local);
        var header := HeaderAt(entries, log, n);
        payload := payload - header.length;
        if header.dst == dst && Cmp(header.cre, r, local) <= 0 && Cmp(header.del, r, local) > 0 {
          SeenHeader(log[n], header, r, local);
          k := num - i - 1;
          data := PayloadSlice(payload, header.length, log, n);
          return;
        }
        SeenHeader(log[n], header, r, local);
        entries := entries + ENTRY;
        i := i + 1;
      }
      assert FindIdx(log[..0], dst, r, local) == -1 by { AbsentNotFound(log[..0], dst, r, local); }
    }

    /** Readers that know smaller sizes still find their shorter log. */
    lemma HoldsPrefix(log: seq<Entry>, n: nat)
      requires Holds(log) && n <= |log|
      ensures Holds(log[..n])
    {
      LayoutPrefix(mem[..], End(), log, n);
    }

    lemma SliceOfSlice(pos: int, n: int)
      requires 0 <= pos && 0 <= n && pos + n <= mem.Length
      ensures mem[pos..pos + n] == mem[..][pos..pos + n]
    {
    }
  }

  lemma FindStep(log: seq<Entry>, n: nat, dst: nat, r: int, local: TxnId)
    requires n < |log|
    ensures FindIdx(log[..n + 1], dst, r, local)
         == if log[n].dst == dst && Seen(log[n], r, local) then n else FindIdx(log[..n], dst, r, local)
  {
    assert log[..n + 1][..n] == log[..n];
  }

  lemma SlotBounds(m: seq<Byte>, end: int, log: seq<Entry>, k: nat)
    requires Layout(m, end, log) && k < |log|
    ensures 0 <= SlotAt(end, k) && SlotAt(end, k) + ENTRY <= |m|
  {
    assert EntryAt(m, end, log, k);
  }

  lemma SeenHeader(e: Entry, h: Header, r: int, local: TxnId)
    requires h == HeaderOf(e)
    ensures Seen(e, r, local) <==> Cmp(h.cre, r, local) <= 0 && Cmp(h.del, r, local) > 0
  {
  }

  lemma {:induction false} AbsentNotFound(log: seq<Entry>, dst: nat, r: int, local: TxnId)
    requires forall e :: e in log ==> e.dst != dst
    ensures FindIdx(log, dst, r, local) == -1
  {
    if log != [] {
      assert log[|log| - 1] in log;
      AbsentNotFound(log[..|log| - 1], dst, r, local);
    }
  }
}
