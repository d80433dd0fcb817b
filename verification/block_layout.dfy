/** Where an edge block keeps its entries: slots grow down from `end`, payloads grow up from
    the header, and both describe one log. */
module BlockLayout {
  import opened Timestamps
  import opened BlockSizing
  import opened EntryCodec
  import opened EdgeLog

  /** The payload bytes of a log. */
  function Total(log: seq<Entry>): nat {
    if log == [] then 0 else Total(log[..|log| - 1]) + |log[|log| - 1].data|
  }

  predicate Storable(e: Entry) {
    && |e.data| <= MAX_LENGTH && e.dst <= MAX_VERTEX && IsInt64(e.cre) && IsInt64(e.del)
    && (forall b :: b in e.data ==> 0 <= b < 256)
  }

  function HeaderOf(e: Entry): Header {
    Header(|e.data|, e.dst, e.cre, e.del)
  }

  /** The slot of the k-th entry ends where the slot before it began. */
  function SlotAt(end: int, k: int): int {
    end - ENTRY * (k + 1)
  }

  function PayloadAt(log: seq<Entry>, k: nat): int
    requires k <= |log|
  {
    HEADER + Total(log[..k])
  }

  ghost predicate EntryAt(m: seq<Byte>, end: int, log: seq<Entry>, k: nat)
    requires k < |log|
  {
    && Storable(log[k])
    && 0 <= SlotAt(end, k) && SlotAt(end, k) + ENTRY <= |m|
    && m[SlotAt(end, k)..SlotAt(end, k) + ENTRY] == Encode(HeaderOf(log[k]))
    && PayloadAt(log, k) + |log[k].data| <= |m|
    && m[PayloadAt(log, k)..PayloadAt(log, k) + |log[k].data|] == log[k].data
  }

  /** The memory holds the log, and payloads stay below slots. */
  ghost predicate Layout(m: seq<Byte>, end: int, log: seq<Entry>) {
    && HEADER + Total(log) + ENTRY * |log| <= end <= |m|
    && (forall k {:trigger EntryAt(m, end, log, k)} :: 0 <= k < |log| ==> EntryAt(m, end, log, k))
  }

  lemma {:induction false} TotalMonotone(log: seq<Entry>, i: nat, j: nat)
    requires i <= j <= |log|
    ensures Total(log[..i]) <= Total(log[..j])
    ensures i < j ==> Total(log[..i]) + |log[i].data| <= Total(log[..j])
    decreases j
  {
    if i < j {
      TotalStep(log, j - 1);
      TotalMonotone(log, i, j - 1);
    }
  }

  lemma TotalStep(log: seq<Entry>, k: nat)
    requires k < |log|
    ensures Total(log[..k + 1]) == Total(log[..k]) + |log[k].data|
  {
    assert log[..k + 1][..k] == log[..k];
  }

  /** A reader with smaller sizes finds a shorter log in the same place. */
  lemma LayoutPrefix(m: seq<Byte>, end: int, log: seq<Entry>, n: nat)
    requires Layout(m, end, log) && n <= |log|
    ensures Layout(m, end, log[..n])
  {
    TotalMonotone(log, n, |log|);
    assert log[..|log|] == log;
    forall k | 0 <= k < n
      ensures EntryAt(m, end, log[..n], k)
    {
      assert EntryAt(m, end, log, k);
      assert log[..n][..k] == log[..k];
    }
  }

  /** `m'` is `m` with `bytes` stored from `pos` on. */
  ghost predicate Stored(m: seq<Byte>, m': seq<Byte>, pos: int, bytes: seq<Byte>) {
    && 0 <= pos && pos + |bytes| <= |m| == |m'| && m'[pos..pos + |bytes|] == bytes
    && (forall i :: 0 <= i < |m| && (i < pos || pos + |bytes| <= i) ==> m'[i] == m[i])
  }

  lemma Elsewhere(m: seq<Byte>, m': seq<Byte>, pos: int, bytes: seq<Byte>, i: int, j: int)
    requires Stored(m, m', pos, bytes) && 0 <= i <= j <= |m| && (j <= pos || pos + |bytes| <= i)
    ensures m'[i..j] == m[i..j]
  {
  }

  /** Entries lie inside the block: slots above the last one, payloads below the end. */
  lemma EntryBounds(log: seq<Entry>, end: int, k: nat)
    requires k < |log|
    ensures SlotAt(end, |log| - 1) <= SlotAt(end, k) && SlotAt(end, k) + ENTRY <= end
    ensures PayloadAt(log, k) + |log[k].data| <= HEADER + Total(log)
  {
    TotalMonotone(log, k, |log|);
    assert log[..|log|] == log;
  }

  lemma LongerLog(log: seq<Entry>, e: Entry, k: nat)
    requires k <= |log|
    ensures Total(log + [e]) == Total(log) + |e.data|
    ensures PayloadAt(log + [e], k) == PayloadAt(log, k)
    ensures PayloadAt(log, |log|) == HEADER + Total(log)
  {
    assert (log + [e])[..|log|] == log;
    assert (log + [e])[..k] == log[..k];
    assert log[..|log|] == log;
  }

  /** The two writes of an append: the slot below the last one, the payload above the last. */
  lemma LayoutAppend(m: seq<Byte>, m1: seq<Byte>, m2: seq<Byte>, end: int, log: seq<Entry>, e: Entry, slot: seq<Byte>,
                     data: seq<Byte>)
    requires Layout(m, end, log) && Storable(e) && data == e.data && slot == Encode(HeaderOf(e))
    requires HEADER + Total(log) + |e.data| + ENTRY * (|log| + 1) <= end
    requires Stored(m, m1, SlotAt(end, |log|), slot) && Stored(m1, m2, HEADER + Total(log), data)
    ensures Layout(m2, end, log + [e])
  {
    hide Stored, Storable, Encode, HeaderOf, Total, EntryAt;
    var n, more := |log|, log + [e];
    SameSize(m, m1, SlotAt(end, n), slot);
    SameSize(m1, m2, HEADER + Total(log), data);
    LongerLog(log, e, n);
    forall k {:trigger EntryAt(m2, end, more, k)} | 0 <= k <= n
      ensures EntryAt(m2, end, more, k)
    {
      if k == n {
        NewEntry(m, m1, m2, end, log, e, slot, data);
      } else {
        OldEntry(m, m1, m2, end, log, e, slot, data, k);
      }
    }
  }

  lemma SameSize(m: seq<Byte>, m': seq<Byte>, pos: int, bytes: seq<Byte>)
    requires Stored(m, m', pos, bytes)
    ensures |m'| == |m|
  {
  }

  lemma StoredThere(m: seq<Byte>, m': seq<Byte>, pos: int, bytes: seq<Byte>)
    requires Stored(m, m', pos, bytes)
    ensures 0 <= pos && pos + |bytes| <= |m'| && m'[pos..pos + |bytes|] == bytes
  {
  }

  lemma NewEntry(m: seq<Byte>, m1: seq<Byte>, m2: seq<Byte>, end: int, log: seq<Entry>, e: Entry, slot: seq<Byte>,
                 data: seq<Byte>)
    requires end <= |m| && Storable(e) && data == e.data && slot == Encode(HeaderOf(e))
    requires HEADER + Total(log) + |e.data| + ENTRY * (|log| + 1) <= end
    requires Stored(m, m1, SlotAt(end, |log|), slot) && Stored(m1, m2, HEADER + Total(log), data)
    ensures EntryAt(m2, end, log + [e], |log|)
  {
    hide Stored, Storable, Encode, HeaderOf, Total;
    LongerLog(log, e, |log|);
    SameSize(m, m1, SlotAt(end, |log|), slot);
    SameSize(m1, m2, HEADER + Total(log), data);
    StoredThere(m, m1, SlotAt(end, |log|), slot);
    StoredThere(m1, m2, HEADER + Total(log), data);
    Elsewhere(m1, m2, HEADER + Total(log), data, SlotAt(end, |log|), SlotAt(end, |log|) + ENTRY);
  }

  /** A write elsewhere leaves an entry alone. */
  lemma EntryStays(m: seq<Byte>, m': seq<Byte>, end: int, log: seq<Entry>, k: nat, pos: int, bytes: seq<Byte>)
    requires k < |log| && EntryAt(m, end, log, k) && Stored(m, m', pos, bytes)
    requires SlotAt(end, k) + ENTRY <= pos || pos + |bytes| <= SlotAt(end, k)
    requires PayloadAt(log, k) + |log[k].data| <= pos || pos + |bytes| <= PayloadAt(log, k)
    ensures EntryAt(m', end, log, k)
  {
    hide Stored, Storable, Encode, HeaderOf, Total;
    SameSize(m, m', pos, bytes);
    Elsewhere(m, m', pos, bytes, SlotAt(end, k), SlotAt(end, k) + ENTRY);
    Elsewhere(m, m', pos, bytes, PayloadAt(log, k), PayloadAt(log, k) + |log[k].data|);
  }

  lemma OldEntry(m: seq<Byte>, m1: seq<Byte>, m2: seq<Byte>, end: int, log: seq<Entry>, e: Entry, slot: seq<Byte>,
                 data: seq<Byte>, k: nat)
    requires Layout(m, end, log) && data == e.data && k < |log| && |slot| == ENTRY
    requires HEADER + Total(log) + |e.data| + ENTRY * (|log| + 1) <= end
    requires Stored(m, m1, SlotAt(end, |log|), slot) && Stored(m1, m2, HEADER + Total(log), data)
    ensures EntryAt(m2, end, log + [e], k)
  {
    hide Stored, EntryAt, Total;
    EntryBounds(log, end, k);
    EntryStays(m, m1, end, log, k, SlotAt(end, |log|), slot);
    EntryStays(m1, m2, end, log, k, HEADER + Total(log), data);
    EntryInLonger(m2, end, log, e, k);
  }

  lemma EntryInLonger(m: seq<Byte>, end: int, log: seq<Entry>, e: Entry, k: nat)
    requires k < |log| && EntryAt(m, end, log, k)
    ensures EntryAt(m, end, log + [e], k)
  {
    LongerLog(log, e, k);
  }

  /** Setting the deletion time of an entry writes eight bytes of its slot. */
  lemma {:induction false} TotalUpdate(log: seq<Entry>, i: nat, e: Entry)
    requires i < |log| && |e.data| == |log[i].data|
    ensures Total(log[i := e]) == Total(log)
  {
    var k := |log| - 1;
    if i < k {
      assert log[i := e][..k] == log[..k][i := e];
      TotalUpdate(log[..k], i, e);
    } else {
      assert log[i := e][..k] == log[..k];
    }
  }

  lemma LayoutDelete(m: seq<Byte>, m': seq<Byte>, end: int, log: seq<Entry>, i: nat, t: int)
    requires Layout(m, end, log) && i < |log| && IsInt64(t)
    requires Stored(m, m', SlotAt(end, i) + 16, Time(t))
    ensures Layout(m', end, log[i := log[i].(del := t)])
  {
    hide Stored;
    var e := log[i].(del := t);
    var updated := log[i := e];
    TotalUpdate(log, i, e);
    SameSize(m, m', SlotAt(end, i) + 16, Time(t));
    forall k {:trigger EntryAt(m', end, updated, k)} | 0 <= k < |log|
      ensures EntryAt(m', end, updated, k)
    {
      if k == i {
        DeletedEntry(m, m', end, log, i, t);
      } else {
        UndeletedEntry(m, m', end, log, i, t, k);
      }
    }
  }

  lemma PayloadStays(log: seq<Entry>, i: nat, e: Entry, k: nat)
    requires i < |log| && k < |log| && |e.data| == |log[i].data|
    ensures PayloadAt(log[i := e], k) == PayloadAt(log, k)
  {
    if i < k {
      assert log[i := e][..k] == log[..k][i := e];
      TotalUpdate(log[..k], i, e);
    } else {
      assert log[i := e][..k] == log[..k];
    }
  }

  lemma DeletedEntry(m: seq<Byte>, m': seq<Byte>, end: int, log: seq<Entry>, i: nat, t: int)
    requires Layout(m, end, log) && i < |log| && IsInt64(t)
    requires Stored(m, m', SlotAt(end, i) + 16, Time(t))
    ensures EntryAt(m', end, log[i := log[i].(del := t)], i)
  {
    hide Time, Encode;
    var slot := SlotAt(end, i);
    assert EntryAt(m, end, log, i);
    EntryBounds(log, end, i);
    PayloadStays(log, i, log[i].(del := t), i);
    PatchDeletion(HeaderOf(log[i]), t);
    assert m[slot..slot + ENTRY][..16] == m[slot..slot + 16];
    assert m'[slot..slot + ENTRY] == m[slot..slot + 16] + Time(t) by {
      Elsewhere(m, m', slot + 16, Time(t), slot, slot + 16);
      assert m'[slot..slot + ENTRY] == m'[slot..slot + 16] + m'[slot + 16..slot + 24];
    }
    BelowSlots(m, end, log, i, i);
    Elsewhere(m, m', slot + 16, Time(t), PayloadAt(log, i), PayloadAt(log, i) + |log[i].data|);
  }

  lemma UndeletedEntry(m: seq<Byte>, m': seq<Byte>, end: int, log: seq<Entry>, i: nat, t: int, k: nat)
    requires Layout(m, end, log) && i < |log| && k < |log| && k != i && IsInt64(t)
    requires Stored(m, m', SlotAt(end, i) + 16, Time(t))
    ensures EntryAt(m', end, log[i := log[i].(del := t)], k)
  {
    hide Time, Encode, Stored;
    var slot := SlotAt(end, i);
    assert EntryAt(m, end, log, k);
    SameSize(m, m', slot + 16, Time(t));
    PayloadStays(log, i, log[i].(del := t), k);
    BelowSlots(m, end, log, k, i);
    Elsewhere(m, m', slot + 16, Time(t), SlotAt(end, k), SlotAt(end, k) + ENTRY);
    Elsewhere(m, m', slot + 16, Time(t), PayloadAt(log, k), PayloadAt(log, k) + |log[k].data|);
  }

  lemma BelowSlots(m: seq<Byte>, end: int, log: seq<Entry>, k: nat, i: nat)
    requires Layout(m, end, log) && k < |log| && i < |log|
    ensures PayloadAt(log, k) + |log[k].data| <= SlotAt(end, i)
  {
    EntryBounds(log, end, k);
    EntryBounds(log, end, i);
  }

  /** What a slot says when it is decoded. */
  lemma SlotDecodes(m: seq<Byte>, end: int, log: seq<Entry>, k: nat)
    requires Layout(m, end, log) && k < |log|
    ensures 0 <= SlotAt(end, k) && SlotAt(end, k) + ENTRY <= |m|
    ensures Decode(m[SlotAt(end, k)..SlotAt(end, k) + ENTRY]) == HeaderOf(log[k])
    ensures HEADER <= PayloadAt(log, k) && PayloadAt(log, k) + |log[k].data| <= |m|
    ensures m[PayloadAt(log, k)..PayloadAt(log, k) + |log[k].data|] == log[k].data
  {
    assert EntryAt(m, end, log, k);
    RoundTrip(HeaderOf(log[k]));
  }
}
