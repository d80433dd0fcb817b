/** The creator and reply lists that updates 6 and 7 keep newest first: delete the newer
    entries, insert, put the newer ones back in reverse. */
module SortedLists {
  import opened EntryCodec
  import opened EdgeLog
  import opened Sequences

  const DATE_LIMIT := 0x1_0000_0000_0000_0000

  /** The payload of such an edge: its date as eight bytes. */
  function DateBytes(date: nat): (data: seq<Byte>)
    ensures |data| == 8
  {
    Le(date, 8)
  }

  predicate IsDate(data: Bytes) {
    |data| >= 8 && forall b :: b in data ==> 0 <= b < 256
  }

  function DateOf(data: Bytes): nat
    requires IsDate(data)
  {
    assert forall i :: 0 <= i < 8 ==> data[i] in data;
    FromLe(data[..8])
  }

  lemma DateRoundTrip(date: nat)
    requires date < DATE_LIMIT
    ensures IsDate(DateBytes(date)) && DateOf(DateBytes(date)) == date
  {
    Powers();
    SmallRoundTrip(date, 8);
    assert DateBytes(date)[..8] == DateBytes(date);
  }

  ghost predicate HasDate(e: Edge) {
    exists date: nat :: date < DATE_LIMIT && e.data == DateBytes(date)
  }

  /** Different destinations, and payloads that are dates. */
  ghost predicate Dated(l: seq<Edge>) {
    && (forall i, j :: 0 <= i < j < |l| ==> l[i].dst != l[j].dst)
    && (forall i :: 0 <= i < |l| ==> HasDate(l[i]))
  }

  function Date(e: Edge): nat {
    if IsDate(e.data) then DateOf(e.data) else 0
  }

  predicate Descending(l: seq<Edge>) {
    forall i, j :: 0 <= i < j < |l| ==> Date(l[i]) >= Date(l[j])
  }

  /** How many entries in front are newer than `date`. */
  function Newer(l: seq<Edge>, date: nat): (n: nat)
    ensures n <= |l|
    ensures forall i :: 0 <= i < n ==> Date(l[i]) > date
    ensures n < |l| ==> Date(l[n]) <= date
  {
    if l == [] || Date(l[0]) <= date then 0 else 1 + Newer(l[1..], date)
  }

  /** The list with a new entry behind all newer ones. */
  function Inserted(l: seq<Edge>, dst: nat, date: nat): seq<Edge> {
    l[..Newer(l, date)] + [Edge(dst, DateBytes(date))] + l[Newer(l, date)..]
  }

  lemma {:induction false} RemoveAbsent(l: seq<Edge>, dst: nat)
    requires forall i :: 0 <= i < |l| ==> l[i].dst != dst
    ensures RemoveFirst(l, dst) == l
  {
    if l != [] {
      RemoveAbsent(l[1..], dst);
    }
  }

  /** What is stored for an entry that was read is what was read. */
  lemma SameEdge(e: Edge, date: nat)
    requires date < DATE_LIMIT && e.data == DateBytes(date)
    ensures Date(e) == date && e == Edge(e.dst, DateBytes(Date(e)))
  {
    DateRoundTrip(date);
  }

  /** The entries in front that are newer than `date`, as (destination, date). */
  method CollectNewer(list: seq<Edge>, creationDate: nat) returns (edges: seq<(nat, nat)>)
    ensures |edges| == Newer(list, creationDate)
    ensures forall i :: 0 <= i < |edges| ==> edges[i] == (list[i].dst, Date(list[i]))
  {
    hide Date;
    edges := [];
    var n := 0;
    while n < |list|
      invariant n <= |list| && |edges| == n
      invariant forall i :: 0 <= i < n ==> edges[i] == (list[i].dst, Date(list[i])) && Date(list[i]) > creationDate
    {
      var date := Date(list[n]);
      if date <= creationDate {
        break;
      }
      edges := edges + [(list[n].dst, date)];
      n := n + 1;
    }
    NewerIs(list, creationDate, n);
  }

  method DeleteFront(list: seq<Edge>, edges: seq<(nat, nat)>) returns (rest: seq<Edge>)
    requires |edges| <= |list| && forall i :: 0 <= i < |edges| ==> edges[i].0 == list[i].dst
    ensures rest == list[|edges|..]
  {
    rest := list;
    var i := 0;
    while i < |edges|
      invariant i <= |edges| && rest == list[i..]
    {
      rest := ApplyOp(rest, Del(edges[i].0));
      assert list[i..][1..] == list[i + 1..];
      i := i + 1;
    }
  }

  /** Put the deleted entries back, from the oldest of them to the newest. */
  method PutAllBack(list: seq<Edge>, edges: seq<(nat, nat)>, vid: nat, creationDate: nat, ghost original: seq<Edge>)
    returns (list': seq<Edge>)
    requires Dated(original) && |edges| <= |original| && (forall j :: 0 <= j < |original| ==> original[j].dst != vid)
    requires forall i :: 0 <= i < |edges| ==>
      edges[i] == (original[|edges| - 1 - i].dst, Date(original[|edges| - 1 - i]))
    requires list == [Edge(vid, DateBytes(creationDate))] + original[|edges|..]
    ensures list' == original[..|edges|] + list
  {
    hide DateBytes, IsDate, Date, Dated, ApplyOp;
    ghost var n := |edges|;
    list' := list;
    var i := 0;
    assert original[n..n] + list == list;
    while i < |edges|
      invariant i <= n && list' == original[n - i..n] + list
    {
      PutBack(original, n, vid, creationDate, i);
      list' := ApplyOp(list', Put(edges[i].0, DateBytes(edges[i].1), false));
      i := i + 1;
    }
    assert original[0..n] == original[..n];
  }

  /** The update as it runs: collect, delete, put, reverse, put back. */
  method InsertSorted(list: seq<Edge>, vid: nat, creationDate: nat) returns (list': seq<Edge>)
    requires Dated(list) && creationDate < DATE_LIMIT && forall i :: 0 <= i < |list| ==> list[i].dst != vid
    ensures list' == Inserted(list, vid, creationDate)
  {
    hide DateBytes, IsDate, Date, Dated;
    var edges := CollectNewer(list, creationDate);
    list' := DeleteFront(list, edges);
    RemoveAbsent(list', vid);
    list' := ApplyOp(list', Put(vid, DateBytes(creationDate), false));
    list' := PutAllBack(list', Reversed(edges), vid, creationDate, list);
    assert list[..|edges|] + ([Edge(vid, DateBytes(creationDate))] + list[|edges|..])
         == Inserted(list, vid, creationDate);
  }

  lemma {:induction false} NewerIs(l: seq<Edge>, date: nat, n: nat)
    requires n <= |l| && (forall i :: 0 <= i < n ==> Date(l[i]) > date) && (n < |l| ==> Date(l[n]) <= date)
    ensures Newer(l, date) == n
  {
    if n > 0 {
      assert Date(l[0]) > date;
      NewerIs(l[1..], date, n - 1);
    }
  }

  /** Putting a deleted entry back adds it in front: nobody else has its destination. */
  lemma PutBack(list: seq<Edge>, n: nat, vid: nat, creationDate: nat, i: nat)
    requires Dated(list) && i < n <= |list| && forall j :: 0 <= j < |list| ==> list[j].dst != vid
    ensures var e, now := list[n - 1 - i], list[n - i..n] + ([Edge(vid, DateBytes(creationDate))] + list[n..]);
      ApplyOp(now, Put(e.dst, DateBytes(Date(e)), false))
      == list[n - (i + 1)..n] + ([Edge(vid, DateBytes(creationDate))] + list[n..])
  {
    hide DateBytes, IsDate, Date;
    var e, new0 := list[n - 1 - i], Edge(vid, DateBytes(creationDate));
    var now := list[n - i..n] + ([new0] + list[n..]);
    assert e.data == DateBytes(Date(e)) by { StoredDate(list, n - 1 - i); }
    forall j | 0 <= j < |now|
      ensures now[j].dst != e.dst
    {
      OtherEdge(list, n, i, new0, j);
    }
    RemoveAbsent(now, e.dst);
    assert list[n - (i + 1)..n] == [e] + list[n - i..n];
    assert list[n - (i + 1)..n] + ([new0] + list[n..]) == [e] + now;
  }

  lemma StoredDate(l: seq<Edge>, i: nat)
    requires Dated(l) && i < |l|
    ensures l[i].data == DateBytes(Date(l[i])) && Date(l[i]) < DATE_LIMIT
  {
    hide DateBytes, IsDate, Date;
    var date: nat :| date < DATE_LIMIT && l[i].data == DateBytes(date);
    SameEdge(l[i], date);
  }

  lemma OtherEdge(list: seq<Edge>, n: nat, i: nat, new0: Edge, j: nat)
    requires Dated(list) && i < n <= |list| && (forall k :: 0 <= k < |list| ==> list[k].dst != new0.dst)
    requires j < |list[n - i..n] + ([new0] + list[n..])|
    ensures (list[n - i..n] + ([new0] + list[n..]))[j].dst != list[n - 1 - i].dst
  {
    hide DateBytes, IsDate, Date;
    var now := list[n - i..n] + ([new0] + list[n..]);
    assert now[j] == if j < i then list[n - i + j] else if j == i then new0 else list[n + j - i - 1];
  }

  // ---------------------------------------------------------------------------
  // All runs.

  lemma InsertedAt(l: seq<Edge>, dst: nat, date: nat, i: nat)
    requires i < |Inserted(l, dst, date)|
    ensures var n := Newer(l, date);
      Inserted(l, dst, date)[i] == if i < n then l[i] else if i == n then Edge(dst, DateBytes(date)) else l[i - 1]
  {
    hide DateBytes, Date;
  }

  lemma InsertedKeeps(l: seq<Edge>, dst: nat, date: nat)
    requires Dated(l) && date < DATE_LIMIT && forall i :: 0 <= i < |l| ==> l[i].dst != dst
    ensures Dated(Inserted(l, dst, date))
    ensures Descending(l) ==> Descending(Inserted(l, dst, date))
    ensures multiset(Inserted(l, dst, date)) == multiset(l) + multiset{Edge(dst, DateBytes(date))}
  {
    hide DateBytes, IsDate, Date, Dated, Descending;
    InsertedDated(l, dst, date);
    if Descending(l) {
      InsertedDescending(l, dst, date);
    }
    assert l == l[..Newer(l, date)] + l[Newer(l, date)..];
  }

  lemma InsertedDated(l: seq<Edge>, dst: nat, date: nat)
    requires Dated(l) && date < DATE_LIMIT && forall i :: 0 <= i < |l| ==> l[i].dst != dst
    ensures Dated(Inserted(l, dst, date))
  {
    hide DateBytes, IsDate, Date, Inserted;
    var r := Inserted(l, dst, date);
    assert |r| == |l| + 1 by { InsertedSize(l, dst, date); }
    assert HasDate(Edge(dst, DateBytes(date)));
    forall i | 0 <= i < |r|
      ensures HasDate(r[i])
    {
      InsertedAt(l, dst, date, i);
    }
    InsertedDistinct(l, dst, date);
  }

  lemma InsertedDistinct(l: seq<Edge>, dst: nat, date: nat)
    requires Dated(l) && forall i :: 0 <= i < |l| ==> l[i].dst != dst
    ensures forall i, j :: 0 <= i < j < |Inserted(l, dst, date)| ==>
      Inserted(l, dst, date)[i].dst != Inserted(l, dst, date)[j].dst
  {
    hide DateBytes, IsDate, Date, Inserted;
    var r := Inserted(l, dst, date);
    InsertedSize(l, dst, date);
    forall i, j | 0 <= i < j < |r|
      ensures r[i].dst != r[j].dst
    {
      InsertedAt(l, dst, date, i);
      InsertedAt(l, dst, date, j);
    }
  }

  lemma InsertedSize(l: seq<Edge>, dst: nat, date: nat)
    ensures |Inserted(l, dst, date)| == |l| + 1
  {
  }

  lemma InsertedDescending(l: seq<Edge>, dst: nat, date: nat)
    requires Descending(l) && date < DATE_LIMIT
    ensures Descending(Inserted(l, dst, date))
  {
    hide DateBytes, IsDate, Inserted;
    var r, n := Inserted(l, dst, date), Newer(l, date);
    InsertedSize(l, dst, date);
    SameEdge(Edge(dst, DateBytes(date)), date);
    forall i, j | 0 <= i < j < |r|
      ensures Date(r[i]) >= Date(r[j])
    {
      InsertedAt(l, dst, date, i);
      InsertedAt(l, dst, date, j);
      if i == n {
        assert Date(l[n]) >= Date(l[j - 1]);
      }
    }
  }

  /** A run of insertions of new vertices. */
  function InsertAll(l: seq<Edge>, entries: seq<(nat, nat)>): seq<Edge> {
    if entries == [] then l
    else
      var last := entries[|entries| - 1];
      Inserted(InsertAll(l, entries[..|entries| - 1]), last.0, last.1)
  }

  ghost function EdgesOf(entries: seq<(nat, nat)>): multiset<Edge> {
    if entries == [] then multiset{}
    else
      var last := entries[|entries| - 1];
      EdgesOf(entries[..|entries| - 1]) + multiset{Edge(last.0, DateBytes(last.1))}
  }

  /** New vertices every time. */
  ghost predicate Fresh(l: seq<Edge>, entries: seq<(nat, nat)>) {
    && (forall i, j :: 0 <= i < |l| && 0 <= j < |entries| ==> l[i].dst != entries[j].0)
    && (forall i, j :: 0 <= i < j < |entries| ==> entries[i].0 != entries[j].0)
    && (forall j :: 0 <= j < |entries| ==> entries[j].1 < DATE_LIMIT)
  }

  lemma {:induction false} InsertAllDsts(l: seq<Edge>, entries: seq<(nat, nat)>, e: Edge)
    requires e in InsertAll(l, entries)
    ensures e in l || exists j :: 0 <= j < |entries| && e.dst == entries[j].0
  {
    if entries != [] {
      var front := entries[..|entries| - 1];
      if e in InsertAll(l, front) {
        InsertAllDsts(l, front, e);
      }
    }
  }

  /** Over any run the list stays newest first, whatever order the dates come in, and holds
      exactly the old entries and the new ones. */
  lemma {:induction false} RunsStaySorted(l: seq<Edge>, entries: seq<(nat, nat)>)
    requires Dated(l) && Descending(l) && Fresh(l, entries)
    ensures Dated(InsertAll(l, entries)) && Descending(InsertAll(l, entries))
    ensures multiset(InsertAll(l, entries)) == multiset(l) + EdgesOf(entries)
  {
    if entries != [] {
      var front, last := entries[..|entries| - 1], entries[|entries| - 1];
      RunsStaySorted(l, front);
      var before := InsertAll(l, front);
      forall i | 0 <= i < |before|
        ensures before[i].dst != last.0
      {
        InsertAllDsts(l, front, before[i]);
      }
      InsertedKeeps(before, last.0, last.1);
    }
  }
}
