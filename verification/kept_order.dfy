/** The order that updates 6 and 7 keep against the order that query 9 relies on. */
module KeptOrder {
  import opened EdgeLog
  import opened SortedLists
  import TopK
  import RecentMessages

  /** The messages that the edges of a list lead to. */
  function MessageOf(e: Edge, id: nat -> nat): RecentMessages.Message {
    RecentMessages.Message(Date(e), id(e.dst), e.dst)
  }

  function MessagesOf(l: seq<Edge>, id: nat -> nat): seq<RecentMessages.Message> {
    seq(|l|, i requires 0 <= i < |l| => MessageOf(l[i], id))
  }

  ghost predicate Before(a: Edge, b: Edge, id: nat -> nat) {
    Date(a) > Date(b) || (Date(a) == Date(b) && id(a.dst) < id(b.dst))
  }

  /** By date, and messages of one date by ascending id. */
  ghost predicate ByDateAndId(l: seq<Edge>, id: nat -> nat) {
    forall i, j :: 0 <= i < j < |l| ==> Before(l[i], l[j], id)
  }

  ghost predicate OneToOne(id: nat -> nat) {
    forall u: nat, v: nat :: id(u) == id(v) ==> u == v
  }

  /** That is the order that query 9 can be trusted with. */
  lemma KeyOrderOfEdges(l: seq<Edge>, id: nat -> nat)
    requires OneToOne(id) && forall i, j :: 0 <= i < j < |l| ==> l[i].dst != l[j].dst
    ensures RecentMessages.InKeyOrder(MessagesOf(l, id)) <==> ByDateAndId(l, id)
  {
    var ms := MessagesOf(l, id);
    forall i, j | 0 <= i < j < |ms|
      ensures RecentMessages.KeyOf(ms[i]) != RecentMessages.KeyOf(ms[j])
      ensures TopK.Less(RecentMessages.KeyOf(ms[i]), RecentMessages.KeyOf(ms[j])) <==> Before(l[i], l[j], id)
    {
    }
    RecentMessages.DistinctKeyOrder(ms);
  }

  /** Every edge of the list with that date leads to a greater id. */
  ghost predicate LeastOfDate(l: seq<Edge>, dst: nat, date: nat, id: nat -> nat) {
    forall i :: 0 <= i < |l| && Date(l[i]) == date ==> id(dst) < id(l[i].dst)
  }

  /** A new entry goes in front of those of its date: that is its place only if its id is the
      least of them. */
  lemma InsertedOrder(l: seq<Edge>, dst: nat, date: nat, id: nat -> nat)
    requires Descending(l) && date < DATE_LIMIT
    ensures ByDateAndId(Inserted(l, dst, date), id) <==> ByDateAndId(l, id) && LeastOfDate(l, dst, date, id)
  {
    hide DateBytes, IsDate, Inserted, Date, Before;
    var r, n, new0 := Inserted(l, dst, date), Newer(l, date), Edge(dst, DateBytes(date));
    InsertedSize(l, dst, date);
    SameEdge(new0, date);
    forall i | 0 <= i < |r|
      ensures i < n ==> r[i] == l[i]
      ensures i == n ==> r[i] == new0
      ensures i > n ==> r[i] == l[i - 1]
    {
      InsertedAt(l, dst, date, i);
    }
    assert r[n] == new0;
    if ByDateAndId(r, id) {
      InsertedWas(l, r, n, id);
      InsertedLeast(l, r, n, new0, date, id);
    }
    if ByDateAndId(l, id) && LeastOfDate(l, dst, date, id) {
      NewPlace(l, n, new0, date, id);
      InsertedFits(l, r, n, new0, id);
    }
  }

  lemma InsertedFits(l: seq<Edge>, r: seq<Edge>, n: nat, new0: Edge, id: nat -> nat)
    requires |r| == |l| + 1 && n <= |l| && r[n] == new0 && ByDateAndId(l, id)
    requires (forall i :: 0 <= i < n ==> r[i] == l[i]) && (forall i :: n < i < |r| ==> r[i] == l[i - 1])
    requires forall i :: 0 <= i < n ==> Before(l[i], new0, id)
    requires forall i :: n <= i < |l| ==> Before(new0, l[i], id)
    ensures ByDateAndId(r, id)
  {
    hide Before;
    forall i, j | 0 <= i < j < |r|
      ensures Before(r[i], r[j], id)
    {
      var x, y := if i < n then i else i - 1, if j < n then j else j - 1;
      if i == n {
        assert Before(new0, l[y], id);
      } else if j == n {
        assert Before(l[x], new0, id);
      } else {
        assert Before(l[x], l[y], id);
      }
    }
  }

  /** The list is `r` without its entry at `n`. */
  lemma InsertedWas(l: seq<Edge>, r: seq<Edge>, n: nat, id: nat -> nat)
    requires |r| == |l| + 1 && n <= |l| && ByDateAndId(r, id)
    requires (forall i :: 0 <= i < n ==> r[i] == l[i]) && (forall i :: n < i < |r| ==> r[i] == l[i - 1])
    ensures ByDateAndId(l, id)
  {
    hide Before;
    forall i, j | 0 <= i < j < |l|
      ensures Before(l[i], l[j], id)
    {
      var x, y := if i < n then i else i + 1, if j < n then j else j + 1;
      assert r[x] == l[i] && r[y] == l[j];
    }
  }

  lemma InsertedLeast(l: seq<Edge>, r: seq<Edge>, n: nat, new0: Edge, date: nat, id: nat -> nat)
    requires |r| == |l| + 1 && n <= |l| && r[n] == new0 && Date(new0) == date
    requires forall i :: n < i < |r| ==> r[i] == l[i - 1]
    requires (forall i :: 0 <= i < n ==> Date(l[i]) > date) && ByDateAndId(r, id)
    ensures LeastOfDate(l, new0.dst, date, id)
  {
    hide Date;
    forall i | 0 <= i < |l| && Date(l[i]) == date
      ensures id(new0.dst) < id(l[i].dst)
    {
      assert r[i + 1] == l[i] && Before(r[n], r[i + 1], id);
    }
  }

  lemma NewPlace(l: seq<Edge>, n: nat, new0: Edge, date: nat, id: nat -> nat)
    requires Descending(l) && n <= |l| && Date(new0) == date && LeastOfDate(l, new0.dst, date, id)
    requires (forall i :: 0 <= i < n ==> Date(l[i]) > date) && (n < |l| ==> Date(l[n]) <= date)
    ensures forall i :: 0 <= i < n ==> Before(l[i], new0, id)
    ensures forall i :: n <= i < |l| ==> Before(new0, l[i], id)
  {
    hide Date;
    forall i | n <= i < |l|
      ensures Before(new0, l[i], id)
    {
      assert i > n ==> Date(l[n]) >= Date(l[i]);
    }
  }

  /** Whenever two of the entries have one date, the later one has the smaller id. */
  ghost predicate DescendingIds(entries: seq<(nat, nat)>, id: nat -> nat) {
    forall i, j :: 0 <= i < j < |entries| && entries[i].1 == entries[j].1 ==> id(entries[j].0) < id(entries[i].0)
  }

  lemma {:induction false} InEdgesOf(entries: seq<(nat, nat)>, e: Edge)
    ensures e in EdgesOf(entries)
       <==> exists j :: 0 <= j < |entries| && e == Edge(entries[j].0, DateBytes(entries[j].1))
  {
    hide DateBytes;
    if entries != [] {
      var front := entries[..|entries| - 1];
      InEdgesOf(front, e);
      if j :| 0 <= j < |front| && e == Edge(front[j].0, DateBytes(front[j].1)) {
        assert entries[j] == front[j];
      }
    }
  }

  /** What a new entry meets in a list that was kept from the start. */
  lemma LeastOfKept(entries: seq<(nat, nat)>, dst: nat, date: nat, id: nat -> nat)
    requires Fresh([], entries)
    ensures LeastOfDate(InsertAll([], entries), dst, date, id)
       <==> forall j :: 0 <= j < |entries| && entries[j].1 == date ==> id(dst) < id(entries[j].0)
  {
    hide DateBytes, IsDate, Date, Dated;
    var l := InsertAll([], entries);
    assert Dated([]) && Descending([]) by { NoEdges(); }
    RunsStaySorted([], entries);
    forall e
      ensures e in l <==> e in EdgesOf(entries)
    {
      assert e in multiset(l) <==> e in EdgesOf(entries);
    }
    forall j | 0 <= j < |entries|
      ensures Edge(entries[j].0, DateBytes(entries[j].1)) in l
      ensures Date(Edge(entries[j].0, DateBytes(entries[j].1))) == entries[j].1
    {
      InEdgesOf(entries, Edge(entries[j].0, DateBytes(entries[j].1)));
      SameEdge(Edge(entries[j].0, DateBytes(entries[j].1)), entries[j].1);
    }
    forall i | 0 <= i < |l|
      ensures exists j :: 0 <= j < |entries| && l[i] == Edge(entries[j].0, DateBytes(entries[j].1))
    {
      assert l[i] in EdgesOf(entries);
      InEdgesOf(entries, l[i]);
    }
    LeastOfBoth(l, entries, dst, date, id);
  }

  lemma LeastOfBoth(l: seq<Edge>, entries: seq<(nat, nat)>, dst: nat, date: nat, id: nat -> nat)
    requires forall j :: 0 <= j < |entries| ==> Edge(entries[j].0, DateBytes(entries[j].1)) in l
    requires forall j :: 0 <= j < |entries| ==> Date(Edge(entries[j].0, DateBytes(entries[j].1))) == entries[j].1
    requires forall i :: 0 <= i < |l| ==>
      exists j :: 0 <= j < |entries| && l[i] == Edge(entries[j].0, DateBytes(entries[j].1))
    ensures LeastOfDate(l, dst, date, id)
       <==> forall j :: 0 <= j < |entries| && entries[j].1 == date ==> id(dst) < id(entries[j].0)
  {
    hide DateBytes, Date;
    if LeastOfDate(l, dst, date, id) {
      forall j | 0 <= j < |entries| && entries[j].1 == date
        ensures id(dst) < id(entries[j].0)
      {
        var i :| 0 <= i < |l| && l[i] == Edge(entries[j].0, DateBytes(entries[j].1));
        assert Date(l[i]) == date;
      }
    }
  }

  lemma NoEdges()
    ensures Dated([]) && Descending([])
  {
  }

  /** A list that updates 6 and 7 have kept from the start can be trusted to query 9's single
      pass if and only if, of any two entries of one date, the later one had the smaller id. */
  lemma {:induction false} KeptForQueryIff(entries: seq<(nat, nat)>, id: nat -> nat)
    requires Fresh([], entries) && OneToOne(id)
    ensures ByDateAndId(InsertAll([], entries), id) <==> DescendingIds(entries, id)
    ensures RecentMessages.Trusted(MessagesOf(InsertAll([], entries), id)) <==> DescendingIds(entries, id)
  {
    hide RecentMessages.Trusted, RecentMessages.InKeyOrder, ByDateAndId, OneToOne, Dated, Inserted, MessagesOf;
    var l := InsertAll([], entries);
    NoEdges();
    RunsStaySorted([], entries);
    if entries == [] {
      assert ByDateAndId(l, id) by { NothingInOrder(id); }
    } else {
      var front, last := entries[..|entries| - 1], entries[|entries| - 1];
      KeptForQueryIff(front, id);
      RunsStaySorted([], front);
      InsertedOrder(InsertAll([], front), last.0, last.1, id);
      LeastOfKept(front, last.0, last.1, id);
      LastEntry(entries, id);
    }
    DatedDistinct(l);
    KeyOrderOfEdges(l, id);
    RecentMessages.TrustedIff(MessagesOf(l, id));
  }

  lemma NothingInOrder(id: nat -> nat)
    ensures ByDateAndId([], id)
  {
  }

  lemma DatedDistinct(l: seq<Edge>)
    requires Dated(l)
    ensures forall i, j :: 0 <= i < j < |l| ==> l[i].dst != l[j].dst
  {
  }

  lemma LastEntry(entries: seq<(nat, nat)>, id: nat -> nat)
    requires entries != []
    ensures var front, last := entries[..|entries| - 1], entries[|entries| - 1];
      DescendingIds(entries, id)
      <==> && DescendingIds(front, id)
           && forall j :: 0 <= j < |front| && front[j].1 == last.1 ==> id(last.0) < id(front[j].0)
  {
    var front := entries[..|entries| - 1];
    assert forall j :: 0 <= j < |front| ==> front[j] == entries[j];
  }
}
