/** The vertices a bounded number of hops away, as a sorted vector, and membership in it. */
module Neighbourhoods {
  import opened Graphs

  type Label = nat

  const UINT64_MAX := 0xFFFF_FFFF_FFFF_FFFF

  predicate Ascending(s: seq<int>) {
    forall i, j :: 0 <= i < j < |s| ==> s[i] < s[j]
  }

  // ---------------------------------------------------------------------------
  // Sorting and searching.

  lemma AscendingCons(x: Vertex, s: seq<Vertex>)
    requires Ascending(s) && forall y :: y in s ==> x < y
    ensures Ascending([x] + s)
  {
    var r := [x] + s;
    assert forall i :: 0 < i < |r| ==> r[i] in s;
  }

  /** Insert into an ascending sequence, dropping a duplicate. */
  function Insert(x: Vertex, s: seq<Vertex>): (r: seq<Vertex>)
    requires Ascending(s)
    ensures forall y :: y in r <==> y == x || y in s
    ensures Ascending(r)
  {
    if s == [] || x < s[0] then
      assert forall y :: y in s ==> x < y;
      AscendingCons(x, s);
      [x] + s
    else if x == s[0] then s
    else
      var r := Insert(x, s[1..]);
      assert forall y :: y in s[1..] ==> s[0] < y;
      AscendingCons(s[0], r);
      [s[0]] + r
  }

  /** std::sort, std::unique and erase together. */
  function SortUnique(s: seq<Vertex>): (r: seq<Vertex>)
    ensures forall y :: y in r <==> y in s
    ensures Ascending(r)
  {
    if s == [] then [] else Insert(s[0], SortUnique(s[1..]))
  }

  /** std::lower_bound: the first position that is not below `x`. */
  method LowerBound(s: seq<Vertex>, x: Vertex) returns (i: nat)
    requires forall j, k :: 0 <= j < k < |s| ==> s[j] <= s[k]
    ensures i <= |s|
    ensures forall j :: 0 <= j < i ==> s[j] < x
    ensures forall j :: i <= j < |s| ==> x <= s[j]
  {
    i := 0;
    var hi := |s|;
    while i < hi
      invariant i <= hi <= |s|
      invariant forall j :: 0 <= j < i ==> s[j] < x
      invariant forall j :: hi <= j < |s| ==> x <= s[j]
    {
      var mid := (i + hi) / 2;
      if s[mid] < x {
        i := mid + 1;
      } else {
        hi := mid;
      }
    }
  }

  /** The membership test on a neighbourhood with UINT64_MAX pushed behind it: it never runs
      off the end, and it is right for every id but UINT64_MAX itself. */
  method IsMember(friends: seq<Vertex>, x: Vertex) returns (r: bool)
    requires Ascending(friends) && (forall y :: y in friends ==> y < UINT64_MAX) && x <= UINT64_MAX
    ensures r <==> x in friends || x == UINT64_MAX
  {
    var padded := friends + [UINT64_MAX];
    assert forall j :: 0 <= j < |friends| ==> padded[j] == friends[j] && friends[j] in friends;
    assert padded[|friends|] == UINT64_MAX;
    var i := LowerBound(padded, x);
    assert i < |padded|;
    r := padded[i] == x;
    if x in friends {
      var j :| 0 <= j < |friends| && friends[j] == x;
      assert padded[j] == x;
    }
  }

  // ---------------------------------------------------------------------------
  // Hops.

  /** Step `i` of a walk follows the `i`-th label and does not return to `root`. */
  ghost predicate Hop(adjacency: Label -> Graph, etypes: seq<Label>, p: seq<Vertex>, root: Vertex, i: int)
    requires 0 <= i < |p| - 1 <= |etypes|
  {
    Adjacent(adjacency(etypes[i]), p[i], p[i + 1]) && p[i + 1] != root
  }

  /** A walk from `root` that follows the labels in turn and never comes back to `root`. */
  ghost predicate LabelWalk(adjacency: Label -> Graph, etypes: seq<Label>, p: seq<Vertex>, root: Vertex, v: Vertex) {
    && 0 < |p| <= |etypes| + 1 && p[0] == root && p[|p| - 1] == v
    && (forall i :: 0 <= i < |p| - 1 ==> Hop(adjacency, etypes, p, root, i))
  }

  ghost predicate Layer(adjacency: Label -> Graph, etypes: seq<Label>, root: Vertex, k: nat, v: Vertex) {
    exists p :: LabelWalk(adjacency, etypes, p, root, v) && |p| - 1 == k
  }

  lemma LayerZero(adjacency: Label -> Graph, etypes: seq<Label>, root: Vertex, v: Vertex)
    ensures Layer(adjacency, etypes, root, 0, v) <==> v == root
  {
    assert LabelWalk(adjacency, etypes, [root], root, root);
  }

  lemma LayerStep(adjacency: Label -> Graph, etypes: seq<Label>, root: Vertex, k: nat, v: Vertex)
    requires k < |etypes|
    ensures Layer(adjacency, etypes, root, k + 1, v)
       <==> v != root && exists u :: Layer(adjacency, etypes, root, k, u) && Adjacent(adjacency(etypes[k]), u, v)
  {
    if p :| LabelWalk(adjacency, etypes, p, root, v) && |p| - 1 == k + 1 {
      var q := p[..k + 1];
      assert Hop(adjacency, etypes, p, root, k);
      forall i | 0 <= i < |q| - 1
        ensures Hop(adjacency, etypes, q, root, i)
      {
        assert Hop(adjacency, etypes, p, root, i);
      }
      assert LabelWalk(adjacency, etypes, q, root, p[k]);
    }
    if v != root {
      if u :| Layer(adjacency, etypes, root, k, u) && Adjacent(adjacency(etypes[k]), u, v) {
        var q :| LabelWalk(adjacency, etypes, q, root, u) && |q| - 1 == k;
        var p := q + [v];
        forall i | 0 <= i < |p| - 1
          ensures Hop(adjacency, etypes, p, root, i)
        {
          assert i < k ==> Hop(adjacency, etypes, q, root, i);
        }
        assert LabelWalk(adjacency, etypes, p, root, v);
      }
    }
  }

  /** Everything reached by at least one and at most `k` hops. */
  ghost predicate Collected(adjacency: Label -> Graph, etypes: seq<Label>, root: Vertex, k: nat, v: Vertex) {
    exists j :: 1 <= j <= k && Layer(adjacency, etypes, root, j, v)
  }

  ghost predicate Touches(g: Graph, frontier: seq<Vertex>, v: Vertex) {
    exists u :: u in frontier && Adjacent(g, u, v)
  }

  lemma TouchesMore(g: Graph, frontier: seq<Vertex>, i: nat, v: Vertex)
    requires i < |frontier|
    ensures Touches(g, frontier[..i + 1], v) <==> Touches(g, frontier[..i], v) || Adjacent(g, frontier[i], v)
  {
    assert frontier[..i + 1] == frontier[..i] + [frontier[i]];
    if Adjacent(g, frontier[i], v) {
      assert frontier[i] in frontier[..i + 1];
    }
    if u :| u in frontier[..i] && Adjacent(g, u, v) {
      assert u in frontier[..i + 1];
    }
  }

  /** The neighbours of all of `frontier` other than `avoid`; none is avoided with -1. */
  method Neighbours(g: Graph, frontier: seq<Vertex>, avoid: int) returns (next: seq<Vertex>)
    ensures forall v :: v in next <==> v != avoid && Touches(g, frontier, v)
  {
    next := [];
    var i := 0;
    while i < |frontier|
      invariant i <= |frontier|
      invariant forall v :: v in next <==> v != avoid && Touches(g, frontier[..i], v)
    {
      var arcs, j := Arcs(g, frontier[i]), 0;
      ghost var before := next;
      while j < |arcs|
        invariant j <= |arcs|
        invariant forall v :: v in next <==> v in before || (v != avoid && exists b :: 0 <= b < j && arcs[b].dst == v)
      {
        if arcs[j].dst != avoid {
          next := next + [arcs[j].dst];
        }
        j := j + 1;
      }
      forall v
        ensures v in next <==> v != avoid && Touches(g, frontier[..i + 1], v)
      {
        TouchesMore(g, frontier, i, v);
        assert Adjacent(g, frontier[i], v) <==> exists b :: 0 <= b < |arcs| && arcs[b].dst == v;
      }
      i := i + 1;
    }
    assert frontier[..i] == frontier;
  }

  /** The vertices other than `root` up to `numHops` labelled hops away, ascending. */
  method Multihop(adjacency: Label -> Graph, root: Vertex, numHops: int, etypes: seq<Label>)
    returns (collect: seq<Vertex>)
    requires numHops <= |etypes|
    ensures Ascending(collect)
    ensures forall v :: v in collect <==> Collected(adjacency, etypes, root, if numHops < 0 then 0 else numHops, v)
  {
    var frontier, k := [root], 0;
    collect := [];
    forall v { LayerZero(adjacency, etypes, root, v); }
    while k < numHops
      invariant 0 <= k && (k <= numHops || k == 0)
      invariant forall v :: v in frontier <==> Layer(adjacency, etypes, root, k, v)
      invariant forall v :: v in collect <==> Collected(adjacency, etypes, root, k, v)
    {
      var next := Neighbours(adjacency(etypes[k]), frontier, root);
      forall v
        ensures v in next <==> Layer(adjacency, etypes, root, k + 1, v)
        ensures Collected(adjacency, etypes, root, k + 1, v)
           <==> Collected(adjacency, etypes, root, k, v) || Layer(adjacency, etypes, root, k + 1, v)
      {
        LayerStep(adjacency, etypes, root, k, v);
        CollectedStep(adjacency, etypes, root, k, v);
      }
      collect := collect + next;
      frontier, k := next, k + 1;
    }
    collect := SortUnique(collect);
  }

  lemma CollectedStep(adjacency: Label -> Graph, etypes: seq<Label>, root: Vertex, k: nat, v: Vertex)
    ensures Collected(adjacency, etypes, root, k + 1, v)
       <==> Collected(adjacency, etypes, root, k, v) || Layer(adjacency, etypes, root, k + 1, v)
  {
  }

  /** For one repeated label the result is exactly the other vertices within `k` hops: going
      back to the root is never the shortest way. */
  lemma CollectedIsWithin(adjacency: Label -> Graph, etypes: seq<Label>, root: Vertex, k: nat, v: Vertex)
    requires k <= |etypes| && forall i, j :: 0 <= i < j < |etypes| ==> etypes[i] == etypes[j]
    ensures k > 0 ==>
      (Collected(adjacency, etypes, root, k, v) <==> v != root && Within(adjacency(etypes[0]), root, v, k))
    ensures k == 0 ==> !Collected(adjacency, etypes, root, k, v)
  {
    if k > 0 {
      if j :| 1 <= j <= k && Layer(adjacency, etypes, root, j, v) {
        var p :| LabelWalk(adjacency, etypes, p, root, v) && |p| - 1 == j;
        assert Hop(adjacency, etypes, p, root, |p| - 2);
        forall i | 0 <= i < |p| - 1
          ensures Adjacent(adjacency(etypes[0]), p[i], p[i + 1])
        {
          assert Hop(adjacency, etypes, p, root, i) && etypes[i] == etypes[0];
        }
        assert Walk(adjacency(etypes[0]), p, root, v);
      }
      if v != root && Within(adjacency(etypes[0]), root, v, k) {
        var j := ShortestAvoidsRoot(adjacency, etypes, root, k, v);
      }
    }
  }

  lemma {:induction false} ShortestAvoidsRoot(adjacency: Label -> Graph, etypes: seq<Label>, root: Vertex, k: nat,
                                              v: Vertex)
    returns (j: nat)
    requires k <= |etypes| && forall i, j :: 0 <= i < j < |etypes| ==> etypes[i] == etypes[j]
    requires |etypes| > 0 && Within(adjacency(etypes[0]), root, v, k)
    ensures j <= k && Layer(adjacency, etypes, root, j, v)
  {
    LayerZero(adjacency, etypes, root, v);
    if v == root {
      j := 0;
    } else {
      WithinZero(adjacency(etypes[0]), root);
      var u := WithinLast(adjacency(etypes[0]), root, v, k);
      j := ShortestAvoidsRoot(adjacency, etypes, root, k - 1, u);
      LayerStep(adjacency, etypes, root, j, v);
      j := j + 1;
    }
  }

  /** `w` is one `another` hop away from a vertex up to `k` hops from `root`. */
  ghost predicate Beside(g: Graph, another: Graph, root: Vertex, k: int, w: Vertex) {
    exists v :: Within(g, root, v, k) && Adjacent(another, v, w)
  }

  /** The vertices one `another` hop away from those up to `numHops - 1` hops from `root`.
      The search may come back to `root`, and it stops early at an empty frontier. */
  method MultihopAnother(g: Graph, another: Graph, root: Vertex, numHops: int) returns (collect: seq<Vertex>)
    ensures Ascending(collect)
    ensures forall w :: w in collect <==> Beside(g, another, root, numHops - 1, w)
  {
    hide Within, AtDistance, Touches;
    var frontier, k := [root], 0;
    collect := [];
    WithinZero(g, root);
    AtRoot(g, another, root);
    while k < numHops && frontier != []
      invariant 0 <= k && (k <= numHops || k == 0)
      invariant forall v :: v in frontier ==> Within(g, root, v, k)
      invariant forall v :: AtDistance(g, root, v, k) ==> v in frontier
      invariant forall w :: w in collect <==> Beside(g, another, root, k - 1, w)
    {
      var next := Neighbours(g, frontier, -1);
      var more := Neighbours(another, frontier, -1);
      forall v
        ensures v in next ==> Within(g, root, v, k + 1)
        ensures AtDistance(g, root, v, k + 1) ==> v in next
      {
        FrontierStep(g, root, k, frontier, next, v);
      }
      forall w
        ensures w in collect + more <==> Beside(g, another, root, k, w)
      {
        BesideStep(g, another, root, k, frontier, w);
      }
      collect := collect + more;
      frontier, k := next, k + 1;
    }
    if k < numHops {
      ghost var near, far := k - 1, numHops - 1;
      forall w
        ensures Beside(g, another, root, near, w) <==> Beside(g, another, root, far, w)
      {
        BesideDone(g, another, root, k, far, w);
      }
    }
    collect := SortUnique(collect);
  }

  lemma AtRoot(g: Graph, another: Graph, root: Vertex)
    ensures forall v :: AtDistance(g, root, v, 0) <==> v == root
    ensures forall w, k: int :: k < 0 ==> !Beside(g, another, root, k, w)
  {
    WithinZero(g, root);
  }

  lemma BesideStep(g: Graph, another: Graph, root: Vertex, k: nat, frontier: seq<Vertex>, w: Vertex)
    requires forall v :: v in frontier ==> Within(g, root, v, k)
    requires forall v :: AtDistance(g, root, v, k) ==> v in frontier
    ensures Beside(g, another, root, k, w) <==> Beside(g, another, root, k - 1, w) || Touches(another, frontier, w)
  {
    if v :| Within(g, root, v, k) && Adjacent(another, v, w) {
      assert v in frontier || Within(g, root, v, k - 1);
    }
    if v :| Within(g, root, v, k - 1) && Adjacent(another, v, w) {
      WithinMore(g, root, v, k - 1, k);
    }
  }

  lemma BesideDone(g: Graph, another: Graph, root: Vertex, k: nat, m: int, w: Vertex)
    requires k <= m + 1 && forall v :: !AtDistance(g, root, v, k)
    ensures Beside(g, another, root, k - 1, w) <==> Beside(g, another, root, m, w)
  {
    if v :| Within(g, root, v, m) && Adjacent(another, v, w) {
      FrontierDone(g, root, k, v, m);
    }
    if v :| Within(g, root, v, k - 1) && Adjacent(another, v, w) {
      WithinMore(g, root, v, k - 1, m);
    }
  }

  lemma WithinMore(g: Graph, u: Vertex, v: Vertex, k: int, m: int)
    requires Within(g, u, v, k) && k <= m
    ensures Within(g, u, v, m)
  {
  }

  lemma FrontierStep(g: Graph, root: Vertex, k: nat, frontier: seq<Vertex>, next: seq<Vertex>, v: Vertex)
    requires forall u :: u in frontier ==> Within(g, root, u, k)
    requires forall u :: AtDistance(g, root, u, k) ==> u in frontier
    requires v in next <==> Touches(g, frontier, v)
    ensures v in next ==> Within(g, root, v, k + 1)
    ensures AtDistance(g, root, v, k + 1) ==> v in next
  {
    if u :| u in frontier && Adjacent(g, u, v) {
      WithinStep(g, root, u, v, k);
    }
    if AtDistance(g, root, v, k + 1) {
      WithinZero(g, root);
      assert v != root by {
        assert Walk(g, [root], root, root);
      }
      var u := WithinLast(g, root, v, k + 1);
      if Within(g, root, u, k - 1) {
        WithinStep(g, root, u, v, k - 1);
      }
    }
  }

  lemma RootAtZero(g: Graph, root: Vertex)
    ensures AtDistance(g, root, root, 0)
  {
    WithinZero(g, root);
  }

  /** With nothing at distance `k`, everything reachable is closer. */
  lemma {:induction false} FrontierDone(g: Graph, root: Vertex, k: nat, v: Vertex, m: int)
    requires forall u :: !AtDistance(g, root, u, k)
    requires Within(g, root, v, m)
    ensures Within(g, root, v, k - 1)
    decreases m
  {
    if k == 0 {
      RootAtZero(g, root);
    } else if m >= k {
      if v == root {
        assert Walk(g, [root], root, root);
      } else {
        var u := WithinLast(g, root, v, m);
        FrontierDone(g, root, k, u, m - 1);
        WithinStep(g, root, u, v, k - 1);
        assert !AtDistance(g, root, v, k);
      }
    } else {
      WithinMore(g, root, v, m, k - 1);
    }
  }
}
