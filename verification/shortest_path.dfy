/** Bidirectional breadth-first search for the distance between two vertices. */
module ShortestPath {
  import opened Graphs

  /** `r` is the distance from `u` to `v` if that is at most `k`, and -1 otherwise. */
  ghost predicate IsDistance(g: Graph, u: Vertex, v: Vertex, k: int, r: int) {
    if r == -1 then !Within(g, u, v, k) else 0 <= r <= k && AtDistance(g, u, v, r)
  }

  /** Neighbours of the first `i` vertices of `frontier` and over the first `j` arcs of the next. */
  ghost predicate Scanned(g: Graph, frontier: seq<Vertex>, i: nat, j: nat, v: Vertex)
    requires i <= |frontier|
  {
    || NextTo(g, frontier[..i], v)
    || (i < |frontier| && exists b :: 0 <= b < j && b < |Arcs(g, frontier[i])| && Arcs(g, frontier[i])[b].dst == v)
  }

  lemma ScannedArc(g: Graph, frontier: seq<Vertex>, i: nat, j: nat, v: Vertex)
    requires i < |frontier| && j < |Arcs(g, frontier[i])|
    ensures Scanned(g, frontier, i, j + 1, v) <==> Scanned(g, frontier, i, j, v) || v == Arcs(g, frontier[i])[j].dst
  {
  }

  lemma ScannedVertex(g: Graph, frontier: seq<Vertex>, i: nat, v: Vertex)
    requires i < |frontier|
    ensures Scanned(g, frontier, i + 1, 0, v) <==> Scanned(g, frontier, i, |Arcs(g, frontier[i])|, v)
  {
    var shorter, longer := frontier[..i], frontier[..i + 1];
    assert longer == shorter + [frontier[i]];
    if a :| 0 <= a < |shorter| && Adjacent(g, shorter[a], v) {
      assert longer[a] == shorter[a];
    }
    if Adjacent(g, frontier[i], v) {
      assert longer[i] == frontier[i];
    }
  }

  /** A side of the search that has gone `k` steps out from `u`. */
  ghost predicate Side(g: Graph, u: Vertex, k: nat, seen: set<Vertex>, frontier: seq<Vertex>) {
    Ball(g, u, k, seen) && Level(g, u, k, frontier) && seen <= g.Keys + {u}
  }

  lemma SideStart(g: Graph, u: Vertex)
    ensures Side(g, u, 0, {u}, [u])
  {
    WithinZero(g, u);
  }

  /** What a round without a hit finds. */
  ghost predicate Round(g: Graph, frontier: seq<Vertex>, seen: set<Vertex>, seen': set<Vertex>, front: seq<Vertex>) {
    && (forall v :: v in seen' <==> v in seen || NextTo(g, frontier, v))
    && (forall v :: v in front <==> v in seen' && v !in seen)
  }

  lemma SideGrowsAt(g: Graph, u: Vertex, k: nat, seen: set<Vertex>, frontier: seq<Vertex>,
                    seen': set<Vertex>, front: seq<Vertex>, v: Vertex)
    requires Symmetric(g) && Side(g, u, k, seen, frontier) && Round(g, frontier, seen, seen', front)
    ensures v in seen' <==> Within(g, u, v, k + 1)
    ensures v in front <==> AtDistance(g, u, v, k + 1)
    ensures v in seen' ==> v in g.Keys + {u}
  {
    BallStep(g, u, k, frontier, v);
    assert v in seen <==> Within(g, u, v, k);
    if NextTo(g, frontier, v) {
      var i :| 0 <= i < |frontier| && Adjacent(g, frontier[i], v);
      assert Adjacent(g, v, frontier[i]);
    }
  }

  lemma SideGrows(g: Graph, u: Vertex, k: nat, seen: set<Vertex>, frontier: seq<Vertex>,
                  seen': set<Vertex>, front: seq<Vertex>)
    requires Symmetric(g) && Side(g, u, k, seen, frontier) && Round(g, frontier, seen, seen', front)
    ensures Side(g, u, k + 1, seen', front)
    ensures front == [] || |seen| < |seen'|
  {
    hide Within, AtDistance, Symmetric, NextTo;
    forall v
      ensures v in seen' <==> Within(g, u, v, k + 1)
      ensures v in front <==> AtDistance(g, u, v, k + 1)
      ensures v in seen' ==> v in g.Keys + {u}
    {
      SideGrowsAt(g, u, k, seen, frontier, seen', front, v);
    }
    if front != [] {
      RoundGrows(g, frontier, seen, seen', front);
    }
  }

  lemma RoundGrows(g: Graph, frontier: seq<Vertex>, seen: set<Vertex>, seen': set<Vertex>, front: seq<Vertex>)
    requires Round(g, frontier, seen, seen', front) && front != []
    ensures |seen| < |seen'|
  {
    assert front[0] in front;
    assert seen' == seen + (seen' - seen);
    assert front[0] in seen' - seen;
  }

  /** A side that has stopped growing has seen everything it can reach. */
  lemma SideDone(g: Graph, u: Vertex, k: nat, frontier: seq<Vertex>, seen: set<Vertex>, seen': set<Vertex>,
                 v: Vertex, m: int)
    requires Symmetric(g) && Side(g, u, k, seen, frontier) && Round(g, frontier, seen, seen', []) && Within(g, u, v, m)
    ensures Within(g, u, v, k)
  {
    SideGrows(g, u, k, seen, frontier, seen', []);
    EmptyLevel(g, u, k + 1, v, m);
    assert v in seen' && v !in [];
    assert v in seen;
  }

  /** Vertices that the two sides have yet to see. */
  ghost function Unseen(g: Graph, from: Vertex, to: Vertex, parent: set<Vertex>, child: set<Vertex>): int {
    2 * |g.Keys + {from, to}| - |parent| - |child|
  }

  lemma SideBound(g: Graph, from: Vertex, to: Vertex, parent: set<Vertex>, child: set<Vertex>)
    requires parent <= g.Keys + {from} && child <= g.Keys + {to}
    ensures |parent| <= |g.Keys + {from, to}| && |child| <= |g.Keys + {from, to}|
  {
    Subset(parent, g.Keys + {from, to});
    Subset(child, g.Keys + {from, to});
  }

  lemma Subset(a: set<Vertex>, b: set<Vertex>)
    requires a <= b
    ensures |a| <= |b|
  {
    assert b == a + (b - a);
  }

  lemma ForwardRound(g: Graph, from: Vertex, to: Vertex, f: nat, b: nat, parent: set<Vertex>, forward: seq<Vertex>,
                     child: set<Vertex>, backward: seq<Vertex>, hit: bool, parent': set<Vertex>, front: seq<Vertex>)
    requires Symmetric(g) && Side(g, from, f, parent, forward) && Side(g, to, b, child, backward)
    requires hit <==> exists v :: NextTo(g, forward, v) && v in child
    requires !hit ==> Round(g, forward, parent, parent', front)
    ensures !Within(g, from, to, f + b) ==> (hit <==> Within(g, from, to, f + b + 1))
    ensures !hit && front != [] ==>
      && Side(g, from, f + 1, parent', front)
      && 0 <= Unseen(g, from, to, parent', child) < Unseen(g, from, to, parent, child)
    ensures !hit && front == [] && !Within(g, from, to, f + b) ==> forall k: int :: !Within(g, from, to, k)
  {
    if !Within(g, from, to, f + b) {
      Meeting(g, from, to, f, b, forward, child);
    }
    if !hit {
      SideGrows(g, from, f, parent, forward, parent', front);
      SideBound(g, from, to, parent', child);
      forall k: int | front == [] && !Within(g, from, to, f + b)
        ensures !Within(g, from, to, k)
      {
        if Within(g, from, to, k) {
          SideDone(g, from, f, forward, parent, parent', to, k);
        }
      }
    }
  }

  lemma BackwardRound(g: Graph, from: Vertex, to: Vertex, f: nat, b: nat, parent: set<Vertex>, forward: seq<Vertex>,
                      child: set<Vertex>, backward: seq<Vertex>, hit: bool, child': set<Vertex>, front: seq<Vertex>)
    requires Symmetric(g) && Side(g, from, f, parent, forward) && Side(g, to, b, child, backward)
    requires hit <==> exists v :: NextTo(g, backward, v) && v in parent
    requires !hit ==> Round(g, backward, child, child', front)
    ensures !Within(g, from, to, f + b) ==> (hit <==> Within(g, from, to, f + b + 1))
    ensures !hit && front != [] ==>
      Side(g, to, b + 1, child', front) && 0 <= Unseen(g, from, to, parent, child') < Unseen(g, from, to, parent, child)
    ensures !hit && front == [] && !Within(g, from, to, f + b) ==> forall k: int :: !Within(g, from, to, k)
  {
    hide Within;
    WithinBothWays(g, from, to);
    ForwardRound(g, to, from, b, f, child, backward, parent, forward, hit, child', front);
    assert {to, from} == {from, to};
  }

  lemma WithinBothWays(g: Graph, u: Vertex, v: Vertex)
    requires Symmetric(g)
    ensures forall k: int :: Within(g, u, v, k) <==> Within(g, v, u, k)
  {
    forall k: int
      ensures Within(g, u, v, k) <==> Within(g, v, u, k)
    {
      if Within(g, u, v, k) { WithinSymmetric(g, u, v, k); }
      if Within(g, v, u, k) { WithinSymmetric(g, v, u, k); }
    }
  }

  /** After some arcs without a hit: what has been seen and found. */
  ghost predicate Explored(g: Graph, frontier: seq<Vertex>, i: nat, j: nat, seen: set<Vertex>, other: set<Vertex>,
                           seen': set<Vertex>, front: seq<Vertex>)
    requires i <= |frontier|
  {
    && (forall v :: v in seen' <==> v in seen || Scanned(g, frontier, i, j, v))
    && (forall v :: v in front <==> v in seen' && v !in seen)
    && (forall v :: Scanned(g, frontier, i, j, v) ==> v !in other)
  }

  lemma ExploredArc(g: Graph, frontier: seq<Vertex>, i: nat, j: nat, seen: set<Vertex>, other: set<Vertex>,
                    seen0: set<Vertex>, front0: seq<Vertex>, seen': set<Vertex>, front: seq<Vertex>)
    requires i < |frontier| && j < |Arcs(g, frontier[i])| && Explored(g, frontier, i, j, seen, other, seen0, front0)
    requires var dst := Arcs(g, frontier[i])[j].dst;
      && dst !in other
      && if dst in seen0 then seen' == seen0 && front == front0 else seen' == seen0 + {dst} && front == front0 + [dst]
    ensures Explored(g, frontier, i, j + 1, seen, other, seen', front)
  {
    hide Scanned;
    forall v
      ensures Scanned(g, frontier, i, j + 1, v) <==> Scanned(g, frontier, i, j, v) || v == Arcs(g, frontier[i])[j].dst
    {
      ScannedArc(g, frontier, i, j, v);
    }
  }

  lemma ExploredVertex(g: Graph, frontier: seq<Vertex>, i: nat, seen: set<Vertex>, other: set<Vertex>,
                       seen': set<Vertex>, front: seq<Vertex>)
    requires i < |frontier| && Explored(g, frontier, i, |Arcs(g, frontier[i])|, seen, other, seen', front)
    ensures Explored(g, frontier, i + 1, 0, seen, other, seen', front)
  {
    hide Scanned;
    forall v
      ensures Scanned(g, frontier, i + 1, 0, v) <==> Scanned(g, frontier, i, |Arcs(g, frontier[i])|, v)
    {
      ScannedVertex(g, frontier, i, v);
    }
  }

  lemma ExploredStart(g: Graph, frontier: seq<Vertex>, seen: set<Vertex>, other: set<Vertex>)
    ensures Explored(g, frontier, 0, 0, seen, other, seen, [])
  {
  }

  lemma ExploredAll(g: Graph, frontier: seq<Vertex>, seen: set<Vertex>, other: set<Vertex>, seen': set<Vertex>,
                    front: seq<Vertex>)
    requires Explored(g, frontier, |frontier|, 0, seen, other, seen', front)
    ensures Round(g, frontier, seen, seen', front) && !exists v :: NextTo(g, frontier, v) && v in other
  {
    assert frontier[..|frontier|] == frontier;
    assert forall v :: Scanned(g, frontier, |frontier|, 0, v) <==> NextTo(g, frontier, v);
  }

  /** One round of one side: stop at the first neighbour that the other side has seen,
      otherwise take in all new neighbours. */
  method Expand(g: Graph, frontier: seq<Vertex>, seen: map<Vertex, Vertex>, other: map<Vertex, Vertex>)
    returns (hit: bool, seen': map<Vertex, Vertex>, front: seq<Vertex>)
    ensures hit <==> exists v :: NextTo(g, frontier, v) && v in other
    ensures !hit ==> Round(g, frontier, seen.Keys, seen'.Keys, front)
  {
    hide Explored, Round, Scanned;
    hit, seen', front := false, seen, [];
    var i := 0;
    ExploredStart(g, frontier, seen.Keys, other.Keys);
    while i < |frontier|
      invariant i <= |frontier| && Explored(g, frontier, i, 0, seen.Keys, other.Keys, seen'.Keys, front)
    {
      var vid, j := frontier[i], 0;
      while j < |Arcs(g, vid)|
        invariant j <= |Arcs(g, vid)| && Explored(g, frontier, i, j, seen.Keys, other.Keys, seen'.Keys, front)
      {
        var dst := Arcs(g, vid)[j].dst;
        if dst in other {
          assert Adjacent(g, frontier[i], dst);
          assert NextTo(g, frontier, dst);
          hit := true;
          return;
        }
        ghost var seen0, front0 := seen', front;
        if dst !in seen' {
          seen' := seen'[dst := vid];
          front := front + [dst];
          assert seen'.Keys == seen0.Keys + {dst};
        }
        ExploredArc(g, frontier, i, j, seen.Keys, other.Keys, seen0.Keys, front0, seen'.Keys, front);
        j := j + 1;
      }
      ExploredVertex(g, frontier, i, seen.Keys, other.Keys, seen'.Keys, front);
      i := i + 1;
    }
    ExploredAll(g, frontier, seen.Keys, other.Keys, seen'.Keys, front);
  }

  lemma Verdict(g: Graph, from: Vertex, to: Vertex, maxHops: int, r: int)
    requires r == -1 || 1 <= r <= maxHops
    requires from != to ==> if r == -1 then !Within(g, from, to, maxHops) else AtDistance(g, from, to, r)
    ensures IsDistance(g, from, to, maxHops, r) <==> from != to || maxHops < 0
  {
    WithinZero(g, from);
    assert Walk(g, [from], from, from);
  }

  /** The distance, -1 if it is above `maxHops`.  The search tests neighbours only, so it
      never answers 0: for equal endpoints the answer is wrong as soon as 0 hops are allowed.
      Rounds end because each surviving one adds an unseen vertex to one side. */
  method PairwiseShortestPath(g: Graph, from: Vertex, to: Vertex, maxHops: int) returns (r: int)
    requires Symmetric(g)
    ensures IsDistance(g, from, to, maxHops, r) <==> from != to || maxHops < 0
  {
    hide *;
    WithinZero(g, from);
    var parent: map<Vertex, Vertex>, child: map<Vertex, Vertex> := map[from := from], map[to := to];
    var forward, backward := [from], [to];
    SideStart(g, from);
    SideStart(g, to);
    assert parent.Keys == {from} && child.Keys == {to};
    var hops := 0;
    ghost var f, b := 0, 0;
    while hops < maxHops
      invariant hops == f + b && 0 <= f && 0 <= b && (hops <= maxHops || hops == 0)
      invariant Side(g, from, f, parent.Keys, forward) && Side(g, to, b, child.Keys, backward)
      invariant from != to ==> !Within(g, from, to, hops)
      decreases Unseen(g, from, to, parent.Keys, child.Keys)
    {
      hops := hops + 1;
      if |forward| <= |backward| {
        var hit, parent', front := Expand(g, forward, parent, child);
        ForwardRound(g, from, to, f, b, parent.Keys, forward, child.Keys, backward, hit, parent'.Keys, front);
        if hit {
          Verdict(g, from, to, maxHops, hops);
          return hops;
        }
        if front == [] {
          break;
        }
        parent, forward, f := parent', front, f + 1;
      } else {
        var hit, child', front := Expand(g, backward, child, parent);
        BackwardRound(g, from, to, f, b, parent.Keys, forward, child.Keys, backward, hit, child'.Keys, front);
        if hit {
          Verdict(g, from, to, maxHops, hops);
          return hops;
        }
        if front == [] {
          break;
        }
        child, backward, b := child', front, b + 1;
      }
    }
    Verdict(g, from, to, maxHops, -1);
    return -1;
  }
}
