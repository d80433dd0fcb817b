/** All shortest paths between two vertices: a bidirectional search collects the edges over
    which the two sides meet, and depth-first searches spell out the routes over each. */
module AllShortestPaths {
  import opened Graphs
  import opened ShortestPath
  import opened Routes
  import opened Sequences

  // ---------------------------------------------------------------------------
  // The bidirectional search.

  /** The pair (closer to the source, closer to the target) for an arc that one side follows. */
  function HitKey(backwards: bool, u: Vertex, d: Vertex): (Vertex, Vertex) {
    if backwards then (d, u) else (u, d)
  }

  /** The arcs from `u` to `d` among the first `i` vertices of `frontier` and the first `j`
      arcs of the next one. */
  ghost predicate Passed(g: Graph, frontier: seq<Vertex>, i: nat, j: nat, u: Vertex, d: Vertex)
    requires i <= |frontier|
  {
    || (u in frontier[..i] && Adjacent(g, u, d))
    || (i < |frontier| && frontier[i] == u && exists b :: 0 <= b < j && b < |Arcs(g, u)| && Arcs(g, u)[b].dst == d)
  }

  lemma PassedArc(g: Graph, frontier: seq<Vertex>, i: nat, j: nat, u: Vertex, d: Vertex)
    requires i < |frontier| && j < |Arcs(g, frontier[i])|
    ensures Passed(g, frontier, i, j + 1, u, d)
       <==> Passed(g, frontier, i, j, u, d) || (u == frontier[i] && d == Arcs(g, frontier[i])[j].dst)
  {
  }

  lemma PassedVertex(g: Graph, frontier: seq<Vertex>, i: nat, u: Vertex, d: Vertex)
    requires i < |frontier|
    ensures Passed(g, frontier, i + 1, 0, u, d) <==> Passed(g, frontier, i, |Arcs(g, frontier[i])|, u, d)
  {
    assert frontier[..i + 1] == frontier[..i] + [frontier[i]];
  }

  lemma PassedScanned(g: Graph, frontier: seq<Vertex>, v: Vertex)
    ensures NextTo(g, frontier, v) <==> exists u :: u in frontier && Adjacent(g, u, v)
  {
    if u :| u in frontier && Adjacent(g, u, v) {
      var i :| 0 <= i < |frontier| && frontier[i] == u;
      assert Adjacent(g, frontier[i], v);
    }
  }

  /** What has been found after some arcs, given the arcs passed so far. */
  ghost predicate Gathered(g: Graph, frontier: seq<Vertex>, i: nat, j: nat, other: map<Vertex, int>, backwards: bool,
                           hits: map<(Vertex, Vertex), real>)
    requires i <= |frontier|
  {
    && (forall u, d :: HitKey(backwards, u, d) in hits <==> Passed(g, frontier, i, j, u, d) && d in other)
    && (forall u, d :: HitKey(backwards, u, d) in hits ==> hits[HitKey(backwards, u, d)] == Weight(g, u, d))
  }

  ghost predicate Grown(g: Graph, frontier: seq<Vertex>, i: nat, j: nat, seen: map<Vertex, int>, depth: int,
                        seen': map<Vertex, int>, front: seq<Vertex>)
    requires i <= |frontier|
  {
    && (forall v :: v in seen' <==> v in seen || Scanned(g, frontier, i, j, v))
    && (forall v :: v in front <==> v in seen' && v !in seen)
    && (forall v {:trigger seen'[v]} :: v in seen' ==> seen'[v] == if v in seen then seen[v] else depth)
  }

  /** One round of one side: every arc into what the other side has seen is a hit, and every
      new neighbour gets its depth. */
  method ExpandAll(g: Graph, frontier: seq<Vertex>, seen: map<Vertex, int>, other: map<Vertex, int>, depth: int,
                   backwards: bool)
    returns (seen': map<Vertex, int>, front: seq<Vertex>, hits: map<(Vertex, Vertex), real>)
    requires Simple(g)
    ensures Round(g, frontier, seen.Keys, seen'.Keys, front)
    ensures forall v {:trigger seen'[v]} :: v in seen' ==> seen'[v] == if v in seen then seen[v] else depth
    ensures forall u, d :: HitKey(backwards, u, d) in hits <==> u in frontier && Adjacent(g, u, d) && d in other
    ensures forall u, d :: HitKey(backwards, u, d) in hits ==> hits[HitKey(backwards, u, d)] == Weight(g, u, d)
  {
    seen', front, hits := seen, [], map[];
    var i := 0;
    while i < |frontier|
      invariant i <= |frontier|
      invariant Grown(g, frontier, i, 0, seen, depth, seen', front)
      invariant Gathered(g, frontier, i, 0, other, backwards, hits)
    {
      var vid, j := frontier[i], 0;
      while j < |Arcs(g, vid)|
        invariant j <= |Arcs(g, vid)|
        invariant Grown(g, frontier, i, j, seen, depth, seen', front)
        invariant Gathered(g, frontier, i, j, other, backwards, hits)
      {
        var arc := Arcs(g, vid)[j];
        var key := HitKey(backwards, vid, arc.dst);
        ghost var seen0, front0, hits0 := seen', front, hits;
        if arc.dst in other && key !in hits {
          hits := hits[key := arc.weight];
        }
        GatherArc(g, frontier, i, j, other, backwards, hits0, hits);
        if arc.dst !in seen' {
          seen' := seen'[arc.dst := depth];
          front := front + [arc.dst];
        }
        GrowArc(g, frontier, i, j, seen, depth, seen0, front0, seen', front);
        j := j + 1;
      }
      GatherVertex(g, frontier, i, other, backwards, hits);
      GrowVertex(g, frontier, i, seen, depth, seen', front);
      i := i + 1;
    }
    assert frontier[..i] == frontier;
  }

  lemma GatherArc(g: Graph, frontier: seq<Vertex>, i: nat, j: nat, other: map<Vertex, int>, backwards: bool,
                  hits: map<(Vertex, Vertex), real>, hits': map<(Vertex, Vertex), real>)
    requires Simple(g) && i < |frontier| && j < |Arcs(g, frontier[i])|
    requires Gathered(g, frontier, i, j, other, backwards, hits)
    requires var arc := Arcs(g, frontier[i])[j];
      var key := HitKey(backwards, frontier[i], arc.dst);
      hits' == if arc.dst in other && key !in hits then hits[key := arc.weight] else hits
    ensures Gathered(g, frontier, i, j + 1, other, backwards, hits')
  {
    ArcWeight(g, frontier[i], j);
    forall u, d
      ensures HitKey(backwards, u, d) in hits' <==> Passed(g, frontier, i, j + 1, u, d) && d in other
    {
      PassedArc(g, frontier, i, j, u, d);
    }
  }

  lemma GatherVertex(g: Graph, frontier: seq<Vertex>, i: nat, other: map<Vertex, int>, backwards: bool,
                     hits: map<(Vertex, Vertex), real>)
    requires i < |frontier| && Gathered(g, frontier, i, |Arcs(g, frontier[i])|, other, backwards, hits)
    ensures Gathered(g, frontier, i + 1, 0, other, backwards, hits)
  {
    forall u, d
      ensures HitKey(backwards, u, d) in hits <==> Passed(g, frontier, i + 1, 0, u, d) && d in other
    {
      PassedVertex(g, frontier, i, u, d);
    }
  }

  lemma GrowArc(g: Graph, frontier: seq<Vertex>, i: nat, j: nat, seen: map<Vertex, int>, depth: int,
                seen0: map<Vertex, int>, front0: seq<Vertex>, seen': map<Vertex, int>, front: seq<Vertex>)
    requires i < |frontier| && j < |Arcs(g, frontier[i])| && Grown(g, frontier, i, j, seen, depth, seen0, front0)
    requires var dst := Arcs(g, frontier[i])[j].dst;
      if dst in seen0 then seen' == seen0 && front == front0
      else seen' == seen0[dst := depth] && front == front0 + [dst]
    ensures Grown(g, frontier, i, j + 1, seen, depth, seen', front)
  {
    forall v
      ensures v in seen' <==> v in seen || Scanned(g, frontier, i, j + 1, v)
    {
      ScannedArc(g, frontier, i, j, v);
    }
  }

  lemma GrowVertex(g: Graph, frontier: seq<Vertex>, i: nat, seen: map<Vertex, int>, depth: int,
                   seen': map<Vertex, int>, front: seq<Vertex>)
    requires i < |frontier| && Grown(g, frontier, i, |Arcs(g, frontier[i])|, seen, depth, seen', front)
    ensures Grown(g, frontier, i + 1, 0, seen, depth, seen', front)
  {
    forall v
      ensures v in seen' <==> v in seen || Scanned(g, frontier, i + 1, 0, v)
    {
      ScannedVertex(g, frontier, i, v);
    }
  }

  /** A side that is `k` steps out from `u` and has the depth of everything it has seen. */
  ghost predicate Searched(g: Graph, u: Vertex, k: nat, depth: map<Vertex, int>, frontier: seq<Vertex>) {
    && Side(g, u, k, depth.Keys, frontier) && Depths(g, u, k, depth)
    && (forall v {:trigger depth[v]} :: v in depth ==> 0 <= depth[v] <= k)
  }

  lemma SearchedStart(g: Graph, u: Vertex)
    ensures Searched(g, u, 0, map[u := 0], [u])
  {
    SideStart(g, u);
    var depth: map<Vertex, int> := map[u := 0];
    assert depth.Keys == {u};
    WithinZero(g, u);
  }

  lemma SearchedGrows(g: Graph, u: Vertex, k: nat, seen: map<Vertex, int>, frontier: seq<Vertex>,
                      seen': map<Vertex, int>, front: seq<Vertex>)
    requires Symmetric(g) && Searched(g, u, k, seen, frontier) && Round(g, frontier, seen.Keys, seen'.Keys, front)
    requires forall v {:trigger seen'[v]} :: v in seen' ==> seen'[v] == if v in seen then seen[v] else k + 1
    ensures Searched(g, u, k + 1, seen', front)
    ensures front == [] || |seen.Keys| < |seen'.Keys|
  {
    SideGrows(g, u, k, seen.Keys, frontier, seen'.Keys, front);
    DepthsGrow(g, u, k, seen, frontier, seen', front);
  }

  lemma DepthsGrow(g: Graph, u: Vertex, k: nat, seen: map<Vertex, int>, frontier: seq<Vertex>,
                   seen': map<Vertex, int>, front: seq<Vertex>)
    requires Searched(g, u, k, seen, frontier) && Level(g, u, k + 1, front)
    requires forall v :: v in seen' <==> v in seen || NextTo(g, frontier, v)
    requires forall v :: v in front <==> v in seen' && v !in seen
    requires forall v {:trigger seen'[v]} :: v in seen' ==> seen'[v] == if v in seen then seen[v] else k + 1
    ensures Depths(g, u, k + 1, seen')
  {
    hide AtDistance, NextTo;
    forall v, m: int | 0 <= m <= k + 1
      ensures (v in seen' && seen'[v] == m) <==> AtDistance(g, u, v, m)
    {
      if m <= k {
        assert (v in seen && seen[v] == m) <==> AtDistance(g, u, v, m);
      } else {
        assert v in front <==> AtDistance(g, u, v, k + 1);
      }
    }
  }

  /** The middle edges of the shortest walks. */
  ghost predicate Middle(g: Graph, from: Vertex, to: Vertex, f: nat, b: nat, pairs: set<(Vertex, Vertex)>) {
    forall v: Vertex, w: Vertex :: (v, w) in pairs
       <==> AtDistance(g, from, v, f) && AtDistance(g, to, w, b) && Adjacent(g, v, w)
  }

  lemma ForwardHits(g: Graph, from: Vertex, to: Vertex, f: nat, b: nat, parent: map<Vertex, int>, forward: seq<Vertex>,
                    child: map<Vertex, int>, backward: seq<Vertex>, pairs: set<(Vertex, Vertex)>)
    requires Symmetric(g) && Searched(g, from, f, parent, forward) && Searched(g, to, b, child, backward)
    requires !Within(g, from, to, f + b)
    requires forall u: Vertex, d: Vertex :: (u, d) in pairs <==> u in forward && Adjacent(g, u, d) && d in child
    ensures Middle(g, from, to, f, b, pairs)
    ensures pairs != {} <==> Within(g, from, to, f + b + 1)
  {
    forall v: Vertex, w: Vertex | (v, w) in pairs
      ensures AtDistance(g, from, v, f) && AtDistance(g, to, w, b)
    {
      MiddleEdge(g, from, to, f, b, v, w);
    }
    Meeting(g, from, to, f, b, forward, child.Keys);
    if p :| p in pairs {
      assert (p.0, p.1) in pairs;
      MiddleEdge(g, from, to, f, b, p.0, p.1);
    }
    if Within(g, from, to, f + b + 1) {
      var w :| NextTo(g, forward, w) && w in child;
      PassedScanned(g, forward, w);
      var u :| u in forward && Adjacent(g, u, w);
      assert (u, w) in pairs;
    }
  }

  /** An edge over which the two sides meet: no other edge could be as far out. */
  lemma MiddleEdge(g: Graph, from: Vertex, to: Vertex, f: nat, b: nat, v: Vertex, w: Vertex)
    requires Symmetric(g) && !Within(g, from, to, f + b)
    requires Within(g, from, v, f) && Within(g, to, w, b) && Adjacent(g, v, w)
    ensures AtDistance(g, to, w, b) && Within(g, from, to, f + b + 1)
  {
    WithinStep(g, from, v, w, f);
    WithinSymmetric(g, to, w, b);
    WithinJoin(g, from, w, to, f + 1, b);
    if Within(g, to, w, b - 1) {
      WithinSymmetric(g, to, w, b - 1);
      WithinJoin(g, from, w, to, f + 1, b - 1);
    }
  }

  lemma BackwardHits(g: Graph, from: Vertex, to: Vertex, f: nat, b: nat, parent: map<Vertex, int>, forward: seq<Vertex>,
                     child: map<Vertex, int>, backward: seq<Vertex>, pairs: set<(Vertex, Vertex)>)
    requires Symmetric(g) && Searched(g, from, f, parent, forward) && Searched(g, to, b, child, backward)
    requires !Within(g, from, to, f + b)
    requires forall u: Vertex, d: Vertex :: (d, u) in pairs <==> u in backward && Adjacent(g, u, d) && d in parent
    ensures Middle(g, from, to, f, b, pairs)
    ensures pairs != {} <==> Within(g, from, to, f + b + 1)
  {
    var turned := set p | p in pairs :: (p.1, p.0);
    forall u: Vertex, d: Vertex
      ensures (u, d) in turned <==> (d, u) in pairs
    {
      if (d, u) in pairs {
        var p := (d, u);
        assert (p.1, p.0) in turned;
      }
    }
    WithinBothWays(g, from, to);
    ForwardHits(g, to, from, b, f, child, backward, parent, forward, turned);
    if p :| p in pairs {
      assert (p.1, p.0) in turned;
    }
    if p :| p in turned {
      assert (p.1, p.0) in pairs;
    }
    forall v: Vertex, w: Vertex
      ensures (v, w) in pairs <==> AtDistance(g, from, v, f) && AtDistance(g, to, w, b) && Adjacent(g, v, w)
    {
      assert (v, w) in pairs <==> (w, v) in turned;
    }
  }

  /** What the search leaves behind for distinct ends: nothing within `maxHops`, or exactly
      the middle edges of the shortest walks. */
  ghost predicate Outcome(g: Graph, from: Vertex, to: Vertex, maxHops: int, f: nat, b: nat,
                          hits: map<(Vertex, Vertex), real>) {
    if hits == map[] then !Within(g, from, to, maxHops)
    else f + b + 1 <= maxHops && AtDistance(g, from, to, f + b + 1) && Middle(g, from, to, f, b, hits.Keys)
  }

  /** The depths cover the descents that start at the hits. */
  ghost predicate Usable(g: Graph, from: Vertex, to: Vertex, f: nat, b: nat, parent: map<Vertex, int>,
                         child: map<Vertex, int>, hits: map<(Vertex, Vertex), real>) {
    && Depths(g, from, f, parent) && Depths(g, to, b, child)
    && (forall v: Vertex, w: Vertex :: (v, w) in hits ==>
          v in parent && w in child && 0 <= parent[v] && 0 <= child[w] && hits[(v, w)] == Weight(g, v, w))
  }

  lemma ForwardRoundAll(g: Graph, from: Vertex, to: Vertex, maxHops: int, f: nat, b: nat, parent: map<Vertex, int>,
                        forward: seq<Vertex>, child: map<Vertex, int>, backward: seq<Vertex>,
                        parent': map<Vertex, int>, front: seq<Vertex>, hits: map<(Vertex, Vertex), real>)
    requires SymmetricWeights(g) && Searched(g, from, f, parent, forward) && Searched(g, to, b, child, backward)
    requires Round(g, forward, parent.Keys, parent'.Keys, front)
    requires forall v {:trigger parent'[v]} :: v in parent' ==> parent'[v] == if v in parent then parent[v] else f + 1
    requires forall u: Vertex, d: Vertex :: (u, d) in hits <==> u in forward && Adjacent(g, u, d) && d in child
    requires forall u: Vertex, d: Vertex :: (u, d) in hits ==> hits[(u, d)] == Weight(g, u, d)
    ensures Searched(g, from, f + 1, parent', front) && Usable(g, from, to, f, b, parent', child, hits)
    ensures front != [] ==>
      0 <= Unseen(g, from, to, parent'.Keys, child.Keys) < Unseen(g, from, to, parent.Keys, child.Keys)
    ensures f + b + 1 <= maxHops && !Within(g, from, to, f + b) && (hits != map[] || front == []) ==>
      Outcome(g, from, to, maxHops, f, b, hits)
    ensures !Within(g, from, to, f + b) && hits == map[] ==> !Within(g, from, to, f + b + 1)
  {
    SearchedGrows(g, from, f, parent, forward, parent', front);
    SideBound(g, from, to, parent'.Keys, child.Keys);
    if !Within(g, from, to, f + b) {
      ForwardHits(g, from, to, f, b, parent, forward, child, backward, hits.Keys);
      if front == [] && hits == map[] && Within(g, from, to, maxHops) {
        SideDone(g, from, f, forward, parent.Keys, parent'.Keys, to, maxHops);
      }
    }
    forall v: Vertex, w: Vertex | (v, w) in hits
      ensures v in parent' && 0 <= parent'[v]
    {
      assert v in parent;
    }
  }

  lemma BackwardRoundAll(g: Graph, from: Vertex, to: Vertex, maxHops: int, f: nat, b: nat, parent: map<Vertex, int>,
                         forward: seq<Vertex>, child: map<Vertex, int>, backward: seq<Vertex>,
                         child': map<Vertex, int>, front: seq<Vertex>, hits: map<(Vertex, Vertex), real>)
    requires SymmetricWeights(g) && Searched(g, from, f, parent, forward) && Searched(g, to, b, child, backward)
    requires Round(g, backward, child.Keys, child'.Keys, front)
    requires forall v {:trigger child'[v]} :: v in child' ==> child'[v] == if v in child then child[v] else b + 1
    requires forall u: Vertex, d: Vertex :: (d, u) in hits <==> u in backward && Adjacent(g, u, d) && d in parent
    requires forall u: Vertex, d: Vertex :: (d, u) in hits ==> hits[(d, u)] == Weight(g, u, d)
    ensures Searched(g, to, b + 1, child', front) && Usable(g, from, to, f, b, parent, child', hits)
    ensures front != [] ==>
      0 <= Unseen(g, from, to, parent.Keys, child'.Keys) < Unseen(g, from, to, parent.Keys, child.Keys)
    ensures f + b + 1 <= maxHops && !Within(g, from, to, f + b) && (hits != map[] || front == []) ==>
      Outcome(g, from, to, maxHops, f, b, hits)
    ensures !Within(g, from, to, f + b) && hits == map[] ==> !Within(g, from, to, f + b + 1)
  {
    SearchedGrows(g, to, b, child, backward, child', front);
    SideBound(g, from, to, parent.Keys, child'.Keys);
    if !Within(g, from, to, f + b) {
      BackwardHits(g, from, to, f, b, parent, forward, child, backward, hits.Keys);
      if front == [] && hits == map[] && Within(g, from, to, maxHops) {
        WithinBothWays(g, from, to);
        SideDone(g, to, b, backward, child.Keys, child'.Keys, from, maxHops);
      }
    }
    forall v: Vertex, w: Vertex | (v, w) in hits
      ensures w in child' && 0 <= child'[w]
    {
      assert w in child;
    }
  }

  lemma ForwardKeys(g: Graph, forward: seq<Vertex>, child: map<Vertex, int>, hits: map<(Vertex, Vertex), real>)
    requires forall u, d :: HitKey(false, u, d) in hits <==> u in forward && Adjacent(g, u, d) && d in child
    requires forall u, d :: HitKey(false, u, d) in hits ==> hits[HitKey(false, u, d)] == Weight(g, u, d)
    ensures forall u: Vertex, d: Vertex :: (u, d) in hits <==> u in forward && Adjacent(g, u, d) && d in child
    ensures forall u: Vertex, d: Vertex :: (u, d) in hits ==> hits[(u, d)] == Weight(g, u, d)
  {
    assert forall u: Vertex, d: Vertex :: HitKey(false, u, d) == (u, d);
  }

  lemma BackwardKeys(g: Graph, backward: seq<Vertex>, parent: map<Vertex, int>, hits: map<(Vertex, Vertex), real>)
    requires forall u, d :: HitKey(true, u, d) in hits <==> u in backward && Adjacent(g, u, d) && d in parent
    requires forall u, d :: HitKey(true, u, d) in hits ==> hits[HitKey(true, u, d)] == Weight(g, u, d)
    ensures forall u: Vertex, d: Vertex :: (d, u) in hits <==> u in backward && Adjacent(g, u, d) && d in parent
    ensures forall u: Vertex, d: Vertex :: (d, u) in hits ==> hits[(d, u)] == Weight(g, u, d)
  {
    assert forall u: Vertex, d: Vertex :: HitKey(true, u, d) == (d, u);
  }

  lemma UsableEmpty(g: Graph, from: Vertex, to: Vertex, f: nat, b: nat, parent: map<Vertex, int>, forward: seq<Vertex>,
                    child: map<Vertex, int>, backward: seq<Vertex>)
    requires Searched(g, from, f, parent, forward) && Searched(g, to, b, child, backward)
    ensures Usable(g, from, to, f, b, parent, child, map[])
  {
  }

  lemma OutOfHops(g: Graph, from: Vertex, to: Vertex, maxHops: int, f: nat, b: nat, hits: map<(Vertex, Vertex), real>,
                  hops: int)
    ensures from != to ==> !Within(g, from, to, 0)
    ensures hits == map[] && !Within(g, from, to, hops) && (hops == maxHops || (hops == 0 && maxHops < 0)) ==>
      Outcome(g, from, to, maxHops, f, b, hits)
  {
    WithinZero(g, from);
  }

  /** The first loop: rounds from the smaller side until one has hits, which it completes. */
  method Search(g: Graph, from: Vertex, to: Vertex, maxHops: int)
    returns (parent: map<Vertex, int>, child: map<Vertex, int>, hits: map<(Vertex, Vertex), real>,
             ghost f: nat, ghost b: nat)
    requires SymmetricWeights(g) && Simple(g)
    ensures Usable(g, from, to, f, b, parent, child, hits)
    ensures from != to ==> Outcome(g, from, to, maxHops, f, b, hits)
    ensures maxHops < 0 ==> hits == map[]
  {
    hide *;
    parent, child, hits, f, b := map[from := 0], map[to := 0], map[], 0, 0;
    var forward, backward := [from], [to];
    var hops, psp, fhops, bhops := 0, maxHops, 0, 0;
    SearchedStart(g, from);
    SearchedStart(g, to);
    OutOfHops(g, from, to, maxHops, f, b, hits, hops);
    UsableEmpty(g, from, to, f, b, parent, forward, child, backward);
    while hops < if psp < maxHops then psp else maxHops
      invariant 0 <= fhops && 0 <= bhops && hops == fhops + bhops
      invariant Searched(g, from, fhops, parent, forward) && Searched(g, to, bhops, child, backward)
      invariant Usable(g, from, to, f, b, parent, child, hits)
      invariant hits == map[] ==> psp == maxHops && f == fhops && b == bhops && (hops <= maxHops || hops == 0)
      invariant hits == map[] && from != to ==> !Within(g, from, to, hops)
      invariant hits != map[] ==> psp == hops && 0 <= maxHops
      invariant hits != map[] && from != to ==> Outcome(g, from, to, maxHops, f, b, hits)
      decreases Unseen(g, from, to, parent.Keys, child.Keys)
    {
      hops := hops + 1;
      var front;
      if |forward| <= |backward| {
        fhops := fhops + 1;
        var parent';
        parent', front, hits := ExpandAll(g, forward, parent, child, fhops, false);
        ForwardKeys(g, forward, child, hits);
        ForwardRoundAll(g, from, to, maxHops, f, b, parent, forward, child, backward, parent', front, hits);
        parent, forward := parent', front;
      } else {
        bhops := bhops + 1;
        var child';
        child', front, hits := ExpandAll(g, backward, child, parent, bhops, true);
        BackwardKeys(g, backward, parent, hits);
        BackwardRoundAll(g, from, to, maxHops, f, b, parent, forward, child, backward, child', front, hits);
        child, backward := child', front;
      }
      if hits != map[] {
        psp := hops;
      }
      if front == [] {
        break;
      }
      if hits == map[] {
        f, b := fhops, bhops;
        UsableEmpty(g, from, to, f, b, parent, forward, child, backward);
      }
    }
    OutOfHops(g, from, to, maxHops, f, b, hits, hops);
  }

  // ---------------------------------------------------------------------------
  // Spelling out the routes.

  /** A route continued from a path already walked, turned round on one of the two sides. */
  function ContinuedOne(prefix: seq<Vertex>, w: real, route: Route, backwards: bool): Route {
    Route(w + route.weight, if backwards then Reversed(prefix + route.path) else prefix + route.path)
  }

  function Continued(prefix: seq<Vertex>, w: real, routes: seq<Route>, backwards: bool): seq<Route> {
    seq(|routes|, i requires 0 <= i < |routes| => ContinuedOne(prefix, w, routes[i], backwards))
  }

  lemma ContinuedConcat(prefix: seq<Vertex>, w: real, a: seq<Route>, b: seq<Route>, backwards: bool)
    ensures Continued(prefix, w, a + b, backwards)
         == Continued(prefix, w, a, backwards) + Continued(prefix, w, b, backwards)
  {
  }

  lemma ContinuedOneStep(prefix: seq<Vertex>, w: real, v: Vertex, x: real, route: Route, backwards: bool)
    ensures ContinuedOne(prefix, w, Route(x + route.weight, [v] + route.path), backwards)
         == ContinuedOne(prefix + [v], w + x, route, backwards)
  {
    assert prefix + ([v] + route.path) == prefix + [v] + route.path;
  }

  lemma ContinuedPrepend(prefix: seq<Vertex>, w: real, v: Vertex, x: real, routes: seq<Route>, backwards: bool)
    ensures Continued(prefix, w, Prepend(v, x, routes), backwards) == Continued(prefix + [v], w + x, routes, backwards)
  {
    hide ContinuedOne;
    forall i | 0 <= i < |routes|
      ensures Continued(prefix, w, Prepend(v, x, routes), backwards)[i]
           == Continued(prefix + [v], w + x, routes, backwards)[i]
    {
      ContinuedOneStep(prefix, w, v, x, routes[i], backwards);
    }
  }

  lemma ContinuedFromScratch(routes: seq<Route>, backwards: bool)
    ensures !backwards ==> Continued([], 0.0, routes, false) == routes
    ensures |Continued([], 0.0, routes, backwards)| == |routes|
    ensures backwards ==> forall i :: 0 <= i < |routes| ==>
      Continued([], 0.0, routes, true)[i] == Route(routes[i].weight, Reversed(routes[i].path))
  {
    forall i | 0 <= i < |routes|
      ensures [] + routes[i].path == routes[i].path
    {
    }
  }

  lemma VisitLeaf(g: Graph, depth: map<Vertex, int>, v: Vertex, prefix: seq<Vertex>, w: real, backwards: bool)
    ensures Continued(prefix, w, Descents(g, depth, v, 0), backwards)
         == [Route(w, if backwards then Reversed(prefix + [v]) else prefix + [v])]
  {
  }

  lemma VisitArcs(g: Graph, depth: map<Vertex, int>, v: Vertex, deep: nat, prefix: seq<Vertex>, w: real,
                  backwards: bool)
    requires deep > 0
    ensures Continued(prefix, w, DescentsVia(g, depth, v, deep, 0), backwards) == []
    ensures Descents(g, depth, v, deep) == DescentsVia(g, depth, v, deep, |Arcs(g, v)|)
  {
  }

  /** What the calls for the first `j` arcs and for the next one have found together. */
  lemma VisitArc(g: Graph, depth: map<Vertex, int>, v: Vertex, deep: nat, j: nat, prefix: seq<Vertex>, w: real,
                 backwards: bool)
    requires deep > 0 && j < |Arcs(g, v)|
    ensures var arc := Arcs(g, v)[j];
      Continued(prefix, w, DescentsVia(g, depth, v, deep, j + 1), backwards)
      == Continued(prefix, w, DescentsVia(g, depth, v, deep, j), backwards)
         + if Below(depth, arc.dst, deep)
           then Continued(prefix + [v], w + arc.weight, Descents(g, depth, arc.dst, deep - 1), backwards) else []
  {
    hide Continued, Descents, Prepend;
    var arc, before := Arcs(g, v)[j], DescentsVia(g, depth, v, deep, j);
    if Below(depth, arc.dst, deep) {
      var more := Descents(g, depth, arc.dst, deep - 1);
      assert DescentsVia(g, depth, v, deep, j + 1) == before + Prepend(v, arc.weight, more);
      ContinuedTwice(prefix, w, v, arc.weight, before, more, backwards);
    } else {
      assert DescentsVia(g, depth, v, deep, j + 1) == before;
      assert Continued(prefix, w, before, backwards) == Continued(prefix, w, before, backwards) + [];
    }
  }

  lemma ContinuedTwice(prefix: seq<Vertex>, w: real, v: Vertex, x: real, before: seq<Route>, more: seq<Route>,
                       backwards: bool)
    ensures Continued(prefix, w, before + Prepend(v, x, more), backwards)
         == Continued(prefix, w, before, backwards) + Continued(prefix + [v], w + x, more, backwards)
  {
    hide *;
    ContinuedPrepend(prefix, w, v, x, more, backwards);
    ContinuedConcat(prefix, w, before, Prepend(v, x, more), backwards);
  }

  /** The recursive search over a path that all its calls push to and pop from. */
  class DepthFirst {
    const g: Graph
    const depth: map<Vertex, int>
    const backwards: bool
    var path: seq<Vertex>
    var found: seq<Route>

    constructor (g: Graph, depth: map<Vertex, int>, backwards: bool)
      ensures this.g == g && this.depth == depth && this.backwards == backwards
      ensures path == [] && found == []
    {
      this.g, this.depth, this.backwards := g, depth, backwards;
      path, found := [], [];
    }

    /** Record every descent from `vid`, and leave the path as it was. */
    method Visit(vid: Vertex, deep: nat, weight: real)
      modifies this
      ensures path == old(path)
      ensures found == old(found) + Continued(old(path), weight, Descents(g, depth, vid, deep), backwards)
      decreases deep
    {
      hide *;
      path := path + [vid];
      if deep > 0 {
        var j := 0;
        VisitArcs(g, depth, vid, deep, old(path), weight, backwards);
        while j < |Arcs(g, vid)|
          invariant j <= |Arcs(g, vid)|
          invariant path == old(path) + [vid]
          invariant found == old(found) + Continued(old(path), weight, DescentsVia(g, depth, vid, deep, j), backwards)
        {
          var arc := Arcs(g, vid)[j];
          VisitArc(g, depth, vid, deep, j, old(path), weight, backwards);
          if Below(depth, arc.dst, deep) {
            Visit(arc.dst, deep - 1, weight + arc.weight);
          }
          j := j + 1;
        }
      } else {
        VisitLeaf(g, depth, vid, old(path), weight, backwards);
        found := found + [Route(weight, if backwards then Reversed(path) else path)];
      }
      path := path[..|path| - 1];
    }
  }

  /** `routes` is the answer: every shortest path of at most `k` edges exactly once, with the
      sum of its edge weights, and nothing else. */
  ghost predicate AllShortest(g: Graph, u: Vertex, v: Vertex, k: int, routes: seq<Route>) {
    Lists(g, routes, iset p | Walk(g, p, u, v) && |p| - 1 <= k && forall q :: Walk(g, q, u, v) ==> |p| <= |q|)
  }

  /** The walks over the hits that have been spelled out. */
  ghost function Spelled(g: Graph, from: Vertex, to: Vertex, f: nat, b: nat,
                         pairs: set<(Vertex, Vertex)>): iset<seq<Vertex>> {
    iset p | p in Walks(g, from, to, f + b + 1) && (p[f], p[f + 1]) in pairs
  }

  lemma SpelledPairs(g: Graph, from: Vertex, to: Vertex, f: nat, b: nat, v: Vertex, w: Vertex)
    requires Adjacent(g, v, w)
    ensures Spelled(g, from, to, f, b, {(v, w)}) == Pairs(Walks(g, from, v, f), Walks(g, w, to, b), f + 1)
  {
    WalksOver(g, from, to, f, v, w, b);
  }

  /** The routes over one hit. */
  lemma SpellHit(g: Graph, from: Vertex, to: Vertex, f: nat, b: nat, parent: map<Vertex, int>, child: map<Vertex, int>,
                 v: Vertex, w: Vertex, fs: seq<Route>, bs: seq<Route>)
    requires SymmetricWeights(g) && Simple(g) && Depths(g, from, f, parent) && Depths(g, to, b, child)
    requires AtDistance(g, from, v, f) && AtDistance(g, to, w, b) && Adjacent(g, v, w)
    requires fs == Continued([], 0.0, Descents(g, parent, v, f), true)
    requires bs == Continued([], 0.0, Descents(g, child, w, b), false)
    ensures Lists(g, Joined(fs, bs, Weight(g, v, w)), Spelled(g, from, to, f, b, {(v, w)}))
  {
    hide Depths, AtDistance, Lists, Descents, Joined, Spelled, Pairs, Symmetric, Simple, Continued, Weight;
    DescentsExact(g, parent, from, f, v, f);
    DescentsExact(g, child, to, b, w, b);
    ContinuedFromScratch(Descents(g, parent, v, f), true);
    ContinuedFromScratch(Descents(g, child, w, b), false);
    ReversedExact(g, Descents(g, parent, v, f), fs, v, from, f);
    JoinedExact(g, fs, Walks(g, from, v, f), bs, Walks(g, w, to, b), f + 1, v, w);
    SpelledPairs(g, from, to, f, b, v, w);
  }

  ghost predicate Proper(routes: seq<Route>) {
    forall i {:trigger routes[i]} :: 0 <= i < |routes| ==> |routes[i].path| >= 2
  }

  lemma {:induction false} DescentsNonempty(g: Graph, depth: map<Vertex, int>, v: Vertex, deep: nat, i: nat)
    requires i < |Descents(g, depth, v, deep)|
    ensures Descents(g, depth, v, deep)[i].path != []
    decreases deep, 0
  {
    if deep > 0 {
      DescentsViaNonempty(g, depth, v, deep, |Arcs(g, v)|, i);
    }
  }

  lemma {:induction false} DescentsViaNonempty(g: Graph, depth: map<Vertex, int>, v: Vertex, deep: nat, j: nat, i: nat)
    requires deep > 0 && j <= |Arcs(g, v)| && i < |DescentsVia(g, depth, v, deep, j)|
    ensures DescentsVia(g, depth, v, deep, j)[i].path != []
    decreases deep - 1, j + 1
  {
    if j > 0 && i < |DescentsVia(g, depth, v, deep, j - 1)| {
      DescentsViaNonempty(g, depth, v, deep, j - 1, i);
    }
  }

  lemma {:induction false} JoinedProper(fs: seq<Route>, bs: seq<Route>, w: real)
    requires forall i :: 0 <= i < |fs| ==> fs[i].path != []
    requires forall i :: 0 <= i < |bs| ==> bs[i].path != []
    ensures Proper(Joined(fs, bs, w))
  {
    if fs != [] {
      JoinedProper(fs[..|fs| - 1], bs, w);
    }
  }

  /** The routes over a hit, whatever its depths are, have both of its ends. */
  lemma HitProper(g: Graph, parent: map<Vertex, int>, child: map<Vertex, int>, v: Vertex, deep: nat, w: Vertex,
                  deep': nat, fs: seq<Route>, bs: seq<Route>, x: real)
    requires fs == Continued([], 0.0, Descents(g, parent, v, deep), true)
    requires bs == Continued([], 0.0, Descents(g, child, w, deep'), false)
    ensures Proper(Joined(fs, bs, x))
  {
    forall i | 0 <= i < |fs|
      ensures fs[i].path != []
    {
      DescentsNonempty(g, parent, v, deep, i);
    }
    forall i | 0 <= i < |bs|
      ensures bs[i].path != []
    {
      DescentsNonempty(g, child, w, deep', i);
    }
    JoinedProper(fs, bs, x);
  }

  lemma ProperConcat(a: seq<Route>, b: seq<Route>)
    requires Proper(a) && Proper(b)
    ensures Proper(a + b)
  {
  }

  lemma HitUsable(g: Graph, from: Vertex, to: Vertex, f: nat, b: nat, parent: map<Vertex, int>, child: map<Vertex, int>,
                  hits: map<(Vertex, Vertex), real>, v: Vertex, w: Vertex)
    requires Usable(g, from, to, f, b, parent, child, hits) && (v, w) in hits
    ensures v in parent && w in child && 0 <= parent[v] && 0 <= child[w] && hits[(v, w)] == Weight(g, v, w)
  {
  }

  /** Spelling out one more hit. */
  lemma SpellMore(g: Graph, from: Vertex, to: Vertex, maxHops: int, f: nat, b: nat, parent: map<Vertex, int>,
                  child: map<Vertex, int>, hits: map<(Vertex, Vertex), real>, done: set<(Vertex, Vertex)>,
                  v: Vertex, w: Vertex, routes: seq<Route>, fs: seq<Route>, bs: seq<Route>)
    requires SymmetricWeights(g) && Simple(g)
    requires Usable(g, from, to, f, b, parent, child, hits) && Outcome(g, from, to, maxHops, f, b, hits)
    requires (v, w) in hits && (v, w) !in done && v in parent && w in child && 0 <= parent[v] && 0 <= child[w]
    requires fs == Continued([], 0.0, Descents(g, parent, v, parent[v]), true)
    requires bs == Continued([], 0.0, Descents(g, child, w, child[w]), false)
    requires Lists(g, routes, Spelled(g, from, to, f, b, done))
    ensures Lists(g, routes + Joined(fs, bs, Weight(g, v, w)), Spelled(g, from, to, f, b, done + {(v, w)}))
  {
    hide Lists, Joined, Descents, Continued, Simple, Symmetric, Weight, AtDistance;
    assert AtDistance(g, from, v, f) && AtDistance(g, to, w, b) && Adjacent(g, v, w);
    assert parent[v] == f && child[w] == b;
    SpellHit(g, from, to, f, b, parent, child, v, w, fs, bs);
    ListsConcat(g, routes, Spelled(g, from, to, f, b, done), Joined(fs, bs, Weight(g, v, w)),
        Spelled(g, from, to, f, b, {(v, w)}));
    assert Spelled(g, from, to, f, b, done) + Spelled(g, from, to, f, b, {(v, w)})
         == Spelled(g, from, to, f, b, done + {(v, w)});
  }

  /** With all hits spelled out, every shortest path is there. */
  lemma AllSpelled(g: Graph, from: Vertex, to: Vertex, maxHops: int, f: nat, b: nat,
                   hits: map<(Vertex, Vertex), real>, routes: seq<Route>)
    requires SymmetricWeights(g) && Outcome(g, from, to, maxHops, f, b, hits)
    requires Lists(g, routes, Spelled(g, from, to, f, b, hits.Keys))
    ensures AllShortest(g, from, to, maxHops, routes)
  {
    hide Lists;
    var answer :=
      iset p | Walk(g, p, from, to) && |p| - 1 <= maxHops && forall q :: Walk(g, q, from, to) ==> |p| <= |q|;
    if hits == map[] {
      assert answer == iset{} == Spelled(g, from, to, f, b, hits.Keys);
    } else {
      forall p
        ensures p in answer <==> p in Spelled(g, from, to, f, b, hits.Keys)
      {
        ShortestWalk(g, from, to, maxHops, f, b, hits, p);
      }
      assert answer == Spelled(g, from, to, f, b, hits.Keys);
    }
  }

  lemma ShortestWalk(g: Graph, from: Vertex, to: Vertex, maxHops: int, f: nat, b: nat,
                     hits: map<(Vertex, Vertex), real>, p: seq<Vertex>)
    requires Symmetric(g) && Outcome(g, from, to, maxHops, f, b, hits) && hits != map[]
    ensures (Walk(g, p, from, to) && |p| - 1 <= maxHops && forall q :: Walk(g, q, from, to) ==> |p| <= |q|)
       <==> p in Spelled(g, from, to, f, b, hits.Keys)
  {
    var k := f + b + 1;
    var r :| Walk(g, r, from, to) && |r| - 1 <= k;
    forall q | Walk(g, q, from, to)
      ensures k <= |q| - 1
    {
      assert |q| - 1 <= k - 1 ==> Within(g, from, to, k - 1);
    }
    if p in Walks(g, from, to, k) {
      WalkSlice(g, p, from, to, 0, f + 1);
      WalkSlice(g, p, from, to, f + 1, |p|);
      assert Within(g, from, p[f], f) && Within(g, p[f + 1], to, b);
      assert Adjacent(g, p[f], p[f + 1]);
      WithinSymmetric(g, p[f + 1], to, b);
      MiddleEdge(g, from, to, f, b, p[f], p[f + 1]);
      WithinBothWays(g, from, to);
      assert Adjacent(g, p[f + 1], p[f]);
      MiddleEdge(g, to, from, b, f, p[f + 1], p[f]);
      assert (p[f], p[f + 1]) in hits.Keys;
    }
  }

  /** From a vertex to itself the only shortest path is the vertex, which is never listed. */
  lemma SameEnds(g: Graph, v: Vertex, k: int, routes: seq<Route>)
    requires Proper(routes) && (k < 0 ==> routes == [])
    ensures AllShortest(g, v, v, k, routes) <==> k < 0
  {
    var answer := iset p | Walk(g, p, v, v) && |p| - 1 <= k && forall q :: Walk(g, q, v, v) ==> |p| <= |q|;
    if k < 0 {
      assert answer == iset{};
    } else {
      assert Walk(g, [v], v, v) && [v] in answer;
      assert !Found(routes, [v]);
    }
  }

  lemma JoinedGrows(fs: seq<Route>, bs: seq<Route>, w: real, i: nat)
    requires i < |fs|
    ensures Joined(fs[..i + 1], bs, w) == Joined(fs[..i], bs, w) + JoinOne(fs[i], bs, w)
  {
    assert fs[..i + 1][..i] == fs[..i];
  }

  /** All shortest paths.  The answer is right for distinct ends; for equal ends it is right
      only when not even the path without edges is allowed. */
  method PairwiseShortestPaths(g: Graph, from: Vertex, to: Vertex, maxHops: int) returns (paths: seq<Route>)
    requires SymmetricWeights(g) && Simple(g)
    ensures AllShortest(g, from, to, maxHops, paths) <==> from != to || maxHops < 0
  {
    hide AllShortest, Usable, Outcome, Lists, Spelled, SymmetricWeights, Simple, Proper, Continued, Descents, Weight;
    var parent, child, hits, f, b := Search(g, from, to, maxHops);
    paths := [];
    var todo := hits.Keys;
    ListsEmpty(g);
    NothingSpelled(g, from, to, f, b);
    assert hits.Keys - todo == {};
    while todo != {}
      invariant todo <= hits.Keys
      invariant Proper(paths) && (maxHops < 0 ==> paths == [])
      invariant from != to ==> Lists(g, paths, Spelled(g, from, to, f, b, hits.Keys - todo))
    {
      var hit :| hit in todo;
      assert hit == (hit.0, hit.1);
      HitUsable(g, from, to, f, b, parent, child, hits, hit.0, hit.1);
      var fdfs := new DepthFirst(g, parent, true);
      fdfs.Visit(hit.0, parent[hit.0], 0.0);
      var bdfs := new DepthFirst(g, child, false);
      bdfs.Visit(hit.1, child[hit.1], 0.0);
      var fs, bs, w := fdfs.found, bdfs.found, hits[hit];
      var joined := CrossProduct(fs, bs, w);
      HitProper(g, parent, child, hit.0, parent[hit.0], hit.1, child[hit.1], fs, bs, w);
      ProperConcat(paths, joined);
      if from != to {
        SpellMore(g, from, to, maxHops, f, b, parent, child, hits, hits.Keys - todo, hit.0, hit.1, paths, fs, bs);
        assert hits.Keys - todo + {hit} == hits.Keys - (todo - {hit});
      }
      paths := paths + joined;
      todo := todo - {hit};
    }
    if from != to {
      assert hits.Keys - todo == hits.Keys;
      AllSpelled(g, from, to, maxHops, f, b, hits, paths);
    } else {
      SameEnds(g, from, maxHops, paths);
    }
  }

  lemma NothingSpelled(g: Graph, from: Vertex, to: Vertex, f: nat, b: nat)
    ensures Spelled(g, from, to, f, b, {}) == iset{} && Proper([])
  {
  }

  method CrossProduct(fs: seq<Route>, bs: seq<Route>, w: real) returns (joined: seq<Route>)
    ensures joined == Joined(fs, bs, w)
  {
    joined := [];
    var i := 0;
    while i < |fs|
      invariant i <= |fs| && joined == Joined(fs[..i], bs, w)
    {
      var j := 0;
      while j < |bs|
        invariant j <= |bs| && joined == Joined(fs[..i], bs, w) + JoinOne(fs[i], bs, w)[..j]
      {
        joined := joined + [Route(fs[i].weight + bs[j].weight + w, fs[i].path + bs[j].path)];
        j := j + 1;
      }
      JoinedGrows(fs, bs, w, i);
      i := i + 1;
    }
    assert fs[..i] == fs;
  }
}
