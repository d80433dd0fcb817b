/** Weighted routes, and the depth-first enumeration of all descents to the root of a
    breadth-first search. */
module Routes {
  import opened Graphs
  import opened Sequences

  datatype Route = Route(weight: real, path: seq<Vertex>)

  /** No two arcs of a vertex lead to the same vertex. */
  ghost predicate Simple(g: Graph) {
    forall u, i, j {:trigger Arcs(g, u)[i], Arcs(g, u)[j]} :: 0 <= i < j < |Arcs(g, u)| ==>
      Arcs(g, u)[i].dst != Arcs(g, u)[j].dst
  }

  function FirstWeight(arcs: seq<Arc>, v: Vertex): real {
    if arcs == [] then 0.0 else if arcs[0].dst == v then arcs[0].weight else FirstWeight(arcs[1..], v)
  }

  function Weight(g: Graph, u: Vertex, v: Vertex): real {
    FirstWeight(Arcs(g, u), v)
  }

  ghost predicate SymmetricWeights(g: Graph) {
    Symmetric(g) && forall u, v :: Adjacent(g, u, v) ==> Weight(g, u, v) == Weight(g, v, u)
  }

  function PathWeight(g: Graph, p: seq<Vertex>): real {
    if |p| < 2 then 0.0 else Weight(g, p[0], p[1]) + PathWeight(g, p[1..])
  }

  lemma {:induction false} FirstWeightAt(arcs: seq<Arc>, i: nat)
    requires i < |arcs| && forall j, k :: 0 <= j < k < |arcs| ==> arcs[j].dst != arcs[k].dst
    ensures FirstWeight(arcs, arcs[i].dst) == arcs[i].weight
  {
    if i > 0 {
      assert arcs[0].dst != arcs[i].dst;
      FirstWeightAt(arcs[1..], i - 1);
    }
  }

  lemma ArcWeight(g: Graph, u: Vertex, i: nat)
    requires Simple(g) && i < |Arcs(g, u)|
    ensures Weight(g, u, Arcs(g, u)[i].dst) == Arcs(g, u)[i].weight
  {
    FirstWeightAt(Arcs(g, u), i);
  }

  lemma {:induction false} JoinWeight(g: Graph, p: seq<Vertex>, q: seq<Vertex>)
    requires p != [] && q != []
    ensures PathWeight(g, p + q) == PathWeight(g, p) + Weight(g, p[|p| - 1], q[0]) + PathWeight(g, q)
  {
    if |p| == 1 {
      assert (p + q)[1..] == q;
    } else {
      assert (p + q)[1..] == p[1..] + q;
      JoinWeight(g, p[1..], q);
    }
  }

  lemma {:induction false} ReversedWeight(g: Graph, p: seq<Vertex>, u: Vertex, v: Vertex)
    requires SymmetricWeights(g) && Walk(g, p, u, v)
    ensures PathWeight(g, Reversed(p)) == PathWeight(g, p)
  {
    if |p| > 1 {
      assert Adjacent(g, p[0], p[0 + 1]);
      WalkSlice(g, p, u, v, 1, |p|);
      assert p[1..|p|] == p[1..];
      ReversedWeight(g, p[1..], p[1], v);
      JoinWeight(g, Reversed(p[1..]), [p[0]]);
    }
  }

  // ---------------------------------------------------------------------------
  // Lists of routes.

  ghost predicate Found(routes: seq<Route>, p: seq<Vertex>) {
    exists i :: 0 <= i < |routes| && routes[i].path == p
  }

  /** `routes` lists the paths in `paths`, each exactly once and with the sum of its weights. */
  ghost predicate Lists(g: Graph, routes: seq<Route>, paths: iset<seq<Vertex>>) {
    && (forall p :: p in paths <==> Found(routes, p))
    && (forall i, j :: 0 <= i < j < |routes| ==> routes[i].path != routes[j].path)
    && (forall i {:trigger routes[i]} :: 0 <= i < |routes| ==> routes[i].weight == PathWeight(g, routes[i].path))
  }

  lemma ListsEmpty(g: Graph)
    ensures Lists(g, [], iset{})
  {
  }

  lemma ListsConcat(g: Graph, a: seq<Route>, s: iset<seq<Vertex>>, b: seq<Route>, t: iset<seq<Vertex>>)
    requires Lists(g, a, s) && Lists(g, b, t) && s !! t
    ensures Lists(g, a + b, s + t)
  {
    var c := a + b;
    forall p
      ensures p in s + t <==> Found(c, p)
    {
      if i :| 0 <= i < |a| && a[i].path == p {
        assert c[i].path == p;
      }
      if i :| 0 <= i < |b| && b[i].path == p {
        assert c[|a| + i].path == p;
      }
    }
    forall i, j | 0 <= i < j < |c|
      ensures c[i].path != c[j].path
    {
      if i < |a| <= j {
        assert Found(a, c[i].path);
        assert b[j - |a|] == c[j] && Found(b, c[j].path);
      }
    }
  }

  /** A renaming of the paths that keeps them apart and keeps their weights. */
  lemma ListsImage(g: Graph, a: seq<Route>, s: iset<seq<Vertex>>, b: seq<Route>, f: seq<Vertex> -> seq<Vertex>,
                   t: iset<seq<Vertex>>)
    requires Lists(g, a, s) && |b| == |a|
    requires forall i :: 0 <= i < |a| ==> b[i].path == f(a[i].path) && b[i].weight == PathWeight(g, f(a[i].path))
    requires forall p, q :: p in s && q in s && f(p) == f(q) ==> p == q
    requires forall p :: p in t <==> exists q :: q in s && f(q) == p
    ensures Lists(g, b, t)
  {
    forall p
      ensures p in t <==> Found(b, p)
    {
      if p in t {
        var q :| q in s && f(q) == p;
        assert Found(a, q);
        var i :| 0 <= i < |a| && a[i].path == q;
        assert b[i].path == p;
      }
      if i :| 0 <= i < |b| && b[i].path == p {
        assert Found(a, a[i].path) && a[i].path in s;
      }
    }
    forall i, j | 0 <= i < j < |b|
      ensures b[i].path != b[j].path
    {
      assert Found(a, a[i].path) && Found(a, a[j].path);
    }
  }

  // ---------------------------------------------------------------------------
  // Depth-first descents.

  /** A breadth-first search from `root` has given the vertices up to `k` steps away their distance. */
  ghost predicate Depths(g: Graph, root: Vertex, k: int, depth: map<Vertex, int>) {
    forall v, m: int :: 0 <= m <= k ==> ((v in depth && depth[v] == m) <==> AtDistance(g, root, v, m))
  }

  predicate Below(depth: map<Vertex, int>, v: Vertex, deep: int) {
    v in depth && depth[v] == deep - 1
  }

  function Prepend(v: Vertex, w: real, routes: seq<Route>): seq<Route> {
    seq(|routes|, i requires 0 <= i < |routes| => Route(w + routes[i].weight, [v] + routes[i].path))
  }

  /** The routes from `v` down to depth 0, arc by arc. */
  function Descents(g: Graph, depth: map<Vertex, int>, v: Vertex, deep: nat): seq<Route>
    decreases deep, 0
  {
    if deep == 0 then [Route(0.0, [v])] else DescentsVia(g, depth, v, deep, |Arcs(g, v)|)
  }

  /** The same over the first `j` arcs of `v`. */
  function DescentsVia(g: Graph, depth: map<Vertex, int>, v: Vertex, deep: nat, j: nat): seq<Route>
    requires deep > 0 && j <= |Arcs(g, v)|
    decreases deep - 1, j + 1
  {
    if j == 0 then []
    else
      var arc := Arcs(g, v)[j - 1];
      DescentsVia(g, depth, v, deep, j - 1)
      + if Below(depth, arc.dst, deep) then Prepend(v, arc.weight, Descents(g, depth, arc.dst, deep - 1)) else []
  }

  /** The walks of exactly `k` edges. */
  ghost function Walks(g: Graph, u: Vertex, v: Vertex, k: int): iset<seq<Vertex>> {
    iset p | Walk(g, p, u, v) && |p| - 1 == k
  }

  /** Those whose first step is one of the first `j` arcs. */
  ghost function WalksVia(g: Graph, u: Vertex, v: Vertex, k: int, j: nat): iset<seq<Vertex>> {
    iset p |
      p in Walks(g, u, v, k) && |p| > 1 && exists i :: 0 <= i < j && i < |Arcs(g, u)| && Arcs(g, u)[i].dst == p[1]
  }

  /** From a vertex at distance `deep`, the descents are exactly the walks of that length. */
  lemma {:induction false} DescentsExact(g: Graph, depth: map<Vertex, int>, root: Vertex, k: int, v: Vertex, deep: nat)
    requires Simple(g) && Symmetric(g) && Depths(g, root, k, depth) && deep <= k && AtDistance(g, root, v, deep)
    ensures Lists(g, Descents(g, depth, v, deep), Walks(g, v, root, deep))
    decreases deep, 0
  {
    if deep == 0 {
      WithinZero(g, root);
      var routes := Descents(g, depth, v, 0);
      assert routes[0].path == [v] && Found(routes, [v]);
    } else {
      DescentsViaExact(g, depth, root, k, v, deep, |Arcs(g, v)|);
      forall p | p in Walks(g, v, root, deep)
        ensures p in WalksVia(g, v, root, deep, |Arcs(g, v)|)
      {
        assert Adjacent(g, p[0], p[0 + 1]);
      }
      assert Walks(g, v, root, deep) == WalksVia(g, v, root, deep, |Arcs(g, v)|);
    }
  }

  lemma {:induction false} DescentsViaExact(g: Graph, depth: map<Vertex, int>, root: Vertex, k: int, v: Vertex,
                                            deep: nat, j: nat)
    requires Simple(g) && Symmetric(g) && Depths(g, root, k, depth) && 0 < deep <= k && AtDistance(g, root, v, deep)
    requires j <= |Arcs(g, v)|
    ensures Lists(g, DescentsVia(g, depth, v, deep, j), WalksVia(g, v, root, deep, j))
    decreases deep - 1, j + 1
  {
    hide Lists, Descents, DescentsVia, WalksVia, Walks, Simple, Symmetric, AtDistance;
    if j == 0 {
      NoArcs(g, depth, v, root, deep);
    } else {
      DescentsViaExact(g, depth, root, k, v, deep, j - 1);
      var arc := Arcs(g, v)[j - 1];
      if Below(depth, arc.dst, deep) {
        DescentsExact(g, depth, root, k, arc.dst, deep - 1);
        ArcTaken(g, depth, root, v, deep, j);
      } else {
        ArcSkipped(g, depth, root, k, v, deep, j);
      }
    }
  }

  lemma NoArcs(g: Graph, depth: map<Vertex, int>, v: Vertex, root: Vertex, deep: nat)
    requires 0 < deep
    ensures Lists(g, DescentsVia(g, depth, v, deep, 0), WalksVia(g, v, root, deep, 0))
  {
    assert WalksVia(g, v, root, deep, 0) == iset{};
  }

  lemma ArcTaken(g: Graph, depth: map<Vertex, int>, root: Vertex, v: Vertex, deep: nat, j: nat)
    requires Simple(g) && 0 < deep && 0 < j <= |Arcs(g, v)| && Below(depth, Arcs(g, v)[j - 1].dst, deep)
    requires Lists(g, DescentsVia(g, depth, v, deep, j - 1), WalksVia(g, v, root, deep, j - 1))
    requires Lists(g, Descents(g, depth, Arcs(g, v)[j - 1].dst, deep - 1),
        Walks(g, Arcs(g, v)[j - 1].dst, root, deep - 1))
    ensures Lists(g, DescentsVia(g, depth, v, deep, j), WalksVia(g, v, root, deep, j))
  {
    hide Lists, Descents, Walks, Simple;
    var arc := Arcs(g, v)[j - 1];
    var routes := Descents(g, depth, arc.dst, deep - 1);
    var last := WalksVia(g, v, root, deep, j) - WalksVia(g, v, root, deep, j - 1);
    LastArc(g, v, root, deep, j);
    PrependExact(g, routes, v, root, deep, j);
    ListsConcat(g, DescentsVia(g, depth, v, deep, j - 1), WalksVia(g, v, root, deep, j - 1),
        Prepend(v, arc.weight, routes), last);
    assert WalksVia(g, v, root, deep, j - 1) + last == WalksVia(g, v, root, deep, j);
  }

  lemma ArcSkipped(g: Graph, depth: map<Vertex, int>, root: Vertex, k: int, v: Vertex, deep: nat, j: nat)
    requires Simple(g) && Symmetric(g) && Depths(g, root, k, depth) && 0 < deep <= k && AtDistance(g, root, v, deep)
    requires 0 < j <= |Arcs(g, v)| && !Below(depth, Arcs(g, v)[j - 1].dst, deep)
    requires Lists(g, DescentsVia(g, depth, v, deep, j - 1), WalksVia(g, v, root, deep, j - 1))
    ensures Lists(g, DescentsVia(g, depth, v, deep, j), WalksVia(g, v, root, deep, j))
  {
    hide Lists;
    LastArc(g, v, root, deep, j);
    forall p | p in WalksVia(g, v, root, deep, j)
      ensures p in WalksVia(g, v, root, deep, j - 1)
    {
      NotBelow(g, depth, root, k, v, deep, p);
    }
    assert WalksVia(g, v, root, deep, j) == WalksVia(g, v, root, deep, j - 1);
    assert DescentsVia(g, depth, v, deep, j) == DescentsVia(g, depth, v, deep, j - 1);
  }

  /** What arc `j - 1` adds: the walks that start with it. */
  lemma LastArc(g: Graph, v: Vertex, root: Vertex, deep: nat, j: nat)
    requires Simple(g) && 0 < deep && 0 < j <= |Arcs(g, v)|
    ensures WalksVia(g, v, root, deep, j - 1) <= WalksVia(g, v, root, deep, j)
    ensures forall p :: p in WalksVia(g, v, root, deep, j) - WalksVia(g, v, root, deep, j - 1)
                   <==> p in Walks(g, v, root, deep) && p[1] == Arcs(g, v)[j - 1].dst
  {
  }

  /** The second vertex of a walk that is as short as possible is one step closer. */
  lemma NotBelow(g: Graph, depth: map<Vertex, int>, root: Vertex, k: int, v: Vertex, deep: nat, p: seq<Vertex>)
    requires Symmetric(g) && Depths(g, root, k, depth) && 0 < deep <= k && AtDistance(g, root, v, deep)
    requires p in Walks(g, v, root, deep)
    ensures Below(depth, p[1], deep)
  {
    WalkSlice(g, p, v, root, 1, |p|);
    assert Within(g, p[1], root, deep - 1);
    WithinSymmetric(g, p[1], root, deep - 1);
    assert Adjacent(g, p[0], p[0 + 1]);
    if Within(g, root, p[1], deep - 2) {
      WithinStep(g, root, p[1], v, deep - 2);
    }
    assert AtDistance(g, root, p[1], deep - 1);
  }

  lemma PrependExact(g: Graph, routes: seq<Route>, v: Vertex, root: Vertex, deep: nat, j: nat)
    requires Simple(g) && 0 < deep && 0 < j <= |Arcs(g, v)|
    requires Lists(g, routes, Walks(g, Arcs(g, v)[j - 1].dst, root, deep - 1))
    ensures Lists(g, Prepend(v, Arcs(g, v)[j - 1].weight, routes),
                  WalksVia(g, v, root, deep, j) - WalksVia(g, v, root, deep, j - 1))
  {
    var arc := Arcs(g, v)[j - 1];
    var s := Walks(g, arc.dst, root, deep - 1);
    var f := (p: seq<Vertex>) => [v] + p;
    var b := Prepend(v, arc.weight, routes);
    var t := WalksVia(g, v, root, deep, j) - WalksVia(g, v, root, deep, j - 1);
    LastArc(g, v, root, deep, j);
    ArcWeight(g, v, j - 1);
    forall i | 0 <= i < |routes|
      ensures b[i].path == f(routes[i].path) && b[i].weight == PathWeight(g, f(routes[i].path))
    {
      assert Found(routes, routes[i].path) && routes[i].path in s;
      assert f(routes[i].path)[1..] == routes[i].path;
    }
    forall p, q | p in s && q in s && f(p) == f(q)
      ensures p == q
    {
      assert f(p)[1..] == p && f(q)[1..] == q;
    }
    forall p
      ensures p in t <==> exists q :: q in s && f(q) == p
    {
      PrependWalk(g, v, arc.dst, root, deep, p);
    }
    ListsImage(g, routes, s, b, f, t);
  }

  lemma PrependWalk(g: Graph, v: Vertex, w: Vertex, root: Vertex, deep: nat, p: seq<Vertex>)
    requires 0 < deep && Adjacent(g, v, w)
    ensures p in Walks(g, v, root, deep) && p[1] == w <==> exists q :: q in Walks(g, w, root, deep - 1) && [v] + q == p
  {
    if p in Walks(g, v, root, deep) && p[1] == w {
      WalkSlice(g, p, v, root, 1, |p|);
      assert p[1..|p|] in Walks(g, w, root, deep - 1) && [v] + p[1..|p|] == p;
    }
    if q :| q in Walks(g, w, root, deep - 1) && [v] + q == p {
      assert Walk(g, [v], v, v);
      JoinWalks(g, [v], q, v, v, w, root);
    }
  }

  // ---------------------------------------------------------------------------
  // Joining the two halves.

  function JoinOne(f: Route, bs: seq<Route>, w: real): seq<Route> {
    seq(|bs|, i requires 0 <= i < |bs| => Route(f.weight + bs[i].weight + w, f.path + bs[i].path))
  }

  /** Every route of `fs` with every route of `bs`, over an edge of weight `w`. */
  function Joined(fs: seq<Route>, bs: seq<Route>, w: real): seq<Route> {
    if fs == [] then [] else Joined(fs[..|fs| - 1], bs, w) + JoinOne(fs[|fs| - 1], bs, w)
  }

  ghost function Pairs(s: iset<seq<Vertex>>, t: iset<seq<Vertex>>, n: nat): iset<seq<Vertex>> {
    iset p: seq<Vertex> | |p| > n && p[..n] in s && p[n..] in t
  }

  lemma GluedPairs(path: seq<Vertex>, t: iset<seq<Vertex>>, p: seq<Vertex>)
    requires forall q :: q in t ==> q != []
    ensures p in Pairs(iset{path}, t, |path|) <==> exists q: seq<Vertex> :: q in t && path + q == p
  {
    if p in Pairs(iset{path}, t, |path|) {
      assert p == p[..|path|] + p[|path|..];
    }
    if q: seq<Vertex> :| q in t && path + q == p {
      assert p[..|path|] == path && p[|path|..] == q;
    }
  }

  lemma JoinOneExact(g: Graph, f: Route, bs: seq<Route>, t: iset<seq<Vertex>>, v: Vertex, d: Vertex)
    requires f.path != [] && f.path[|f.path| - 1] == v && f.weight == PathWeight(g, f.path)
    requires Lists(g, bs, t) && forall q :: q in t ==> q != [] && q[0] == d
    ensures Lists(g, JoinOne(f, bs, Weight(g, v, d)), Pairs(iset{f.path}, t, |f.path|))
  {
    hide Pairs;
    var glue := (q: seq<Vertex>) => f.path + q;
    var r := JoinOne(f, bs, Weight(g, v, d));
    forall i | 0 <= i < |bs|
      ensures r[i].path == glue(bs[i].path) && r[i].weight == PathWeight(g, glue(bs[i].path))
    {
      assert Found(bs, bs[i].path) && bs[i].path in t;
      JoinWeight(g, f.path, bs[i].path);
    }
    forall p: seq<Vertex>, q: seq<Vertex> | glue(p) == glue(q)
      ensures p == q
    {
      assert glue(p)[|f.path|..] == p && glue(q)[|f.path|..] == q;
    }
    forall p: seq<Vertex>
      ensures p in Pairs(iset{f.path}, t, |f.path|) <==> exists q: seq<Vertex> :: q in t && glue(q) == p
    {
      GluedPairs(f.path, t, p);
      if q: seq<Vertex> :| q in t && f.path + q == p {
        assert glue(q) == p;
      }
    }
    hide Lists, Found, JoinOne, PathWeight;
    ListsImage(g, bs, t, r, glue, Pairs(iset{f.path}, t, |f.path|));
  }

  lemma ListsDropLast(g: Graph, a: seq<Route>, s: iset<seq<Vertex>>)
    requires Lists(g, a, s) && a != []
    ensures Lists(g, a[..|a| - 1], s - iset{a[|a| - 1].path})
    ensures a[|a| - 1].path in s && a[|a| - 1].weight == PathWeight(g, a[|a| - 1].path)
  {
    var last, b := a[|a| - 1], a[..|a| - 1];
    assert Found(a, last.path);
    forall p
      ensures p in s - iset{last.path} <==> Found(b, p)
    {
      if p in s - iset{last.path} {
        assert Found(a, p);
        var i :| 0 <= i < |a| && a[i].path == p;
        assert b[i].path == p;
      }
      if i :| 0 <= i < |b| && b[i].path == p {
        assert a[i].path == p && Found(a, p);
      }
    }
  }

  lemma {:induction false} JoinedExact(g: Graph, fs: seq<Route>, s: iset<seq<Vertex>>, bs: seq<Route>,
                                       t: iset<seq<Vertex>>, n: nat, v: Vertex, d: Vertex)
    requires 0 < n && Lists(g, fs, s) && Lists(g, bs, t)
    requires forall p :: p in s ==> |p| == n && p[n - 1] == v
    requires forall q :: q in t ==> q != [] && q[0] == d
    ensures Lists(g, Joined(fs, bs, Weight(g, v, d)), Pairs(s, t, n))
  {
    if fs == [] {
      forall p
        ensures p !in s
      {
        assert p in s <==> Found(fs, p);
      }
      assert Pairs(s, t, n) == iset{};
    } else {
      var f := fs[|fs| - 1];
      ListsDropLast(g, fs, s);
      JoinedExact(g, fs[..|fs| - 1], s - iset{f.path}, bs, t, n, v, d);
      JoinOneExact(g, f, bs, t, v, d);
      JoinedLast(g, fs, s, bs, t, n, Weight(g, v, d));
    }
  }

  lemma JoinedLast(g: Graph, fs: seq<Route>, s: iset<seq<Vertex>>, bs: seq<Route>, t: iset<seq<Vertex>>, n: nat,
                   w: real)
    requires fs != [] && fs[|fs| - 1].path in s
    requires Lists(g, Joined(fs[..|fs| - 1], bs, w), Pairs(s - iset{fs[|fs| - 1].path}, t, n))
    requires Lists(g, JoinOne(fs[|fs| - 1], bs, w), Pairs(iset{fs[|fs| - 1].path}, t, n))
    ensures Lists(g, Joined(fs, bs, w), Pairs(s, t, n))
  {
    hide Lists;
    var f := fs[|fs| - 1].path;
    ListsConcat(g, Joined(fs[..|fs| - 1], bs, w), Pairs(s - iset{f}, t, n), JoinOne(fs[|fs| - 1], bs, w),
        Pairs(iset{f}, t, n));
    assert Pairs(s - iset{f}, t, n) + Pairs(iset{f}, t, n) == Pairs(s, t, n);
  }

  lemma ReversedWalks(g: Graph, u: Vertex, v: Vertex, k: int, p: seq<Vertex>)
    requires SymmetricWeights(g)
    ensures p in Walks(g, v, u, k) <==> exists q: seq<Vertex> :: q in Walks(g, u, v, k) && Reversed(q) == p
  {
    hide Reversed, PathWeight;
    if p in Walks(g, v, u, k) {
      WalkReversed(g, p, v, u);
      ReversedTwice(p);
      assert Reversed(p) in Walks(g, u, v, k);
    }
    if q: seq<Vertex> :| q in Walks(g, u, v, k) && Reversed(q) == p {
      WalkReversed(g, q, u, v);
    }
  }

  /** Turning the routes round lists the walks in the other direction. */
  lemma ReversedExact(g: Graph, a: seq<Route>, b: seq<Route>, u: Vertex, v: Vertex, k: int)
    requires SymmetricWeights(g) && Lists(g, a, Walks(g, u, v, k)) && |b| == |a|
    requires forall i :: 0 <= i < |a| ==> b[i] == Route(a[i].weight, Reversed(a[i].path))
    ensures Lists(g, b, Walks(g, v, u, k))
  {
    var turn := (p: seq<Vertex>) => Reversed(p);
    forall i | 0 <= i < |a|
      ensures b[i].path == turn(a[i].path) && b[i].weight == PathWeight(g, turn(a[i].path))
    {
      assert Found(a, a[i].path) && a[i].path in Walks(g, u, v, k);
      ReversedWeight(g, a[i].path, u, v);
    }
    hide *;
    forall p: seq<Vertex>, q: seq<Vertex> | turn(p) == turn(q)
      ensures p == q
    {
      ReversedTwice(p);
      ReversedTwice(q);
    }
    forall p
      ensures p in Walks(g, v, u, k) <==> exists q :: q in Walks(g, u, v, k) && turn(q) == p
    {
      ReversedWalks(g, u, v, k, p);
    }
    ListsImage(g, a, Walks(g, u, v, k), b, turn, Walks(g, v, u, k));
  }

  lemma WalkOver(g: Graph, u: Vertex, x: Vertex, a: nat, v: Vertex, w: Vertex, b: nat, p: seq<Vertex>)
    requires Adjacent(g, v, w) && p in Walks(g, u, x, a + b + 1) && p[a] == v && p[a + 1] == w
    ensures p in Pairs(Walks(g, u, v, a), Walks(g, w, x, b), a + 1)
  {
    hide Adjacent;
    WalkSlice(g, p, u, x, 0, a + 1);
    WalkSlice(g, p, u, x, a + 1, |p|);
    assert p[..a + 1] == p[0..a + 1] && p[a + 1..] == p[a + 1..|p|];
  }

  lemma WalkJoined(g: Graph, u: Vertex, x: Vertex, a: nat, v: Vertex, w: Vertex, b: nat, p: seq<Vertex>)
    requires Adjacent(g, v, w) && p in Pairs(Walks(g, u, v, a), Walks(g, w, x, b), a + 1)
    ensures p in Walks(g, u, x, a + b + 1) && p[a] == v && p[a + 1] == w
  {
    hide Adjacent;
    JoinWalks(g, p[..a + 1], p[a + 1..], u, v, w, x);
    assert p == p[..a + 1] + p[a + 1..];
  }

  /** The walks over one edge in the middle. */
  lemma WalksOver(g: Graph, u: Vertex, x: Vertex, a: nat, v: Vertex, w: Vertex, b: nat)
    requires Adjacent(g, v, w)
    ensures Pairs(Walks(g, u, v, a), Walks(g, w, x, b), a + 1)
         == iset p: seq<Vertex> | p in Walks(g, u, x, a + b + 1) && p[a] == v && p[a + 1] == w
  {
    hide Pairs, Adjacent;
    var joined := Pairs(Walks(g, u, v, a), Walks(g, w, x, b), a + 1);
    var over := iset p: seq<Vertex> | p in Walks(g, u, x, a + b + 1) && p[a] == v && p[a + 1] == w;
    forall p: seq<Vertex>
      ensures p in joined <==> p in over
    {
      if p in joined {
        WalkJoined(g, u, x, a, v, w, b, p);
      }
      if p in over {
        WalkOver(g, u, x, a, v, w, b, p);
      }
    }
    assert joined == over;
  }
}
