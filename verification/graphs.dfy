/** The adjacency of one edge label as a graph, its walks, and distances by walks. */
module Graphs {
  import opened Sequences

  type Vertex = nat

  datatype Arc = Arc(dst: Vertex, weight: real)

  type Graph = map<Vertex, seq<Arc>>

  /** What an edge iterator over `v` yields, in order; nothing for a vertex without edges. */
  function Arcs(g: Graph, v: Vertex): seq<Arc> {
    if v in g then g[v] else []
  }

  predicate Adjacent(g: Graph, u: Vertex, v: Vertex) {
    exists i :: 0 <= i < |Arcs(g, u)| && Arcs(g, u)[i].dst == v
  }

  ghost predicate Symmetric(g: Graph) {
    forall u, v :: Adjacent(g, u, v) ==> Adjacent(g, v, u)
  }

  ghost predicate Walk(g: Graph, p: seq<Vertex>, u: Vertex, v: Vertex) {
    && p != [] && p[0] == u && p[|p| - 1] == v
    && (forall i :: 0 <= i < |p| - 1 ==> Adjacent(g, p[i], p[i + 1]))
  }

  /** There is a walk of at most `k` edges. */
  ghost predicate Within(g: Graph, u: Vertex, v: Vertex, k: int) {
    exists p :: Walk(g, p, u, v) && |p| - 1 <= k
  }

  ghost predicate AtDistance(g: Graph, u: Vertex, v: Vertex, k: int) {
    Within(g, u, v, k) && !Within(g, u, v, k - 1)
  }

  /** `v` is adjacent to a vertex of `frontier`. */
  ghost predicate NextTo(g: Graph, frontier: seq<Vertex>, v: Vertex) {
    exists i :: 0 <= i < |frontier| && Adjacent(g, frontier[i], v)
  }

  /** `level` lists the vertices at distance `k` from `u`. */
  ghost predicate Level(g: Graph, u: Vertex, k: int, level: seq<Vertex>) {
    forall v :: v in level <==> AtDistance(g, u, v, k)
  }

  ghost predicate Ball(g: Graph, u: Vertex, k: int, ball: set<Vertex>) {
    forall v :: v in ball <==> Within(g, u, v, k)
  }

  lemma WithinZero(g: Graph, u: Vertex)
    ensures forall v :: Within(g, u, v, 0) <==> v == u
    ensures forall v, k: int :: k < 0 ==> !Within(g, u, v, k)
  {
    assert Walk(g, [u], u, u);
  }

  lemma JoinWalks(g: Graph, p: seq<Vertex>, q: seq<Vertex>, u: Vertex, v: Vertex, w: Vertex, x: Vertex)
    requires Walk(g, p, u, v) && Walk(g, q, w, x) && Adjacent(g, v, w)
    ensures Walk(g, p + q, u, x)
  {
    var r := p + q;
    forall i | 0 <= i < |r| - 1
      ensures Adjacent(g, r[i], r[i + 1])
    {
      if i == |p| - 1 {
        assert r[i] == v && r[i + 1] == q[0];
      } else if i >= |p| {
        assert r[i] == q[i - |p|] && r[i + 1] == q[i - |p| + 1];
      }
    }
  }

  lemma WithinStep(g: Graph, u: Vertex, v: Vertex, w: Vertex, k: int)
    requires Within(g, u, v, k) && Adjacent(g, v, w)
    ensures Within(g, u, w, k + 1)
  {
    var p :| Walk(g, p, u, v) && |p| - 1 <= k;
    assert Walk(g, [w], w, w);
    JoinWalks(g, p, [w], u, v, w, w);
  }

  lemma WalkSlice(g: Graph, p: seq<Vertex>, u: Vertex, v: Vertex, i: nat, j: nat)
    requires Walk(g, p, u, v) && i < j <= |p|
    ensures Walk(g, p[i..j], p[i], p[j - 1])
  {
    var q := p[i..j];
    forall k | 0 <= k < |q| - 1
      ensures Adjacent(g, q[k], q[k + 1])
    {
      assert Adjacent(g, p[i + k], p[i + k + 1]);
    }
  }

  /** The last step of a walk. */
  lemma WithinLast(g: Graph, u: Vertex, w: Vertex, k: int) returns (v: Vertex)
    requires Within(g, u, w, k) && u != w
    ensures Within(g, u, v, k - 1) && Adjacent(g, v, w)
  {
    var p :| Walk(g, p, u, w) && |p| - 1 <= k;
    v := p[|p| - 2];
    assert Adjacent(g, p[|p| - 2], p[|p| - 2 + 1]);
    WalkSlice(g, p, u, w, 0, |p| - 1);
  }

  lemma WithinJoin(g: Graph, u: Vertex, v: Vertex, w: Vertex, a: int, b: int)
    requires Within(g, u, v, a) && Within(g, v, w, b)
    ensures Within(g, u, w, a + b)
  {
    var p :| Walk(g, p, u, v) && |p| - 1 <= a;
    var q :| Walk(g, q, v, w) && |q| - 1 <= b;
    if |q| > 1 {
      assert Adjacent(g, q[0], q[0 + 1]);
      WalkSlice(g, q, v, w, 1, |q|);
      JoinWalks(g, p, q[1..|q|], u, v, q[1], w);
    }
  }

  lemma WithinSplit(g: Graph, u: Vertex, w: Vertex, a: int, b: int) returns (v: Vertex)
    requires Within(g, u, w, a + b) && 0 <= a && 0 <= b
    ensures Within(g, u, v, a) && Within(g, v, w, b)
  {
    var p :| Walk(g, p, u, w) && |p| - 1 <= a + b;
    var m := if a <= |p| - 1 then a else |p| - 1;
    v := p[m];
    WalkSlice(g, p, u, w, 0, m + 1);
    WalkSlice(g, p, u, w, m, |p|);
  }

  lemma WalkReversed(g: Graph, p: seq<Vertex>, u: Vertex, v: Vertex)
    requires Symmetric(g) && Walk(g, p, u, v)
    ensures Walk(g, Reversed(p), v, u)
  {
    var r := Reversed(p);
    forall i | 0 <= i < |r| - 1
      ensures Adjacent(g, r[i], r[i + 1])
    {
      var j := |p| - 2 - i;
      assert Adjacent(g, p[j], p[j + 1]);
      assert Adjacent(g, p[j + 1], p[j]);
    }
  }

  lemma WithinSymmetric(g: Graph, u: Vertex, v: Vertex, k: int)
    requires Symmetric(g) && Within(g, u, v, k)
    ensures Within(g, v, u, k)
  {
    var p :| Walk(g, p, u, v) && |p| - 1 <= k;
    WalkReversed(g, p, u, v);
  }

  /** One more step reaches the neighbours of the last level and nothing else. */
  lemma BallStep(g: Graph, u: Vertex, k: nat, level: seq<Vertex>, v: Vertex)
    requires Level(g, u, k, level)
    ensures Within(g, u, v, k + 1) <==> Within(g, u, v, k) || NextTo(g, level, v)
  {
    if NextTo(g, level, v) {
      var i :| 0 <= i < |level| && Adjacent(g, level[i], v);
      assert level[i] in level;
      WithinStep(g, u, level[i], v, k);
    }
    if Within(g, u, v, k + 1) && !Within(g, u, v, k) {
      assert u != v by { assert Walk(g, [u], u, u); }
      var w := WithinLast(g, u, v, k + 1);
      if Within(g, u, w, k - 1) {
        WithinStep(g, u, w, v, k - 1);
      }
      assert w in level;
      var i :| 0 <= i < |level| && level[i] == w;
    }
  }

  /** Once a level is empty, so is the rest of the world. */
  lemma {:induction false} EmptyLevel(g: Graph, u: Vertex, k: nat, v: Vertex, m: int)
    requires Level(g, u, k, []) && Within(g, u, v, m)
    ensures Within(g, u, v, k)
    decreases m
  {
    if m > k && !Within(g, u, v, m - 1) {
      assert u != v by { assert Walk(g, [u], u, u); }
      var w := WithinLast(g, u, v, m);
      EmptyLevel(g, u, k, w, m - 1);
      WithinStep(g, u, w, v, k);
      BallStep(g, u, k, [], v);
    } else if m > k {
      EmptyLevel(g, u, k, v, m - 1);
    }
  }

  /** Where two searches meet: with the ends further apart than the two radii, they are one
      step further apart exactly when the outermost level of one search has a neighbour in
      the ball of the other. */
  lemma Meeting(g: Graph, u: Vertex, v: Vertex, a: nat, b: nat, level: seq<Vertex>, ball: set<Vertex>)
    requires Symmetric(g) && Level(g, u, a, level) && Ball(g, v, b, ball)
    requires !Within(g, u, v, a + b)
    ensures Within(g, u, v, a + b + 1) <==> exists w :: NextTo(g, level, w) && w in ball
  {
    if w :| NextTo(g, level, w) && w in ball {
      BallStep(g, u, a, level, w);
      WithinSymmetric(g, v, w, b);
      WithinJoin(g, u, w, v, a + 1, b);
    }
    if Within(g, u, v, a + b + 1) {
      var w := WithinSplit(g, u, v, a + 1, b);
      if Within(g, u, w, a) {
        WithinJoin(g, u, w, v, a, b);
      }
      BallStep(g, u, a, level, w);
      WithinSymmetric(g, w, v, b);
      assert NextTo(g, level, w) && w in ball;
    }
  }
}
