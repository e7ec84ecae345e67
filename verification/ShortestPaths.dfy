/**
 Weighted graphs, paths and exact multi-source distances: the reference
 definitions against which both shortest-path routines of the generator are
 proved. Lengths are non-negative reals; an unreached node has distance `None`
 (the infinity of the program).
 */
module ShortestPaths {
  import opened Options

  /** An undirected weighted arc between two local indices. */
  datatype Arc = Arc(a: nat, b: nat, w: real)

  datatype Graph = Graph(n: nat, arcs: seq<Arc>) {
    ghost predicate Valid() {
      forall e | e in arcs :: e.a < n && e.b < n && e.w >= 0.0
    }

    /** One of the arcs joins `u` and `v` with weight `w`. */
    ghost predicate HasArc(u: nat, v: nat, w: real) {
      Arc(u, v, w) in arcs || Arc(v, u, w) in arcs
    }
  }

  /** A walk, built from its start; every hop records the weight it used. */
  datatype Path = At(v: nat) | Hop(prefix: Path, w: real, v: nat) {
    ghost function Start(): nat {
      if At? then v else prefix.Start()
    }

    ghost function Cost(): real {
      if At? then 0.0 else prefix.Cost() + w
    }

    /** Every node of the walk, both ends included, carries mark `k`. */
    ghost predicate Within(mark: seq<Option<nat>>, k: nat) {
      v < |mark| && mark[v] == Some(k) && (Hop? ==> prefix.Within(mark, k))
    }
  }

  ghost predicate IsPath(g: Graph, p: Path) {
    p.v < g.n && (p.Hop? ==> IsPath(g, p.prefix) && g.HasArc(p.prefix.v, p.v, p.w))
  }

  ghost predicate PathFrom(g: Graph, sources: set<nat>, p: Path) {
    IsPath(g, p) && p.Start() in sources
  }

  ghost predicate AtMost(d: Option<real>, c: real) {
    d.Some? && d.value <= c
  }

  /** `dist` is the exact distance of every node to its nearest source: no walk
      from a source is shorter, and every finite distance is the cost of one. */
  ghost predicate Exact(g: Graph, sources: set<nat>, dist: seq<Option<real>>) {
    && |dist| == g.n
    && (forall p :: PathFrom(g, sources, p) ==> AtMost(dist[p.v], p.Cost()))
    && (forall v | 0 <= v < g.n && dist[v].Some? ::
          exists p :: PathFrom(g, sources, p) && p.v == v && p.Cost() == dist[v].value)
  }

  lemma PathCostNonNegative(g: Graph, p: Path)
    requires g.Valid() && IsPath(g, p)
    ensures p.Cost() >= 0.0
  {
  }

  lemma ExactBelow(g: Graph, sources: set<nat>, d: seq<Option<real>>, e: seq<Option<real>>, v: nat)
    requires Exact(g, sources, d) && Exact(g, sources, e) && v < g.n && d[v].Some?
    ensures AtMost(e[v], d[v].value)
  {
    var p :| PathFrom(g, sources, p) && p.v == v && p.Cost() == d[v].value;
  }

  /** Distances are determined by the graph and the source set alone. */
  lemma ExactIsUnique(g: Graph, sources: set<nat>, d: seq<Option<real>>, e: seq<Option<real>>)
    requires Exact(g, sources, d) && Exact(g, sources, e)
    ensures d == e
  {
    forall v | 0 <= v < g.n
      ensures d[v] == e[v]
    {
      if d[v].Some? {
        ExactBelow(g, sources, d, e, v);
      }
      if e[v].Some? {
        ExactBelow(g, sources, e, d, v);
      }
    }
  }

  /** Adding sources never lengthens a distance and never loses a reached node. */
  lemma MoreSourcesNeverFarther(g: Graph, s: set<nat>, t: set<nat>, d: seq<Option<real>>, e: seq<Option<real>>, v: nat)
    requires s <= t && Exact(g, s, d) && Exact(g, t, e)
    requires v < g.n && d[v].Some?
    ensures AtMost(e[v], d[v].value)
  {
    var p :| PathFrom(g, s, p) && p.v == v && p.Cost() == d[v].value;
    assert PathFrom(g, t, p);
  }

  /** The walk `q` after `p`, where `p` ends at the start of `q`. */
  ghost function Append(p: Path, q: Path): (r: Path)
    requires p.v == q.Start()
    ensures r.v == q.v && r.Start() == p.Start() && r.Cost() == p.Cost() + q.Cost()
  {
    if q.At? then p else Hop(Append(p, q.prefix), q.w, q.v)
  }

  lemma AppendIsPath(g: Graph, p: Path, q: Path)
    requires IsPath(g, p) && IsPath(g, q) && p.v == q.Start()
    ensures IsPath(g, Append(p, q))
  {
  }

  /** Labels of a walk survive relabelling of nodes that carried no mark. */
  lemma {:induction false} WithinKept(p: Path, mark: seq<Option<nat>>, k: nat, u: nat, x: Option<nat>)
    requires p.Within(mark, k) && u < |mark| && mark[u].None?
    ensures p.Within(mark[u := x], k)
  {
    if p.Hop? {
      WithinKept(p.prefix, mark, k, u, x);
    }
  }

  // ------------------------------------------------------------ adjacency

  ghost predicate Mirrors(g: Graph, adj: seq<seq<(nat, real)>>) {
    && |adj| == g.n
    && (forall u: nat, v: nat, w | u < g.n :: (v, w) in adj[u] <==> g.HasArc(u, v, w))
  }

  /** Adjacency lists in arc order, both directions of every arc. */
  method BuildAdjacency(g: Graph) returns (adj: seq<seq<(nat, real)>>)
    requires g.Valid()
    ensures Mirrors(g, adj)
  {
    adj := seq(g.n, _ => []);
    for k := 0 to |g.arcs|
      invariant Mirrors(Graph(g.n, g.arcs[..k]), adj)
    {
      var e := g.arcs[k];
      assert e in g.arcs;
      ghost var prior := Graph(g.n, g.arcs[..k]);
      ghost var next := Graph(g.n, g.arcs[..k + 1]);
      assert g.arcs[..k + 1] == g.arcs[..k] + [e];
      assert forall u: nat, v: nat, w :: next.HasArc(u, v, w) <==>
                                         prior.HasArc(u, v, w) || Arc(u, v, w) == e || Arc(v, u, w) == e;
      adj := adj[e.a := adj[e.a] + [(e.b, e.w)]];
      adj := adj[e.b := adj[e.b] + [(e.a, e.w)]];
    }
    assert g.arcs[..|g.arcs|] == g.arcs;
  }

  // ------------------------------------------------------------ priority queue

  /** A queue entry: distance, node, and the pocket (or source) it came from. */
  datatype Visit = Visit(d: real, node: nat, from: nat)

  /** The order in which the queue hands out entries. */
  ghost predicate Before(x: Visit, y: Visit) {
    x.d < y.d || (x.d == y.d && (x.node < y.node || (x.node == y.node && x.from <= y.from)))
  }

  /** Remove the least entry, ties by node and then by origin. */
  method PopLeast(heap: multiset<Visit>) returns (top: Visit, rest: multiset<Visit>)
    requires |heap| > 0
    ensures top in heap && rest == heap - multiset{top}
    ensures forall h | h in heap :: Before(top, h)
  {
    top :| top in heap;
    var left := heap - multiset{top};
    while |left| > 0
      invariant left <= heap && top in heap
      invariant forall h | h in heap :: h in left || Before(top, h)
      decreases |left|
    {
      var h :| h in left;
      if h.d < top.d || (h.d == top.d && (h.node < top.node || (h.node == top.node && h.from < top.from))) {
        top := h;
      }
      left := left - multiset{h};
    }
    rest := heap - multiset{top};
  }
}
