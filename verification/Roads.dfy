/**
 Corridor distance from every bus to its nearest source, and that source: the
 label-correcting sweep of the reactive plan, which remembers no settled flag
 and recognises stale queue entries by their distance alone.
 */
module Roads {
  import opened Options
  import opened ShortestPaths
  import opened Pockets

  type Origins = seq<Option<nat>>

  /** Every finite distance is the length of a walk from the recorded source. */
  ghost predicate Traced(g: Graph, sources: seq<nat>, dist: Dists, from: Origins, paths: seq<Path>) {
    && |dist| == |from| == |paths| == g.n
    && (forall u: nat | u < g.n :: from[u].Some? <==> dist[u].Some?)
    && (forall u: nat | u < g.n && dist[u].Some? ::
          IsPath(g, paths[u]) && paths[u].v == u && dist[u] == Some(paths[u].Cost())
          && from[u] == Some(paths[u].Start()) && paths[u].Start() in sources)
  }

  /** An entry at the current distance of its node is the only one, carries the
      recorded source, and its node has not been expanded. */
  ghost predicate Fresh(mark: Marks, dist: Dists, from: Origins, heap: multiset<Visit>, h: Visit) {
    && h.node < |mark| == |dist| == |from| && AtMost(dist[h.node], h.d) && heap[h] == 1
    && (dist[h.node] == Some(h.d) ==> from[h.node] == Some(h.from) && mark[h.node].None?)
  }

  ghost predicate AllFresh(mark: Marks, dist: Dists, from: Origins, heap: multiset<Visit>) {
    forall h | h in heap :: Fresh(mark, dist, from, heap, h)
  }

  /** `mark` is ghost: the nodes expanded so far. */
  ghost predicate Correcting(g: Graph, sources: seq<nat>, mark: Marks, dist: Dists, from: Origins,
                             heap: multiset<Visit>, paths: seq<Path>) {
    && |mark| == g.n && Traced(g, sources, dist, from, paths)
    && AllFresh(mark, dist, from, heap) && Waiting(mark, dist, heap) && Ahead(mark, dist, heap)
    && (forall u: nat | u < g.n && mark[u].Some? :: dist[u].Some?)
  }

  /** No distance was raised. */
  ghost predicate Lowered(d: Dists, e: Dists) {
    |d| == |e| && forall u | 0 <= u < |d| && d[u].Some? :: AtMost(e[u], d[u].value)
  }

  /** The first `k` sources are at distance zero. */
  ghost predicate ZeroUpTo(dist: Dists, sources: seq<nat>, k: nat) {
    forall i | 0 <= i < k && i < |sources| :: sources[i] < |dist| && AtMost(dist[sources[i]], 0.0)
  }

  lemma ExpandFresh(mark: Marks, dist: Dists, from: Origins, heap: multiset<Visit>, top: Visit)
    requires AllFresh(mark, dist, from, heap) && top in heap && dist[top.node] == Some(top.d)
    ensures AllFresh(mark[top.node := Some(0)], dist, from, heap - multiset{top})
  {
    var rest := heap - multiset{top};
    forall h | h in rest
      ensures Fresh(mark[top.node := Some(0)], dist, from, rest, h)
    {
      assert Fresh(mark, dist, from, heap, h) && Fresh(mark, dist, from, heap, top);
      assert h != top;
    }
  }

  lemma DropFresh(mark: Marks, dist: Dists, from: Origins, heap: multiset<Visit>, top: Visit)
    requires AllFresh(mark, dist, from, heap) && top in heap
    ensures AllFresh(mark, dist, from, heap - multiset{top})
  {
    var rest := heap - multiset{top};
    forall h | h in rest
      ensures Fresh(mark, dist, from, rest, h)
    {
      assert Fresh(mark, dist, from, heap, h);
    }
  }

  lemma PushFresh(mark: Marks, dist: Dists, from: Origins, heap: multiset<Visit>, e: Visit)
    requires AllFresh(mark, dist, from, heap) && e.node < |mark| == |dist| == |from|
    requires mark[e.node].None? && !AtMost(dist[e.node], e.d)
    ensures AllFresh(mark, dist[e.node := Some(e.d)], from[e.node := Some(e.from)], heap + multiset{e})
  {
    assert forall h | h in heap :: Fresh(mark, dist, from, heap, h);
    assert e !in heap;
    forall h | h in heap + multiset{e}
      ensures Fresh(mark, dist[e.node := Some(e.d)], from[e.node := Some(e.from)], heap + multiset{e}, h)
    {
      if h in heap {
        assert Fresh(mark, dist, from, heap, h);
      }
    }
  }

  lemma PushTraced(g: Graph, sources: seq<nat>, dist: Dists, from: Origins, paths: seq<Path>, e: Visit, p: Path)
    requires Traced(g, sources, dist, from, paths)
    requires IsPath(g, p) && p.v == e.node && p.Cost() == e.d && p.Start() == e.from && e.from in sources
    ensures Traced(g, sources, dist[e.node := Some(e.d)], from[e.node := Some(e.from)], paths[e.node := p])
  {
  }

  /** Recording a shorter walk to a node that has not been expanded. */
  lemma PushKeeps(g: Graph, sources: seq<nat>, mark: Marks, dist: Dists, from: Origins, heap: multiset<Visit>,
                  paths: seq<Path>, e: Visit, p: Path, d: real)
    requires Correcting(g, sources, mark, dist, from, heap, paths)
    requires IsPath(g, p) && p.v == e.node && p.Cost() == e.d && p.Start() == e.from && e.from in sources
    requires mark[e.node].None? && !AtMost(dist[e.node], e.d) && Frontier(mark, dist, d) && d <= e.d
    ensures Correcting(g, sources, mark, dist[e.node := Some(e.d)], from[e.node := Some(e.from)], heap + multiset{e},
                       paths[e.node := p])
    ensures Frontier(mark, dist[e.node := Some(e.d)], d)
  {
    PushTraced(g, sources, dist, from, paths, e, p);
    PushFresh(mark, dist, from, heap, e);
    PushWaiting(mark, dist, heap, e);
    ImproveFrontiers(mark, dist, heap, e.node, e.d, d);
  }

  lemma ExpandKeeps(g: Graph, sources: seq<nat>, mark: Marks, dist: Dists, from: Origins, heap: multiset<Visit>,
                    paths: seq<Path>, top: Visit)
    requires Correcting(g, sources, mark, dist, from, heap, paths)
    requires top in heap && (forall h | h in heap :: Before(top, h)) && Fresh(mark, dist, from, heap, top)
    requires dist[top.node] == Some(top.d)
    ensures Correcting(g, sources, mark[top.node := Some(0)], dist, from, heap - multiset{top}, paths)
    ensures Frontier(mark[top.node := Some(0)], dist, top.d)
  {
    ExpandFresh(mark, dist, from, heap, top);
    DropWaiting(mark, dist, heap, mark[top.node := Some(0)], top);
    assert Frontier(mark, dist, top.d);
    forall h | h in heap - multiset{top}
      ensures Frontier(mark[top.node := Some(0)], dist, h.d)
    {
      assert Frontier(mark, dist, h.d) && Before(top, h);
    }
  }

  lemma StaleKeeps(g: Graph, sources: seq<nat>, mark: Marks, dist: Dists, from: Origins, heap: multiset<Visit>,
                   paths: seq<Path>, top: Visit)
    requires Correcting(g, sources, mark, dist, from, heap, paths)
    requires top in heap && Fresh(mark, dist, from, heap, top) && top.d > dist[top.node].value
    ensures Correcting(g, sources, mark, dist, from, heap - multiset{top}, paths)
  {
    DropFresh(mark, dist, from, heap, top);
    DropWaiting(mark, dist, heap, mark, top);
  }

  ghost predicate Widening(g: Graph, sources: seq<nat>, top: Visit, arcs: seq<(nat, real)>, j: nat, mark: Marks,
                           dist: Dists, from: Origins, heap: multiset<Visit>, paths: seq<Path>) {
    && Correcting(g, sources, mark, dist, from, heap, paths) && Frontier(mark, dist, top.d)
    && AllRelaxed(g, mark, dist, Some(top.node))
    && top.node < g.n && mark[top.node].Some? && dist[top.node] == Some(top.d) && from[top.node] == Some(top.from)
    && RelaxedUpTo(dist, top.node, arcs, j)
  }

  method WidenArc(g: Graph, sources: seq<nat>, top: Visit, arcs: seq<(nat, real)>, j: nat,
                  ghost mark: Marks, dist0: Dists, from0: Origins, heap0: multiset<Visit>, ghost paths0: seq<Path>)
    returns (dist: Dists, from: Origins, heap: multiset<Visit>, ghost paths: seq<Path>)
    requires g.Valid() && Widening(g, sources, top, arcs, j, mark, dist0, from0, heap0, paths0)
    requires j < |arcs| && g.HasArc(top.node, arcs[j].0, arcs[j].1)
    ensures Widening(g, sources, top, arcs, j + 1, mark, dist, from, heap, paths)
    ensures Lowered(dist0, dist)
  {
    var (v, w) := arcs[j];
    ArcBounds(g, top.node, v, w);
    var nd := top.d + w;
    dist, from, heap, paths := dist0, from0, heap0, paths0;
    if dist[v].None? || nd < dist[v].value {
      assert mark[v].None?;
      ghost var p := Hop(paths[top.node], w, v);
      PushKeeps(g, sources, mark, dist, from, heap, paths, Visit(nd, v, top.from), p, top.d);
      ImproveRelaxed(g, mark, dist, Some(top.node), v, nd);
      RelaxedUpToKept(dist, top.node, arcs, j, v, nd);
      dist := dist[v := Some(nd)];
      from := from[v := Some(top.from)];
      paths := paths[v := p];
      heap := heap + multiset{Visit(nd, v, top.from)};
    }
    assert Relaxed(dist, top.node, v, w);
  }

  method WidenAll(g: Graph, sources: seq<nat>, adj: seq<seq<(nat, real)>>, top: Visit,
                  ghost mark: Marks, dist0: Dists, from0: Origins, heap0: multiset<Visit>, ghost paths0: seq<Path>)
    returns (dist: Dists, from: Origins, heap: multiset<Visit>, ghost paths: seq<Path>)
    requires g.Valid() && Mirrors(g, adj) && top.node < g.n
    requires Widening(g, sources, top, adj[top.node], 0, mark, dist0, from0, heap0, paths0)
    ensures Correcting(g, sources, mark, dist, from, heap, paths) && AllRelaxed(g, mark, dist, None)
    ensures Lowered(dist0, dist)
  {
    var u := top.node;
    dist, from, heap, paths := dist0, from0, heap0, paths0;
    for j := 0 to |adj[u]|
      invariant Widening(g, sources, top, adj[u], j, mark, dist, from, heap, paths) && Lowered(dist0, dist)
    {
      assert adj[u][j] in adj[u];
      assert g.HasArc(u, adj[u][j].0, adj[u][j].1);
      dist, from, heap, paths := WidenArc(g, sources, top, adj[u], j, mark, dist, from, heap, paths);
    }
    ListRelaxed(g, adj, mark, dist, u);
  }

  /** Take the least entry; expand its node unless a shorter walk is known. */
  method Correct(g: Graph, sources: seq<nat>, adj: seq<seq<(nat, real)>>,
                 ghost mark0: Marks, dist0: Dists, from0: Origins, heap0: multiset<Visit>, ghost paths0: seq<Path>)
    returns (ghost mark: Marks, dist: Dists, from: Origins, heap: multiset<Visit>, ghost paths: seq<Path>)
    requires g.Valid() && Mirrors(g, adj) && |heap0| > 0
    requires Correcting(g, sources, mark0, dist0, from0, heap0, paths0) && AllRelaxed(g, mark0, dist0, None)
    ensures Correcting(g, sources, mark, dist, from, heap, paths) && AllRelaxed(g, mark, dist, None)
    ensures Unsettled(mark) < Unsettled(mark0) || (mark == mark0 && |heap| < |heap0|)
    ensures Lowered(dist0, dist)
  {
    mark, dist, from, paths := mark0, dist0, from0, paths0;
    var top, rest := PopLeast(heap0);
    assert Fresh(mark, dist, from, heap0, top);
    heap := rest;
    if top.d > dist[top.node].value {
      StaleKeeps(g, sources, mark, dist, from, heap0, paths, top);
    } else {
      ExpandKeeps(g, sources, mark, dist, from, heap0, paths, top);
      SettleShrinks(mark, top.node, 0);
      mark := mark[top.node := Some(0)];
      dist, from, heap, paths := WidenAll(g, sources, adj, top, mark, dist, from, heap, paths);
    }
  }

  lemma CorrectedIsExact(g: Graph, sources: seq<nat>, mark: Marks, dist: Dists, from: Origins, paths: seq<Path>)
    requires g.Valid() && Correcting(g, sources, mark, dist, from, multiset{}, paths) && AllRelaxed(g, mark, dist, None)
    requires ZeroUpTo(dist, sources, |sources|)
    ensures Exact(g, (set s | s in sources), dist)
  {
    var nodes := set s | s in sources;
    forall u: nat | u < g.n && mark[u].None?
      ensures dist[u].None?
    {
      if dist[u].Some? {
        assert false;
      }
    }
    forall p | PathFrom(g, nodes, p)
      ensures AtMost(dist[p.v], p.Cost())
    {
      RelaxedBoundsPath(g, nodes, dist, p);
    }
    forall v: nat | v < g.n && dist[v].Some?
      ensures exists p :: PathFrom(g, nodes, p) && p.v == v && p.Cost() == dist[v].value
    {
      assert PathFrom(g, nodes, paths[v]);
    }
  }

  /** `p` is a shortest walk to `v` from the source recorded for it. */
  ghost predicate NearestWalk(g: Graph, dist: Dists, from: Origins, v: nat, p: Path) {
    && v < |dist| && v < |from|
    && IsPath(g, p) && p.v == v && dist[v] == Some(p.Cost()) && from[v] == Some(p.Start())
  }

  lemma TracedWalks(g: Graph, sources: seq<nat>, dist: Dists, from: Origins, paths: seq<Path>)
    requires Traced(g, sources, dist, from, paths)
    ensures forall v | 0 <= v < g.n && from[v].Some? :: from[v].value in sources
    ensures forall v: nat | v < g.n && dist[v].Some? :: exists p :: NearestWalk(g, dist, from, v, p)
  {
    forall v: nat | v < g.n && dist[v].Some?
      ensures exists p :: NearestWalk(g, dist, from, v, p)
    {
      assert NearestWalk(g, dist, from, v, paths[v]);
    }
  }

  /** Every source, once, at distance zero from itself. */
  method SeedSources(g: Graph, sources: seq<nat>, ghost mark: Marks)
    returns (dist: Dists, from: Origins, heap: multiset<Visit>, ghost paths: seq<Path>)
    requires g.Valid() && (forall s | s in sources :: s < g.n) && mark == seq(g.n, _ => None)
    ensures Correcting(g, sources, mark, dist, from, heap, paths)
    ensures ZeroUpTo(dist, sources, |sources|)
  {
    paths := seq(g.n, _ => At(0));
    dist := seq(g.n, _ => None);
    from := seq(g.n, _ => None);
    heap := multiset{};
    for k := 0 to |sources|
      invariant Correcting(g, sources, mark, dist, from, heap, paths)
      invariant ZeroUpTo(dist, sources, k)
    {
      var s := sources[k];
      assert s in sources;
      if dist[s].None? || dist[s].value > 0.0 {
        PushKeeps(g, sources, mark, dist, from, heap, paths, Visit(0.0, s, s), At(s), 0.0);
        dist := dist[s := Some(0.0)];
        from := from[s := Some(s)];
        paths := paths[s := At(s)];
        heap := heap + multiset{Visit(0.0, s, s)};
      }
    }
  }

  /** Exact distances, and for every reached bus a source at that distance. */
  method DistanceToSources(g: Graph, sources: seq<nat>) returns (dist: Dists, from: Origins)
    requires g.Valid() && (forall s | s in sources :: s < g.n)
    ensures |from| == g.n && Exact(g, (set s | s in sources), dist)
    ensures forall v | 0 <= v < g.n :: from[v].Some? <==> dist[v].Some?
    ensures forall v | 0 <= v < g.n && from[v].Some? :: from[v].value in sources
    ensures forall v: nat | v < g.n && dist[v].Some? :: exists p :: NearestWalk(g, dist, from, v, p)
  {
    var adj := BuildAdjacency(g);
    ghost var mark: Marks := seq(g.n, _ => None);
    var heap: multiset<Visit>;
    ghost var paths;
    dist, from, heap, paths := SeedSources(g, sources, mark);
    while |heap| > 0
      invariant Correcting(g, sources, mark, dist, from, heap, paths) && AllRelaxed(g, mark, dist, None)
      invariant ZeroUpTo(dist, sources, |sources|)
      decreases Unsettled(mark), |heap|
    {
      mark, dist, from, heap, paths := Correct(g, sources, adj, mark, dist, from, heap, paths);
    }
    CorrectedIsExact(g, sources, mark, dist, from, paths);
    TracedWalks(g, sources, dist, from, paths);
  }
}
