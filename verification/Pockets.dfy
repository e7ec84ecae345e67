/**
 Pockets of a level: the lazy-deletion multi-source shortest-path sweep that
 assigns every member of a voltage level to its nearest fed bus.
 */
module Pockets {
  import opened Options
  import opened ShortestPaths

  /** One level of one island: its weighted Delaunay graph over local indices,
      the bus behind each local index, and the fed buses. */
  datatype Level = Level(g: Graph, members: seq<nat>, sources: seq<nat>) {
    ghost predicate Valid() {
      && g.Valid() && |members| == g.n
      && (forall i, j | 0 <= i < j < |members| :: members[i] != members[j])
      && (forall s | s in sources :: s in members)
    }

    /** Local indices of the members that are sources. */
    ghost function SourceNodes(): set<nat> {
      set l: nat | l < |members| && members[l] in sources
    }

    /** Local index `l` is the `k`th source. */
    ghost predicate IsSource(l: nat, k: nat) {
      l < |members| && k < |sources| && members[l] == sources[k]
    }
  }

  /** Every node of the walk is owned by pocket `k`. */
  ghost predicate Inside(p: Path, owner: seq<nat>, k: nat) {
    p.v < |owner| && owner[p.v] == k && (p.Hop? ==> Inside(p.prefix, owner, k))
  }

  /** `p` is a walk of length `best[v]` from the source of `v`'s pocket to `v`
      that never leaves that pocket. */
  ghost predicate PocketPath(lv: Level, owner: seq<nat>, best: seq<Option<real>>, v: nat, p: Path) {
    && v < |owner| && v < |best|
    && IsPath(lv.g, p) && p.v == v && best[v] == Some(p.Cost())
    && lv.IsSource(p.Start(), owner[v])
    && Inside(p, owner, owner[v])
  }

  // ------------------------------------------------------------ loop invariant

  type Marks = seq<Option<nat>>
  type Dists = seq<Option<real>>

  ghost predicate Owned(lv: Level, owner: Marks, v: nat, d: Option<real>, p: Path) {
    && v < |owner| && owner[v].Some?
    && IsPath(lv.g, p) && p.v == v && d == Some(p.Cost())
    && lv.IsSource(p.Start(), owner[v].value)
    && p.Within(owner, owner[v].value)
  }

  /** Across an arc from a settled member of the same pocket. */
  ghost predicate Across(lv: Level, owner: Marks, best: Dists, h: Visit, x: nat, w: real) {
    && x < |owner| && x < |best| && owner[x] == Some(h.from)
    && lv.g.HasArc(x, h.node, w) && best[x] == Some(h.d - w)
  }

  /** An entry was pushed by its source, or across an arc. */
  ghost predicate Justified(lv: Level, owner: Marks, best: Dists, h: Visit) {
    && h.node < |best| && AtMost(best[h.node], h.d)
    && ((h.d == 0.0 && lv.IsSource(h.node, h.from)) || exists x: nat, w :: Across(lv, owner, best, h, x, w))
  }

  ghost predicate Queued(heap: multiset<Visit>, u: nat, d: real) {
    exists h :: h in heap && h.node == u && h.d == d
  }

  ghost predicate Sized(lv: Level, owner: Marks, best: Dists) {
    |owner| == |best| == |lv.members| == lv.g.n
  }

  ghost predicate Entries(lv: Level, owner: Marks, best: Dists, heap: multiset<Visit>) {
    forall h | h in heap :: Justified(lv, owner, best, h)
  }

  /** An improved but unsettled member has an entry at its distance. */
  ghost predicate Waiting(owner: Marks, best: Dists, heap: multiset<Visit>) {
    forall u: nat | u < |owner| && u < |best| && owner[u].None? && best[u].Some? :: Queued(heap, u, best[u].value)
  }

  /** A settled member has its pocket walk. */
  ghost predicate Reached(lv: Level, owner: Marks, best: Dists, paths: seq<Path>) {
    forall u: nat | u < |owner| && u < |best| && u < |paths| && owner[u].Some? :: Owned(lv, owner, u, best[u], paths[u])
  }

  /** Settled members are no farther than `d`. */
  ghost predicate Frontier(owner: Marks, best: Dists, d: real) {
    forall u: nat | u < |owner| && u < |best| && owner[u].Some? :: AtMost(best[u], d)
  }

  ghost predicate Ahead(owner: Marks, best: Dists, heap: multiset<Visit>) {
    forall h | h in heap :: Frontier(owner, best, h.d)
  }

  ghost predicate SourcesAtZero(lv: Level, best: Dists) {
    forall u: nat | u in lv.SourceNodes() && u < |best| :: AtMost(best[u], 0.0)
  }

  ghost predicate Relaxed(best: Dists, u: nat, v: nat, w: real) {
    u < |best| && v < |best| && best[u].Some? && AtMost(best[v], best[u].value + w)
  }

  /** Every arc out of a settled member other than `except` is relaxed. */
  ghost predicate AllRelaxed(g: Graph, owner: Marks, best: Dists, except: Option<nat>) {
    forall u: nat, v: nat, w | u < |owner| && owner[u].Some? && Some(u) != except && g.HasArc(u, v, w) ::
      Relaxed(best, u, v, w)
  }

  ghost predicate Sweeping(lv: Level, owner: Marks, best: Dists, heap: multiset<Visit>, paths: seq<Path>) {
    && Sized(lv, owner, best) && |paths| == lv.g.n
    && Entries(lv, owner, best, heap) && Waiting(owner, best, heap)
    && Reached(lv, owner, best, paths) && Ahead(owner, best, heap) && SourcesAtZero(lv, best)
  }

  // ------------------------------------------------------------ settling

  lemma SettleEntries(lv: Level, owner: Marks, best: Dists, heap: multiset<Visit>, u: nat, k: nat)
    requires Entries(lv, owner, best, heap) && u < |owner| && owner[u].None?
    ensures Entries(lv, owner[u := Some(k)], best, heap)
  {
    forall h | h in heap
      ensures Justified(lv, owner[u := Some(k)], best, h)
    {
      assert Justified(lv, owner, best, h);
      if !(h.d == 0.0 && lv.IsSource(h.node, h.from)) {
        var x: nat, w :| Across(lv, owner, best, h, x, w);
        assert Across(lv, owner[u := Some(k)], best, h, x, w);
      }
    }
  }

  lemma DropWaiting(owner: Marks, best: Dists, heap: multiset<Visit>, owner': Marks, top: Visit)
    requires Waiting(owner, best, heap) && top in heap && |owner'| == |owner|
    requires forall y | 0 <= y < |owner| && owner'[y].None? :: owner[y].None?
    requires top.node < |owner| && top.node < |best| && best[top.node].Some?
    requires owner'[top.node].Some? || top.d > best[top.node].value
    ensures Waiting(owner', best, heap - multiset{top})
  {
  }

  lemma SettleWalk(lv: Level, owner: Marks, best: Dists, paths: seq<Path>, top: Visit) returns (path: Path)
    requires Sized(lv, owner, best) && |paths| == lv.g.n && Reached(lv, owner, best, paths)
    requires Justified(lv, owner, best, top) && owner[top.node].None?
    requires best[top.node] == Some(top.d)
    ensures Owned(lv, owner[top.node := Some(top.from)], top.node, best[top.node], path)
  {
    var u, owner' := top.node, owner[top.node := Some(top.from)];
    if top.d == 0.0 && lv.IsSource(u, top.from) {
      path := At(u);
    } else {
      var x: nat, w :| Across(lv, owner, best, top, x, w);
      assert Owned(lv, owner, x, best[x], paths[x]);
      path := Hop(paths[x], w, u);
      WithinKept(paths[x], owner, top.from, u, Some(top.from));
    }
  }

  lemma SettleReached(lv: Level, owner: Marks, best: Dists, paths: seq<Path>, u: nat, k: nat, path: Path)
    requires Reached(lv, owner, best, paths) && Sized(lv, owner, best) && |paths| == lv.g.n
    requires u < |owner| && owner[u].None? && Owned(lv, owner[u := Some(k)], u, best[u], path)
    ensures Reached(lv, owner[u := Some(k)], best, paths[u := path])
  {
    forall y: nat | y < |owner| && owner[y].Some?
      ensures Owned(lv, owner[u := Some(k)], y, best[y], paths[y])
    {
      assert Owned(lv, owner, y, best[y], paths[y]);
      WithinKept(paths[y], owner, owner[y].value, u, Some(k));
    }
  }

  // ------------------------------------------------------------ relaxing

  lemma ImproveEntries(lv: Level, owner: Marks, best: Dists, heap: multiset<Visit>, v: nat, nd: real)
    requires Entries(lv, owner, best, heap) && |owner| == |best|
    requires v < |owner| && owner[v].None? && !AtMost(best[v], nd)
    ensures Entries(lv, owner, best[v := Some(nd)], heap)
  {
    forall h | h in heap
      ensures Justified(lv, owner, best[v := Some(nd)], h)
    {
      assert Justified(lv, owner, best, h);
      if !(h.d == 0.0 && lv.IsSource(h.node, h.from)) {
        var x: nat, w :| Across(lv, owner, best, h, x, w);
        assert Across(lv, owner, best[v := Some(nd)], h, x, w);
      }
    }
  }

  lemma PushWaiting(owner: Marks, best: Dists, heap: multiset<Visit>, e: Visit)
    requires Waiting(owner, best, heap) && e.node < |best|
    ensures Waiting(owner, best[e.node := Some(e.d)], heap + multiset{e})
  {
  }

  /** One improvement: `u` is settled last, at the frontier. */
  lemma ImproveKeeps(lv: Level, owner: Marks, best: Dists, heap: multiset<Visit>, paths: seq<Path>, u: nat, v: nat,
                     w: real, e: Visit)
    requires lv.Valid() && Sweeping(lv, owner, best, heap, paths)
    requires u < lv.g.n && owner[u] == Some(e.from) && best[u] == Some(e.d - w) && Frontier(owner, best, e.d - w)
    requires v == e.node && v < lv.g.n && owner[v].None? && lv.g.HasArc(u, v, w) && w >= 0.0
    requires !AtMost(best[v], e.d)
    ensures Sweeping(lv, owner, best[v := Some(e.d)], heap + multiset{e}, paths)
    ensures Frontier(owner, best[v := Some(e.d)], e.d - w)
  {
    var best' := best[v := Some(e.d)];
    ImproveEntries(lv, owner, best, heap, v, e.d);
    PushWaiting(owner, best, heap, e);
    assert Across(lv, owner, best', e, u, w);
    assert Justified(lv, owner, best', e);
    ImproveFrontiers(owner, best, heap, v, e.d, e.d - w);
    assert forall y: nat | y < |owner| && owner[y].Some? :: best'[y] == best[y];
    NeverNegative(lv, owner, best, paths, u);
  }

  lemma ImproveFrontiers(owner: Marks, best: Dists, heap: multiset<Visit>, v: nat, nd: real, d: real)
    requires Ahead(owner, best, heap) && Frontier(owner, best, d) && d <= nd
    requires v < |owner| == |best| && owner[v].None?
    ensures Frontier(owner, best[v := Some(nd)], d) && Frontier(owner, best[v := Some(nd)], nd)
    ensures Ahead(owner, best[v := Some(nd)], heap)
  {
  }

  lemma NeverNegative(lv: Level, owner: Marks, best: Dists, paths: seq<Path>, u: nat)
    requires lv.g.Valid() && Reached(lv, owner, best, paths)
    requires u < |owner| && u < |best| && u < |paths| && owner[u].Some?
    ensures best[u].Some? && best[u].value >= 0.0
  {
    assert Owned(lv, owner, u, best[u], paths[u]);
    PathCostNonNegative(lv.g, paths[u]);
  }

  // ------------------------------------------------------------ the sweep

  /** The bus-to-local index of a level. */
  method Locals(members: seq<nat>) returns (localOf: map<nat, nat>)
    ensures forall s: nat | s in members :: s in localOf && localOf[s] < |members| && members[localOf[s]] == s
  {
    localOf := map[];
    for l := 0 to |members|
      invariant forall s: nat | s in members[..l] :: s in localOf && localOf[s] < l && members[localOf[s]] == s
    {
      localOf := localOf[members[l] := l];
      assert members[..l + 1] == members[..l] + [members[l]];
    }
    assert members[..|members|] == members;
  }

  ghost predicate Seeding(lv: Level, best: Dists, heap: multiset<Visit>) {
    && |best| == lv.g.n
    && (forall u | 0 <= u < |best| && best[u].Some? :: best[u].value == 0.0)
    && (forall h | h in heap :: h.node < |best| && h.d == 0.0 && best[h.node] == Some(0.0)
                                && lv.IsSource(h.node, h.from))
  }

  /** Every source enters the queue at distance zero. */
  method Seed(lv: Level, ghost paths: seq<Path>) returns (best: Dists, heap: multiset<Visit>)
    requires lv.Valid() && |paths| == lv.g.n
    ensures Sweeping(lv, seq(lv.g.n, _ => None), best, heap, paths)
  {
    var localOf := Locals(lv.members);
    ghost var unset: Marks := seq(lv.g.n, _ => None);
    best := seq(lv.g.n, _ => None);
    heap := multiset{};
    for p := 0 to |lv.sources|
      invariant Seeding(lv, best, heap) && Waiting(unset, best, heap)
      invariant forall q | 0 <= q < p :: localOf[lv.sources[q]] < |best| && best[localOf[lv.sources[q]]] == Some(0.0)
    {
      assert lv.sources[p] in lv.members;
      var l := localOf[lv.sources[p]];
      SeedOne(lv, best, heap, l, p);
      PushWaiting(unset, best, heap, Visit(0.0, l, p));
      best := best[l := Some(0.0)];
      heap := heap + multiset{Visit(0.0, l, p)};
    }
    SourcesSeeded(lv, localOf, best);
    SeededIsSweeping(lv, unset, best, heap, paths);
  }

  lemma SeedOne(lv: Level, best: Dists, heap: multiset<Visit>, l: nat, p: nat)
    requires Seeding(lv, best, heap) && lv.IsSource(l, p) && |lv.members| == lv.g.n
    ensures Seeding(lv, best[l := Some(0.0)], heap + multiset{Visit(0.0, l, p)})
  {
  }

  lemma SeededIsSweeping(lv: Level, unset: Marks, best: Dists, heap: multiset<Visit>, paths: seq<Path>)
    requires lv.Valid() && |paths| == lv.g.n && unset == seq(lv.g.n, _ => None)
    requires Seeding(lv, best, heap) && Waiting(unset, best, heap) && SourcesAtZero(lv, best)
    ensures Sweeping(lv, unset, best, heap, paths)
  {
  }

  lemma SourcesSeeded(lv: Level, localOf: map<nat, nat>, best: Dists)
    requires lv.Valid()
    requires forall s: nat | s in lv.members :: s in localOf && localOf[s] < |lv.members| && lv.members[localOf[s]] == s
    requires forall q | 0 <= q < |lv.sources| :: localOf[lv.sources[q]] < |best|
                                                 && best[localOf[lv.sources[q]]] == Some(0.0)
    ensures SourcesAtZero(lv, best)
  {
  }

  /** Settle the least entry: give its node the pocket it was reached from. */
  lemma SettleKeeps(lv: Level, owner: Marks, best: Dists, heap: multiset<Visit>, paths: seq<Path>, top: Visit)
    returns (path: Path)
    requires lv.Valid() && Sweeping(lv, owner, best, heap, paths)
    requires top in heap && (forall h | h in heap :: Before(top, h))
    requires top.node < lv.g.n && owner[top.node].None? && best[top.node] == Some(top.d)
    ensures Sweeping(lv, owner[top.node := Some(top.from)], best, heap - multiset{top}, paths[top.node := path])
    ensures Frontier(owner[top.node := Some(top.from)], best, top.d)
  {
    var u, k, rest := top.node, top.from, heap - multiset{top};
    SettleEntries(lv, owner, best, heap, u, k);
    DropWaiting(owner, best, heap, owner[u := Some(k)], top);
    assert Justified(lv, owner, best, top);
    path := SettleWalk(lv, owner, best, paths, top);
    SettleReached(lv, owner, best, paths, u, k, path);
    assert Frontier(owner, best, top.d);
    forall h | h in rest
      ensures Frontier(owner[u := Some(k)], best, h.d)
    {
      assert Frontier(owner, best, h.d) && Before(top, h);
    }
  }

  /** Arcs of `u` handled so far are relaxed. */
  ghost predicate RelaxedUpTo(best: Dists, u: nat, arcs: seq<(nat, real)>, j: nat) {
    forall i | 0 <= i < j && i < |arcs| :: Relaxed(best, u, arcs[i].0, arcs[i].1)
  }

  lemma RelaxedUpToKept(best: Dists, u: nat, arcs: seq<(nat, real)>, j: nat, v: nat, nd: real)
    requires RelaxedUpTo(best, u, arcs, j) && v < |best| && u != v && !AtMost(best[v], nd)
    ensures RelaxedUpTo(best[v := Some(nd)], u, arcs, j)
  {
  }

  /** `top` has just been settled, and the arcs before `j` of its list relaxed. */
  ghost predicate Expanding(lv: Level, top: Visit, arcs: seq<(nat, real)>, j: nat, owner: Marks, best: Dists,
                            heap: multiset<Visit>, paths: seq<Path>) {
    && Sweeping(lv, owner, best, heap, paths) && Frontier(owner, best, top.d)
    && AllRelaxed(lv.g, owner, best, Some(top.node))
    && top.node < lv.g.n && owner[top.node] == Some(top.from) && best[top.node] == Some(top.d)
    && RelaxedUpTo(best, top.node, arcs, j)
  }

  /** Relax one arc of the member just settled. */
  method RelaxArc(lv: Level, top: Visit, arcs: seq<(nat, real)>, j: nat, owner: Marks, best0: Dists,
                  heap0: multiset<Visit>, ghost paths: seq<Path>)
    returns (best: Dists, heap: multiset<Visit>)
    requires lv.Valid() && Expanding(lv, top, arcs, j, owner, best0, heap0, paths)
    requires j < |arcs| && lv.g.HasArc(top.node, arcs[j].0, arcs[j].1)
    ensures Expanding(lv, top, arcs, j + 1, owner, best, heap, paths)
  {
    var (v, w) := arcs[j];
    ArcBounds(lv.g, top.node, v, w);
    var nd := top.d + w;
    best, heap := best0, heap0;
    if owner[v].None? && (best[v].None? || nd < best[v].value) {
      ImproveKeeps(lv, owner, best, heap, paths, top.node, v, w, Visit(nd, v, top.from));
      ImproveRelaxed(lv.g, owner, best, Some(top.node), v, nd);
      RelaxedUpToKept(best, top.node, arcs, j, v, nd);
      best := best[v := Some(nd)];
      heap := heap + multiset{Visit(nd, v, top.from)};
    } else if owner[v].Some? {
      assert AtMost(best[v], top.d);
    }
    assert Relaxed(best, top.node, v, w);
  }

  method Expand(lv: Level, adj: seq<seq<(nat, real)>>, top: Visit, owner: Marks, best0: Dists, heap0: multiset<Visit>,
                ghost paths: seq<Path>)
    returns (best: Dists, heap: multiset<Visit>)
    requires lv.Valid() && Mirrors(lv.g, adj) && top.node < lv.g.n
    requires Expanding(lv, top, adj[top.node], 0, owner, best0, heap0, paths)
    ensures Sweeping(lv, owner, best, heap, paths) && AllRelaxed(lv.g, owner, best, None)
  {
    var u := top.node;
    best, heap := best0, heap0;
    for j := 0 to |adj[u]|
      invariant Expanding(lv, top, adj[u], j, owner, best, heap, paths)
    {
      assert adj[u][j] in adj[u];
      assert lv.g.HasArc(u, adj[u][j].0, adj[u][j].1);
      best, heap := RelaxArc(lv, top, adj[u], j, owner, best, heap, paths);
    }
    ListRelaxed(lv.g, adj, owner, best, u);
  }

  lemma ListRelaxed(g: Graph, adj: seq<seq<(nat, real)>>, owner: Marks, best: Dists, u: nat)
    requires Mirrors(g, adj) && u < g.n
    requires AllRelaxed(g, owner, best, Some(u)) && RelaxedUpTo(best, u, adj[u], |adj[u]|)
    ensures AllRelaxed(g, owner, best, None)
  {
  }

  lemma ArcBounds(g: Graph, u: nat, v: nat, w: real)
    requires g.Valid() && g.HasArc(u, v, w)
    ensures u < g.n && v < g.n && w >= 0.0
  {
  }

  lemma ImproveRelaxed(g: Graph, owner: Marks, best: Dists, except: Option<nat>, v: nat, nd: real)
    requires AllRelaxed(g, owner, best, except) && v < |best| == |owner| && owner[v].None? && !AtMost(best[v], nd)
    ensures AllRelaxed(g, owner, best[v := Some(nd)], except)
  {
  }

  /** The relaxed distances bound every walk from a source from below. */
  lemma {:induction false} RelaxedBoundsPath(g: Graph, sources: set<nat>, best: Dists, p: Path)
    requires |best| == g.n && PathFrom(g, sources, p)
    requires forall u: nat | u in sources :: u < g.n && AtMost(best[u], 0.0)
    requires forall u: nat, v: nat, w | u < g.n && best[u].Some? && g.HasArc(u, v, w) :: Relaxed(best, u, v, w)
    ensures AtMost(best[p.v], p.Cost())
  {
    if p.Hop? {
      RelaxedBoundsPath(g, sources, best, p.prefix);
      assert Relaxed(best, p.prefix.v, p.v, p.w);
    }
  }

  /** Once the queue is empty the labels are the exact distances. */
  lemma SweptIsExact(lv: Level, owner: Marks, best: Dists, paths: seq<Path>)
    requires lv.Valid() && Sweeping(lv, owner, best, multiset{}, paths) && AllRelaxed(lv.g, owner, best, None)
    ensures Exact(lv.g, lv.SourceNodes(), best)
    ensures forall u | 0 <= u < lv.g.n :: owner[u].Some? <==> best[u].Some?
  {
    var g, nodes := lv.g, lv.SourceNodes();
    forall u: nat | u < g.n
      ensures owner[u].Some? <==> best[u].Some?
    {
      if owner[u].None? && best[u].Some? {
        assert false;
      } else if owner[u].Some? {
        assert Owned(lv, owner, u, best[u], paths[u]);
      }
    }
    forall p | PathFrom(g, nodes, p)
      ensures AtMost(best[p.v], p.Cost())
    {
      RelaxedBoundsPath(g, nodes, best, p);
    }
    forall v: nat | v < g.n && best[v].Some?
      ensures exists p :: PathFrom(g, nodes, p) && p.v == v && p.Cost() == best[v].value
    {
      assert Owned(lv, owner, v, best[v], paths[v]);
      assert PathFrom(g, nodes, paths[v]);
    }
  }

  ghost function Unsettled(owner: Marks): set<nat> {
    set u: nat | u < |owner| && owner[u].None?
  }

  lemma SettleShrinks(owner: Marks, u: nat, k: nat)
    requires u < |owner| && owner[u].None?
    ensures Unsettled(owner[u := Some(k)]) < Unsettled(owner)
  {
    assert u in Unsettled(owner) && u !in Unsettled(owner[u := Some(k)]);
  }

  lemma DropKeeps(lv: Level, owner: Marks, best: Dists, heap: multiset<Visit>, paths: seq<Path>, top: Visit)
    requires Sweeping(lv, owner, best, heap, paths) && top in heap && Justified(lv, owner, best, top)
    requires owner[top.node].Some? || top.d > best[top.node].value
    ensures Sweeping(lv, owner, best, heap - multiset{top}, paths)
  {
    DropWaiting(owner, best, heap, owner, top);
  }

  /** Take the least entry: drop it when stale, else settle its node. */
  method Advance(lv: Level, adj: seq<seq<(nat, real)>>, mark0: Marks, best0: Dists, heap0: multiset<Visit>,
                 ghost paths0: seq<Path>)
    returns (mark: Marks, best: Dists, heap: multiset<Visit>, ghost paths: seq<Path>)
    requires lv.Valid() && Mirrors(lv.g, adj) && |heap0| > 0
    requires Sweeping(lv, mark0, best0, heap0, paths0) && AllRelaxed(lv.g, mark0, best0, None)
    ensures Sweeping(lv, mark, best, heap, paths) && AllRelaxed(lv.g, mark, best, None)
    ensures Unsettled(mark) < Unsettled(mark0) || (mark == mark0 && |heap| < |heap0|)
  {
    mark, best, paths := mark0, best0, paths0;
    var top, rest := PopLeast(heap0);
    assert Justified(lv, mark, best, top);
    if mark[top.node].Some? || top.d > best[top.node].value {
      DropKeeps(lv, mark, best, heap0, paths, top);
      heap := rest;
    } else {
      ghost var path := SettleKeeps(lv, mark, best, heap0, paths, top);
      SettleShrinks(mark, top.node, top.from);
      mark := mark[top.node := Some(top.from)];
      paths := paths[top.node := path];
      best, heap := Expand(lv, adj, top, mark, best, rest, paths);
    }
  }

  /** Owner and distance of every member. Distances are exact; a reached member
      has a shortest walk to its owner's source inside its own pocket; a member
      no source reaches joins the first pocket at infinite distance. */
  method PocketsWithDistance(lv: Level) returns (owner: seq<nat>, best: Dists)
    requires lv.Valid()
    ensures |owner| == lv.g.n && Exact(lv.g, lv.SourceNodes(), best)
    ensures forall v | 0 <= v < lv.g.n && best[v].None? :: owner[v] == 0
    ensures forall v: nat | v < lv.g.n && best[v].Some? :: exists p :: PocketPath(lv, owner, best, v, p)
  {
    var adj := BuildAdjacency(lv.g);
    ghost var paths := seq(lv.g.n, _ => At(0));
    var heap: multiset<Visit>;
    best, heap := Seed(lv, paths);
    var mark: Marks := seq(lv.g.n, _ => None);
    while |heap| > 0
      invariant Sweeping(lv, mark, best, heap, paths) && AllRelaxed(lv.g, mark, best, None)
      decreases Unsettled(mark), |heap|
    {
      mark, best, heap, paths := Advance(lv, adj, mark, best, heap, paths);
    }
    SweptIsExact(lv, mark, best, paths);
    owner := seq(lv.g.n, i requires 0 <= i < lv.g.n => if mark[i].Some? then mark[i].value else 0);
    OwnersKeepWalks(lv, mark, best, paths, owner);
  }

  lemma OwnersKeepWalks(lv: Level, mark: Marks, best: Dists, paths: seq<Path>, owner: seq<nat>)
    requires lv.Valid() && Sweeping(lv, mark, best, multiset{}, paths) && |owner| == lv.g.n
    requires forall i | 0 <= i < |mark| && mark[i].Some? :: owner[i] == mark[i].value
    requires forall u | 0 <= u < lv.g.n :: mark[u].Some? <==> best[u].Some?
    ensures forall v: nat | v < lv.g.n && best[v].Some? :: exists p :: PocketPath(lv, owner, best, v, p)
  {
    forall v: nat | v < lv.g.n && best[v].Some?
      ensures exists p :: PocketPath(lv, owner, best, v, p)
    {
      assert Owned(lv, mark, v, best[v], paths[v]);
      WithinOwners(paths[v], mark, owner, mark[v].value);
      assert PocketPath(lv, owner, best, v, paths[v]);
    }
  }

  lemma WithinOwners(p: Path, mark: Marks, owner: seq<nat>, k: nat)
    requires p.Within(mark, k) && |owner| == |mark|
    requires forall i | 0 <= i < |mark| && mark[i].Some? :: owner[i] == mark[i].value
    ensures Inside(p, owner, k)
  {
  }
}
