/**
 From the pockets of a level to its tapped trees: a spanning tree of every pocket
 over the candidate corridors inside it, on bus indices, with its taps. The trees
 connect exactly the pockets.
 */
module PocketTrees {
  import opened Options
  import opened Geometry
  import ShortestPaths
  import opened Pockets
  import opened Forests
  import opened SpanningForest
  import opened LightestForests
  import opened Taps

  // ------------------------------------------------------------ candidates inside pockets

  /** The candidates both ends of which have one owner. */
  ghost function InsideEdges(owner: seq<nat>, cand: seq<Edge>): set<Edge>
    requires Candidates(|owner|, cand)
  {
    set e | e in cand && owner[e.a] == owner[e.b]
  }

  /** The candidates inside pockets, by index. */
  ghost predicate AreInside(owner: seq<nat>, cand: seq<Edge>, k: nat, inside: seq<nat>)
    requires Candidates(|owner|, cand)
  {
    && (forall i, j | 0 <= i < j < |inside| :: inside[i] < inside[j])
    && (forall i: nat :: i in inside <==> i < k && i < |cand| && IsInside(owner, cand, i))
  }

  predicate IsInside(owner: seq<nat>, cand: seq<Edge>, i: nat)
    requires Candidates(|owner|, cand) && i < |cand|
  {
    assert cand[i] in cand;
    owner[cand[i].a] == owner[cand[i].b]
  }

  method InsideCandidates(owner: seq<nat>, cand: seq<Edge>) returns (inside: seq<nat>)
    requires Candidates(|owner|, cand)
    ensures AreInside(owner, cand, |cand|, inside)
  {
    inside := [];
    for k := 0 to |cand|
      invariant AreInside(owner, cand, k, inside)
    {
      if IsInside(owner, cand, k) {
        assert forall i | 0 <= i < |inside| :: inside[i] in inside;
        inside := inside + [k];
      }
    }
  }

  function Chosen<T>(all: seq<T>, inside: seq<nat>): (r: seq<T>)
    requires forall k | k in inside :: k < |all|
  {
    seq(|inside|, i requires 0 <= i < |inside| => assert inside[i] in inside; all[inside[i]])
  }

  lemma ChosenAreInside(owner: seq<nat>, cand: seq<Edge>, inside: seq<nat>)
    requires Candidates(|owner|, cand) && AreInside(owner, cand, |cand|, inside)
    ensures All(Chosen(cand, inside)) == InsideEdges(owner, cand) && Candidates(|owner|, Chosen(cand, inside))
  {
    var sub := Chosen(cand, inside);
    forall e | e in sub
      ensures e in cand && owner[e.a] == owner[e.b]
    {
      var i :| 0 <= i < |sub| && sub[i] == e;
      assert inside[i] in inside;
    }
    forall e | e in InsideEdges(owner, cand)
      ensures e in sub
    {
      var k :| 0 <= k < |cand| && cand[k] == e;
      assert IsInside(owner, cand, k) && k in inside;
      var i :| 0 <= i < |inside| && inside[i] == k;
      assert sub[i] == e;
    }
  }

  /** A trail inside pockets never changes pocket. */
  lemma {:induction false} TrailStays(owner: seq<nat>, cand: seq<Edge>, t: Trail)
    requires Candidates(|owner|, cand) && IsTrail(InsideEdges(owner, cand), t) && t.Start() < |owner|
    ensures t.v < |owner| && owner[t.v] == owner[t.Start()]
  {
    if t.Step? {
      TrailStays(owner, cand, t.prefix);
    }
  }

  lemma ConnectedStays(owner: seq<nat>, cand: seq<Edge>, x: nat, y: nat)
    requires Candidates(|owner|, cand) && x < |owner| && y < |owner| && Connected(InsideEdges(owner, cand), x, y)
    ensures owner[x] == owner[y]
  {
    var t :| Joins(InsideEdges(owner, cand), t, x, y);
    TrailStays(owner, cand, t);
  }

  /** Every corridor of the level's graph is a candidate. */
  ghost predicate CoversGraph(g: ShortestPaths.Graph, cand: seq<Edge>) {
    forall a | a in g.arcs :: Link(a.a, a.b) in cand
  }

  /** A walk inside a pocket is a trail of candidates inside it. */
  lemma {:induction false} WalkIsTrail(lv: Level, owner: seq<nat>, cand: seq<Edge>, p: ShortestPaths.Path, k: nat)
    requires |owner| == lv.g.n && Candidates(|owner|, cand) && CoversGraph(lv.g, cand)
    requires ShortestPaths.IsPath(lv.g, p) && Inside(p, owner, k)
    ensures Connected(InsideEdges(owner, cand), p.Start(), p.v)
  {
    var edges := InsideEdges(owner, cand);
    if p.At? {
      Reflexive(edges, p.v);
    } else {
      WalkIsTrail(lv, owner, cand, p.prefix, k);
      assert lv.g.HasArc(p.prefix.v, p.v, p.w);
      assert Link(p.prefix.v, p.v) == Link(p.v, p.prefix.v);
      Adjacent(edges, p.prefix.v, p.v);
      Transitive(edges, p.Start(), p.prefix.v, p.v);
    }
  }

  /** Reached members of one pocket are joined by candidates inside it. */
  lemma PocketJoined(lv: Level, owner: seq<nat>, best: Dists, cand: seq<Edge>, x: nat, y: nat)
    requires lv.Valid() && |owner| == |best| == lv.g.n && Candidates(|owner|, cand) && CoversGraph(lv.g, cand)
    requires x < lv.g.n && y < lv.g.n && owner[x] == owner[y]
    requires (exists p :: PocketPath(lv, owner, best, x, p)) && exists p :: PocketPath(lv, owner, best, y, p)
    ensures Connected(InsideEdges(owner, cand), x, y)
  {
    var edges := InsideEdges(owner, cand);
    var p :| PocketPath(lv, owner, best, x, p);
    var q :| PocketPath(lv, owner, best, y, q);
    WalkIsTrail(lv, owner, cand, p, owner[x]);
    WalkIsTrail(lv, owner, cand, q, owner[y]);
    assert p.Start() == q.Start();
    Symmetric(edges, p.Start(), x);
    Transitive(edges, x, p.Start(), y);
  }

  // ------------------------------------------------------------ trees on bus indices

  /** `tree` is a forest over buses that connects members exactly as the candidates inside pockets do. */
  ghost predicate TreeOf(members: seq<nat>, owner: seq<nat>, cand: seq<Edge>, tree: set<Edge>)
    requires Candidates(|owner|, cand)
  {
    && |owner| == |members| && Forest(tree)
    && (forall e | e in tree :: e.a in members && e.b in members)
    && (forall x: nat, y: nat | x < |members| && y < |members| ::
          Connected(tree, members[x], members[y]) <==> Connected(InsideEdges(owner, cand), x, y))
  }

  /** No forest that spans the pockets by candidates inside them is lighter, however
      the noisy lengths are read as a weight of edges. */
  ghost predicate Lightest(owner: seq<nat>, cand: seq<Edge>, noisy: seq<real>, local: set<Edge>)
    requires Candidates(|owner|, cand) && |cand| == |noisy|
  {
    forall w: Edge -> real, f: set<Edge> | Weighs(w, cand, noisy) && Spans(owner, cand, f) ::
      Weight(w, local) <= Weight(w, f)
  }

  ghost predicate Weighs(w: Edge -> real, cand: seq<Edge>, noisy: seq<real>)
    requires |cand| == |noisy|
  {
    forall k | 0 <= k < |cand| :: noisy[k] == w(cand[k])
  }

  ghost predicate Spans(owner: seq<nat>, cand: seq<Edge>, f: set<Edge>)
    requires Candidates(|owner|, cand)
  {
    f <= InsideEdges(owner, cand) && Forest(f) && Same(f, InsideEdges(owner, cand))
  }

  lemma PicksAreLightest(owner: seq<nat>, cand: seq<Edge>, noisy: seq<real>, inside: seq<nat>, chosen: seq<nat>)
    requires Candidates(|owner|, cand) && |cand| == |noisy| && AreInside(owner, cand, |cand|, inside)
    requires var sub := Chosen(cand, inside);
             && Indices(sub, chosen) && Forest(Picked(sub, chosen))
             && forall k: nat | k < |sub| :: Spanned(sub, Chosen(noisy, inside), chosen, k)
    ensures Lightest(owner, cand, noisy, Picked(Chosen(cand, inside), chosen))
  {
    var sub, weight := Chosen(cand, inside), Chosen(noisy, inside);
    ChosenAreInside(owner, cand, inside);
    forall w: Edge -> real, f: set<Edge> | Weighs(w, cand, noisy) && Spans(owner, cand, f)
      ensures Weight(w, Picked(sub, chosen)) <= Weight(w, f)
    {
      assert forall i | 0 <= i < |inside| :: inside[i] in inside;
      LightestForest(|owner|, sub, weight, chosen, w, f);
    }
  }

  /** A spanning tree of every pocket over the candidates at their noisy lengths,
      lightest of all, on bus indices. `sort` is the program's sort by weight. */
  method PocketTree(members: seq<nat>, owner: seq<nat>, cand: seq<Edge>, noisy: seq<real>, sort: seq<real> -> seq<nat>)
    returns (tree: set<Edge>, ghost local: set<Edge>)
    requires |owner| == |members| && Distinct(members) && Candidates(|owner|, cand) && |cand| == |noisy|
    requires forall w :: WeightOrder(sort(w), w)
    ensures TreeOf(members, owner, cand, tree)
    ensures Spans(owner, cand, local) && Lightest(owner, cand, noisy, local)
    ensures Below(local, |members|) && tree == Renamed(local, members)
  {
    var inside := InsideCandidates(owner, cand);
    ChosenAreInside(owner, cand, inside);
    var sub, weight := Chosen(cand, inside), Chosen(noisy, inside);
    var chosen := MinimumSpanningForest(|members|, sub, weight, sort(weight));
    local := Picked(sub, chosen);
    PicksBelow(|members|, sub, chosen);
    PicksAreLightest(owner, cand, noisy, inside, chosen);
    PicksSpan(|members|, sub, weight, chosen);
    tree := {};
    for k := 0 to |chosen|
      invariant Indices(sub, chosen[..k]) && Below(Picked(sub, chosen[..k]), |members|)
      invariant tree == Renamed(Picked(sub, chosen[..k]), members)
    {
      assert chosen[k] in chosen && sub[chosen[k]] in sub;
      PickedGrows(sub, chosen[..k], chosen[k]);
      assert chosen[..k + 1] == chosen[..k] + [chosen[k]];
      RenamedMore(Picked(sub, chosen[..k]), members, sub[chosen[k]]);
      tree := tree + {Link(members[sub[chosen[k]].a], members[sub[chosen[k]].b])};
    }
    assert chosen[..|chosen|] == chosen;
    RenamedForest(local, members);
    RenamedTree(members, owner, cand, sub, local, tree);
  }

  lemma PicksBelow(n: nat, edges: seq<Edge>, chosen: seq<nat>)
    requires Candidates(n, edges) && Indices(edges, chosen)
    ensures Below(Picked(edges, chosen), n)
  {
    assert forall k | k in chosen :: edges[k] in edges;
  }

  lemma RenamedMore(edges: set<Edge>, names: seq<nat>, e: Edge)
    requires Below(edges, |names|) && e.a < |names| && e.b < |names|
    ensures Renamed(edges + {e}, names) == Renamed(edges, names) + {Link(names[e.a], names[e.b])}
  {
  }

  lemma RenamedTree(members: seq<nat>, owner: seq<nat>, cand: seq<Edge>, sub: seq<Edge>, local: set<Edge>,
                    tree: set<Edge>)
    requires |owner| == |members| && Distinct(members) && Candidates(|owner|, cand)
             && All(sub) == InsideEdges(owner, cand)
    requires Below(local, |members|) && Forest(local) && tree == Renamed(local, members) && Forest(tree)
    requires forall x: nat, y: nat | x < |members| && y < |members| ::
               Connected(local, x, y) <==> Connected(All(sub), x, y)
    ensures TreeOf(members, owner, cand, tree)
  {
    forall x: nat, y: nat | x < |members| && y < |members|
      ensures Connected(tree, members[x], members[y]) <==> Connected(InsideEdges(owner, cand), x, y)
    {
      RenamedConnected(local, members, x, y);
    }
    forall e | e in tree
      ensures e.a in members && e.b in members
    {
      var d :| d in local && Link(members[d.a], members[d.b]) == e;
    }
  }

  // ------------------------------------------------------------ the level with its taps

  /** What a level's lines are: its members' trees, tapped. `made` names the member
      of every tap, which is the bus pushed at index `|points0| + k`. */
  datatype LevelLines = LevelLines(owner: seq<nat>, far: Dists, tree: set<Edge>, points: seq<Point>, edges: set<Edge>,
                                   made: seq<nat>)

  /** Reached members are connected exactly if they are in one pocket. */
  ghost predicate ConnectsPockets(lv: Level, r: LevelLines) {
    && |r.owner| == |r.far| == lv.g.n == |lv.members|
    && forall x: nat, y: nat | x < lv.g.n && y < lv.g.n && r.far[x].Some? && r.far[y].Some? ::
         Connected(r.edges, lv.members[x], lv.members[y]) <==> r.owner[x] == r.owner[y]
  }

  lemma TreesConnectPockets(lv: Level, cand: seq<Edge>, points0: seq<Point>, r: LevelLines)
    requires lv.Valid() && |r.owner| == |r.far| == lv.g.n && Candidates(|r.owner|, cand) && CoversGraph(lv.g, cand)
    requires forall v: nat | v < lv.g.n && r.far[v].Some? :: exists p :: PocketPath(lv, r.owner, r.far, v, p)
    requires TreeOf(lv.members, r.owner, cand, r.tree) && TappedForest(points0, r.tree, r.points, r.edges, r.made)
    requires forall v | v in lv.members :: v < |points0|
    ensures ConnectsPockets(lv, r)
  {
    forall x: nat, y: nat | x < lv.g.n && y < lv.g.n && r.far[x].Some? && r.far[y].Some?
      ensures Connected(r.edges, lv.members[x], lv.members[y]) <==> r.owner[x] == r.owner[y]
    {
      assert lv.members[x] in lv.members && lv.members[y] in lv.members;
      if r.owner[x] == r.owner[y] {
        PocketJoined(lv, r.owner, r.far, cand, x, y);
      }
      if Connected(InsideEdges(r.owner, cand), x, y) {
        ConnectedStays(r.owner, cand, x, y);
      }
    }
  }

  /** What the taps of a level depend on: distances, junction points, tuning and draws. */
  datatype Tapping = Tapping(dist: Metric, fermat: (Point, Point, Point) -> Point, t: Tuning, bends: nat -> real,
                             sides: nat -> real)

  /** Two passes over the members tap bends, then one taps straight passes, never at a source. */
  ghost predicate TappedBy(z: Tapping, lv: Level, points0: seq<Point>, r: LevelLines, bent: seq<TapState>,
                           passed: seq<TapState>) {
    && BendRun(z.dist, z.fermat, z.t, z.bends, lv.members + lv.members, bent) && |bent| == 2 * |lv.members| + 1
    && StraightRun(z.dist, z.t, z.sides, (set s | s in lv.sources), lv.members, passed)
    && |passed| == |lv.members| + 1
    && var last, end := bent[2 * |lv.members|], passed[|lv.members|];
    && bent[0] == TapState(0, points0, r.tree, []) && passed[0] == TapState(0, last.points, last.edges, [])
    && r.points == end.points && r.edges == end.edges && r.made == last.taps + end.taps
  }

  /** Carve a level into pockets, span each by a lightest tree, and tap the trees:
      bends first, then straight passes. Still a forest over the buses there were and
      the taps, one node and one edge per tap, that connects reached members exactly
      if they are in one pocket. */
  method LayLevel(lv: Level, z: Tapping, points0: seq<Point>, cand: seq<Edge>, noisy: seq<real>,
                  sort: seq<real> -> seq<nat>)
    returns (r: LevelLines, ghost local: set<Edge>, ghost bent: seq<TapState>, ghost passed: seq<TapState>)
    requires lv.Valid() && Euclidean(z.dist) && z.t.Valid() && (forall v | v in lv.members :: v < |points0|)
    requires Candidates(lv.g.n, cand) && CoversGraph(lv.g, cand) && |cand| == |noisy|
    requires forall w :: WeightOrder(sort(w), w)
    ensures ShortestPaths.Exact(lv.g, lv.SourceNodes(), r.far)
    ensures forall v: nat | v < lv.g.n && r.far[v].Some? :: exists p :: PocketPath(lv, r.owner, r.far, v, p)
    ensures |r.owner| == lv.g.n && TreeOf(lv.members, r.owner, cand, r.tree)
    ensures Spans(r.owner, cand, local) && Lightest(r.owner, cand, noisy, local)
    ensures Below(local, |lv.members|) && r.tree == Renamed(local, lv.members)
    ensures TappedBy(z, lv, points0, r, bent, passed)
    ensures TappedForest(points0, r.tree, r.points, r.edges, r.made) && (forall v | v in r.made :: v in lv.members)
    ensures ConnectsPockets(lv, r)
  {
    var owner, far := PocketsWithDistance(lv);
    var tree;
    tree, local := PocketTree(lv.members, owner, cand, noisy, sort);
    TreeBelow(lv.members, owner, cand, tree, |points0|);
    var p1, e1, made, p2, e2, more;
    p1, e1, made, bent := Steinerize(z.dist, z.fermat, z.t, z.bends, points0, tree, lv.members);
    var protected := set s | s in lv.sources;
    p2, e2, more, passed := StraightTaps(z.dist, z.t, z.sides, p1, e1, lv.members, protected);
    TapsCompose(points0, tree, p1, e1, made, p2, e2, more);
    r := LevelLines(owner, far, tree, p2, e2, made + more);
    TreesConnectPockets(lv, cand, points0, r);
  }

  lemma TreeBelow(members: seq<nat>, owner: seq<nat>, cand: seq<Edge>, tree: set<Edge>, n: nat)
    requires Candidates(|owner|, cand) && TreeOf(members, owner, cand, tree) && forall v | v in members :: v < n
    ensures Below(tree, n)
  {
  }
}
