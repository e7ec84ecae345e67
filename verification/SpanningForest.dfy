/** Kruskal's spanning forest over candidate edges. */
module SpanningForest {
  import opened Forests
  import opened UnionFind

  /** The candidates picked so far whose weight is at most `limit`. */
  ghost function Light(edges: seq<Edge>, weight: seq<real>, chosen: seq<nat>, limit: real): set<Edge>
    requires |edges| == |weight| && (forall k | k in chosen :: k < |edges|)
  {
    set k | k in chosen && weight[k] <= limit :: edges[k]
  }

  ghost function Picked(edges: seq<Edge>, chosen: seq<nat>): set<Edge>
    requires forall k | k in chosen :: k < |edges|
  {
    set k | k in chosen :: edges[k]
  }

  ghost function All(edges: seq<Edge>): set<Edge> {
    set e | e in edges
  }

  /** Every index once, lightest first. */
  ghost predicate WeightOrder(order: seq<nat>, weight: seq<real>) {
    && |order| == |weight|
    && (forall i | 0 <= i < |order| :: order[i] < |weight|)
    && (forall k: nat | k < |weight| :: k in order)
    && (forall i, j | 0 <= i < j < |order| :: order[i] != order[j])
    && (forall i, j | 0 <= i < j < |order| :: weight[order[i]] <= weight[order[j]])
  }

  ghost predicate Candidates(n: nat, edges: seq<Edge>) {
    forall e | e in edges :: e.a < n && e.b < n && Link(e.a, e.b) == e
  }

  /** The ends of candidate `k` are joined by picked candidates no heavier than it. */
  ghost predicate Spanned(edges: seq<Edge>, weight: seq<real>, chosen: seq<nat>, k: nat)
    requires |edges| == |weight| && (forall i | i in chosen :: i < |edges|)
  {
    k < |edges| && Connected(Light(edges, weight, chosen, weight[k]), edges[k].a, edges[k].b)
  }

  ghost predicate Indices(edges: seq<Edge>, chosen: seq<nat>) {
    forall k | k in chosen :: k < |edges|
  }

  /** Every pick is among the first `i` of the order. */
  ghost predicate Taken(order: seq<nat>, i: nat, chosen: seq<nat>) {
    i <= |order| && forall k | k in chosen :: k in order[..i]
  }

  lemma TakenGrows(order: seq<nat>, i: nat, chosen: seq<nat>)
    requires Taken(order, i, chosen) && i < |order|
    ensures Taken(order, i + 1, chosen + [order[i]]) && Taken(order, i + 1, chosen)
  {
  }

  /** A forest of `count` picks whose components are the sets. */
  ghost predicate Joined(n: nat, picks: set<Edge>, rep: Roots, count: nat) {
    && |rep| == n && Canonical(rep) && |RootSet(rep)| + count == n
    && Forest(picks) && Tracks(rep, picks)
  }

  lemma JoinedGrows(n: nat, picks: set<Edge>, rep: Roots, next: Roots, a: nat, b: nat, count: nat)
    requires Joined(n, picks, rep, count) && Merged(rep, next, a, b) && rep[a] != rep[b]
    ensures Joined(n, picks + {Link(a, b)}, next, count + 1)
  {
    AddBridge(picks, a, b);
    MergeTracks(rep, next, picks, a, b);
    MergeCanonical(rep, next, a, b);
    MergeLosesRoot(rep, next, a, b);
  }

  /** What the scan keeps: a forest, the sets it joins, and every candidate seen spanned. */
  ghost predicate Growing(n: nat, edges: seq<Edge>, weight: seq<real>, order: seq<nat>, i: nat, chosen: seq<nat>,
                          rep: Roots)
    requires |edges| == |weight| && WeightOrder(order, weight) && i <= |order|
  {
    && Indices(edges, chosen) && Taken(order, i, chosen)
    && Joined(n, Picked(edges, chosen), rep, |chosen|)
    && (forall j | 0 <= j < i :: Spanned(edges, weight, chosen, order[j]))
  }

  lemma LightGrows(edges: seq<Edge>, weight: seq<real>, chosen: seq<nat>, k: nat, j: nat)
    requires |edges| == |weight| && Indices(edges, chosen) && k < |edges| && Spanned(edges, weight, chosen, j)
    ensures Spanned(edges, weight, chosen + [k], j)
  {
    var was, now := Light(edges, weight, chosen, weight[j]), Light(edges, weight, chosen + [k], weight[j]);
    assert was <= now;
    Monotone(was, now, edges[j].a, edges[j].b);
  }

  lemma PickedGrows(edges: seq<Edge>, chosen: seq<nat>, k: nat)
    requires Indices(edges, chosen) && k < |edges|
    ensures Indices(edges, chosen + [k]) && Picked(edges, chosen + [k]) == Picked(edges, chosen) + {edges[k]}
  {
  }

  /** All picks so far are no heavier than the candidate at hand. */
  lemma PicksAreLight(edges: seq<Edge>, weight: seq<real>, order: seq<nat>, i: nat, chosen: seq<nat>, j: nat)
    requires |edges| == |weight| && WeightOrder(order, weight) && i <= j < |order|
    requires Indices(edges, chosen) && Taken(order, i, chosen)
    ensures Light(edges, weight, chosen, weight[order[j]]) == Picked(edges, chosen)
  {
  }

  lemma PickKeeps(n: nat, edges: seq<Edge>, weight: seq<real>, order: seq<nat>, i: nat, chosen: seq<nat>, rep: Roots,
                  next: Roots)
    requires |edges| == |weight| && WeightOrder(order, weight) && i < |order| && Candidates(n, edges)
    requires Growing(n, edges, weight, order, i, chosen, rep)
    requires var e := edges[order[i]]; e.a < n && e.b < n && Merged(rep, next, e.a, e.b) && rep[e.a] != rep[e.b]
    ensures Growing(n, edges, weight, order, i + 1, chosen + [order[i]], next)
  {
    var k, e := order[i], edges[order[i]];
    assert e in edges;
    PickedGrows(edges, chosen, k);
    JoinedGrows(n, Picked(edges, chosen), rep, next, e.a, e.b, |chosen|);
    TakenGrows(order, i, chosen);
    PickSpans(edges, weight, order, i, chosen);
  }

  lemma PickSpans(edges: seq<Edge>, weight: seq<real>, order: seq<nat>, i: nat, chosen: seq<nat>)
    requires |edges| == |weight| && WeightOrder(order, weight) && i < |order| && Indices(edges, chosen)
    requires Link(edges[order[i]].a, edges[order[i]].b) == edges[order[i]]
    requires forall j | 0 <= j < i :: Spanned(edges, weight, chosen, order[j])
    ensures Indices(edges, chosen + [order[i]])
    ensures forall j | 0 <= j < i + 1 :: Spanned(edges, weight, chosen + [order[i]], order[j])
  {
    var k, more := order[i], chosen + [order[i]];
    forall j | 0 <= j < i + 1
      ensures Spanned(edges, weight, more, order[j])
    {
      if j < i {
        LightGrows(edges, weight, chosen, k, order[j]);
      } else {
        assert k in more;
        assert edges[k] in Light(edges, weight, more, weight[k]);
        Adjacent(Light(edges, weight, more, weight[k]), edges[k].a, edges[k].b);
      }
    }
  }

  lemma SkipKeeps(n: nat, edges: seq<Edge>, weight: seq<real>, order: seq<nat>, i: nat, chosen: seq<nat>, rep: Roots,
                  next: Roots)
    requires |edges| == |weight| && WeightOrder(order, weight) && i < |order| && Candidates(n, edges)
    requires Growing(n, edges, weight, order, i, chosen, rep)
    requires var e := edges[order[i]]; e.a < n && e.b < n && rep[e.a] == rep[e.b] && next == rep
    ensures Growing(n, edges, weight, order, i + 1, chosen, next)
  {
    var e := edges[order[i]];
    PicksAreLight(edges, weight, order, i, chosen, i);
    assert Connected(Picked(edges, chosen), e.a, e.b);
    TakenGrows(order, i, chosen);
  }

  /** With one set left, the candidates not looked at are spanned as well. */
  lemma FullSpans(n: nat, edges: seq<Edge>, weight: seq<real>, order: seq<nat>, i: nat, chosen: seq<nat>, rep: Roots,
                  j: nat)
    requires |edges| == |weight| && WeightOrder(order, weight) && i <= j < |order| && Candidates(n, edges)
    requires Growing(n, edges, weight, order, i, chosen, rep) && |chosen| + 1 >= n
    ensures Spanned(edges, weight, chosen, order[j])
  {
    var e := edges[order[j]];
    assert e in edges;
    PicksAreLight(edges, weight, order, i, chosen, j);
    OneRoot(rep, e.a, e.b);
  }

  /** Picks join no more than the candidates do. */
  lemma PicksWithin(edges: seq<Edge>, chosen: seq<nat>, x: nat, y: nat)
    requires Indices(edges, chosen) && Connected(Picked(edges, chosen), x, y)
    ensures Connected(All(edges), x, y)
  {
    assert Picked(edges, chosen) <= All(edges);
    Monotone(Picked(edges, chosen), All(edges), x, y);
  }

  lemma {:induction false} CandidatesWithin(edges: seq<Edge>, weight: seq<real>, chosen: seq<nat>, t: Trail)
    requires |edges| == |weight| && Indices(edges, chosen) && IsTrail(All(edges), t)
    requires forall e | e in edges :: Link(e.a, e.b) == e
    requires forall k: nat | k < |edges| :: Spanned(edges, weight, chosen, k)
    ensures Connected(Picked(edges, chosen), t.Start(), t.v)
  {
    var picks := Picked(edges, chosen);
    if t.Here? {
      Reflexive(picks, t.v);
    } else {
      CandidatesWithin(edges, weight, chosen, t.prefix);
      var k :| 0 <= k < |edges| && edges[k] == Link(t.prefix.v, t.v);
      assert Spanned(edges, weight, chosen, k);
      var light := Light(edges, weight, chosen, weight[k]);
      assert light <= picks;
      Monotone(light, picks, edges[k].a, edges[k].b);
      Symmetric(picks, edges[k].a, edges[k].b);
      Transitive(picks, t.Start(), t.prefix.v, t.v);
    }
  }

  /** A spanning forest: acyclic, connecting exactly what the candidates connect,
      and every candidate bridged by picks no heavier than itself, which is what
      makes a spanning forest a lightest one. `order` is the sorted index list. */
  method MinimumSpanningForest(n: nat, edges: seq<Edge>, weight: seq<real>, order: seq<nat>) returns (chosen: seq<nat>)
    requires |edges| == |weight| && WeightOrder(order, weight) && Candidates(n, edges)
    ensures Indices(edges, chosen) && Forest(Picked(edges, chosen))
    ensures forall x: nat, y: nat | x < n && y < n :: Connected(Picked(edges, chosen), x, y)
                                                      <==> Connected(All(edges), x, y)
    ensures forall k: nat | k < |edges| :: Spanned(edges, weight, chosen, k)
  {
    var uf := new Sets(n);
    chosen := [];
    NoEdges(n);
    assert Picked(edges, chosen) == {};
    EveryoneIsRoot(n);
    var i := 0;
    while i < |order|
      invariant i <= |order| && uf.Valid() && fresh(uf) && fresh(uf.parent)
      invariant Growing(n, edges, weight, order, i, chosen, uf.rep)
      invariant i < |order| || forall j | 0 <= j < |order| :: Spanned(edges, weight, chosen, order[j])
    {
      var e := edges[order[i]];
      assert e in edges;
      ghost var was := uf.rep;
      var joined := uf.Union(e.a, e.b);
      if joined {
        PickKeeps(n, edges, weight, order, i, chosen, was, uf.rep);
        chosen := chosen + [order[i]];
        i := i + 1;
        if |chosen| + 1 >= n {
          forall j | 0 <= j < |order|
            ensures Spanned(edges, weight, chosen, order[j])
          {
            if j >= i {
              FullSpans(n, edges, weight, order, i, chosen, uf.rep, j);
            }
          }
          break;
        }
      } else {
        assert uf.rep == was;
        SkipKeeps(n, edges, weight, order, i, chosen, was, uf.rep);
        i := i + 1;
      }
    }
    EverythingSpanned(n, edges, weight, order, chosen);
  }

  lemma EverythingSpanned(n: nat, edges: seq<Edge>, weight: seq<real>, order: seq<nat>, chosen: seq<nat>)
    requires |edges| == |weight| && WeightOrder(order, weight) && Candidates(n, edges) && Indices(edges, chosen)
    requires forall j | 0 <= j < |order| :: Spanned(edges, weight, chosen, order[j])
    ensures forall k: nat | k < |edges| :: Spanned(edges, weight, chosen, k)
    ensures forall x: nat, y: nat | x < n && y < n :: Connected(Picked(edges, chosen), x, y)
                                                      <==> Connected(All(edges), x, y)
  {
    forall k: nat | k < |edges|
      ensures Spanned(edges, weight, chosen, k)
    {
      assert k in order;
      var j :| 0 <= j < |order| && order[j] == k;
    }
    forall x: nat, y: nat | x < n && y < n
      ensures Connected(Picked(edges, chosen), x, y) <==> Connected(All(edges), x, y)
    {
      if Connected(Picked(edges, chosen), x, y) {
        PicksWithin(edges, chosen, x, y);
      }
      if Connected(All(edges), x, y) {
        var t :| Joins(All(edges), t, x, y);
        CandidatesWithin(edges, weight, chosen, t);
      }
    }
  }
}
