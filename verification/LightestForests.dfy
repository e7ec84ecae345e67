/**
 Why Kruskal's picks are a lightest spanning forest: any other spanning forest
 turns into them by exchanges that never add weight.
 */
module LightestForests {
  import opened Forests
  import opened SpanningForest

  /** Two edge sets connect the same nodes. */
  ghost predicate Same(f: set<Edge>, g: set<Edge>) {
    forall x: nat, y: nat :: Connected(f, x, y) <==> Connected(g, x, y)
  }

  ghost function NoHeavier(w: Edge -> real, picks: set<Edge>, limit: real): set<Edge> {
    set p | p in picks && w(p) <= limit
  }

  /** Edge `e` is bridged by picks no heavier than itself. */
  ghost predicate Bridged(w: Edge -> real, picks: set<Edge>, e: Edge) {
    Connected(NoHeavier(w, picks, w(e)), e.a, e.b)
  }

  lemma ForestWithout(f: set<Edge>, e: Edge)
    requires Forest(f)
    ensures Forest(f - {e})
  {
    forall x | x in f - {e}
      ensures !Connected(f - {e} - {x}, x.a, x.b)
    {
      if Connected(f - {e} - {x}, x.a, x.b) {
        Monotone(f - {e} - {x}, f - {x}, x.a, x.b);
      }
    }
  }

  /** A trail between nodes that `split` keeps apart has a step that crosses. */
  lemma {:induction false} Crossing(edges: set<Edge>, split: set<Edge>, t: Trail) returns (x: nat, y: nat)
    requires IsTrail(edges, t) && !Connected(split, t.Start(), t.v)
    ensures Link(x, y) in edges && !Connected(split, x, y)
  {
    if t.Here? {
      Reflexive(split, t.v);
      assert false;
    } else if Connected(split, t.Start(), t.prefix.v) {
      x, y := t.prefix.v, t.v;
      if Connected(split, x, y) {
        Transitive(split, t.Start(), x, y);
      }
    } else {
      x, y := Crossing(edges, split, t.prefix);
    }
  }

  /** What one more edge connects, if its ends are connected in `g` and the rest lies in `g`. */
  lemma AcrossWithin(rest: set<Edge>, g: set<Edge>, a: nat, b: nat, p: nat, q: nat)
    requires rest <= g && Connected(g, a, b) && Connected(rest + {Link(a, b)}, p, q)
    ensures Connected(g, p, q)
  {
    AddEdge(rest, a, b, p, q);
    Symmetric(g, a, b);
    if Connected(rest, p, q) {
      Monotone(rest, g, p, q);
    } else if Connected(rest, p, a) && Connected(rest, b, q) {
      Monotone(rest, g, p, a);
      Monotone(rest, g, b, q);
      Transitive(g, p, a, b);
      Transitive(g, p, b, q);
    } else {
      Monotone(rest, g, p, b);
      Monotone(rest, g, a, q);
      Transitive(g, p, b, a);
      Transitive(g, p, a, q);
    }
  }

  /** The new edge joins the ends of the one it replaces. */
  lemma DetourReplaces(rest: set<Edge>, a: nat, b: nat, x: nat, y: nat)
    requires Connected(rest + {Link(a, b)}, x, y) && !Connected(rest, x, y)
    ensures Connected(rest + {Link(x, y)}, a, b)
  {
    AddEdge(rest, a, b, x, y);
    AddEdge(rest, x, y, a, b);
    if Connected(rest, x, a) && Connected(rest, b, y) {
      Symmetric(rest, x, a);
      Symmetric(rest, b, y);
    } else {
      Symmetric(rest, x, b);
      Symmetric(rest, a, y);
    }
  }

  /** Replacing an edge of a forest by one that crosses the gap it leaves. */
  lemma Exchange(f: set<Edge>, e: Edge, x: nat, y: nat)
    requires Forest(f) && e in f && Connected(f, x, y) && !Connected(f - {e}, x, y)
    ensures Forest(f - {e} + {Link(x, y)}) && Same(f - {e} + {Link(x, y)}, f)
  {
    var rest, next := f - {e}, f - {e} + {Link(x, y)};
    ForestWithout(f, e);
    AddBridge(rest, x, y);
    assert rest + {Link(e.a, e.b)} == f;
    DetourReplaces(rest, e.a, e.b, x, y);
    forall p: nat, q: nat
      ensures Connected(next, p, q) <==> Connected(f, p, q)
    {
      if Connected(next, p, q) {
        AcrossWithin(rest, f, x, y, p, q);
      }
      if Connected(f, p, q) {
        AcrossWithin(rest, next, e.a, e.b, p, q);
      }
    }
  }

  /** A forest with no edge outside the picks that connects as much is the picks. */
  lemma InsideIsAll(picks: set<Edge>, f: set<Edge>)
    requires Forest(picks) && f <= picks && Same(picks, f)
    ensures f == picks
  {
    forall e | e in picks
      ensures e in f
    {
      if e !in f {
        assert Link(e.a, e.b) == e;
        Adjacent(picks, e.a, e.b);
        Monotone(f, picks - {e}, e.a, e.b);
      }
    }
  }

  /** An edge outside the picks, exchanged for a pick no heavier. */
  lemma Improve(w: Edge -> real, picks: set<Edge>, f: set<Edge>, e: Edge) returns (next: set<Edge>)
    requires Forest(picks) && Forest(f) && Same(picks, f) && e in f && e !in picks && Bridged(w, picks, e)
    requires forall g | g in f :: Bridged(w, picks, g)
    ensures Forest(next) && Same(picks, next) && next - picks == f - picks - {e} && Weight(w, next) <= Weight(w, f)
    ensures forall g | g in next :: Bridged(w, picks, g)
  {
    var light := NoHeavier(w, picks, w(e));
    var t :| Joins(light, t, e.a, e.b);
    var x, y := Crossing(light, f - {e}, t);
    var l := Link(x, y);
    Adjacent(picks, x, y);
    if l in f - {e} {
      Adjacent(f - {e}, x, y);
    }
    Exchange(f, e, x, y);
    next := f - {e} + {l};
    WeightWithout(w, f, e);
    WeightWithout(w, next, l);
    assert next - {l} == f - {e};
    PickBridged(w, picks, l);
  }

  lemma PickBridged(w: Edge -> real, picks: set<Edge>, l: Edge)
    requires Normal(picks) && l in picks
    ensures Bridged(w, picks, l)
  {
    assert Link(l.a, l.b) in NoHeavier(w, picks, w(l));
    Adjacent(NoHeavier(w, picks, w(l)), l.a, l.b);
  }

  /** No forest that connects as much weighs less. */
  lemma {:induction false} NoneLighter(w: Edge -> real, picks: set<Edge>, f: set<Edge>)
    requires Forest(picks) && Forest(f) && Same(picks, f) && forall e | e in f :: Bridged(w, picks, e)
    ensures Weight(w, picks) <= Weight(w, f)
    decreases f - picks
  {
    if e :| e in f && e !in picks {
      var next := Improve(w, picks, f, e);
      assert e in f - picks;
      NoneLighter(w, picks, next);
    } else {
      InsideIsAll(picks, f);
    }
  }

  /** The picks connect what the candidates connect. */
  lemma PicksSpan(n: nat, edges: seq<Edge>, weight: seq<real>, chosen: seq<nat>)
    requires |edges| == |weight| && Candidates(n, edges) && Indices(edges, chosen)
    requires forall k: nat | k < |edges| :: Spanned(edges, weight, chosen, k)
    ensures Picked(edges, chosen) <= All(edges) && Same(Picked(edges, chosen), All(edges))
  {
    forall x: nat, y: nat
      ensures Connected(Picked(edges, chosen), x, y) <==> Connected(All(edges), x, y)
    {
      if Connected(Picked(edges, chosen), x, y) {
        PicksWithin(edges, chosen, x, y);
      }
      if Connected(All(edges), x, y) {
        var t :| Joins(All(edges), t, x, y);
        CandidatesWithin(edges, weight, chosen, t);
      }
    }
  }

  /** The picks of `MinimumSpanningForest` weigh no more than any spanning forest
      of the candidates, when a candidate's weight depends on its ends alone. */
  lemma {:induction false} LightestForest(n: nat, edges: seq<Edge>, weight: seq<real>, chosen: seq<nat>,
                                          w: Edge -> real, f: set<Edge>)
    requires |edges| == |weight| && Candidates(n, edges) && Indices(edges, chosen) && Forest(Picked(edges, chosen))
    requires forall k: nat | k < |edges| :: Spanned(edges, weight, chosen, k) && weight[k] == w(edges[k])
    requires f <= All(edges) && Forest(f) && Same(f, All(edges))
    ensures Weight(w, Picked(edges, chosen)) <= Weight(w, f)
  {
    var picks := Picked(edges, chosen);
    PicksSpan(n, edges, weight, chosen);
    forall e | e in f
      ensures Bridged(w, picks, e)
    {
      var k :| 0 <= k < |edges| && edges[k] == e;
      assert Spanned(edges, weight, chosen, k);
      assert Light(edges, weight, chosen, weight[k]) <= NoHeavier(w, picks, w(e));
      Monotone(Light(edges, weight, chosen, weight[k]), NoHeavier(w, picks, w(e)), e.a, e.b);
    }
    NoneLighter(w, picks, f);
  }
}
