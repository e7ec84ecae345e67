/**
 The tap rewrite: a node `v` between neighbours `a` and `b` is taken off the
 line, which now runs through a new junction `t` with `v` on a spur. It keeps a
 forest a forest and every old node in its component.
 */
module TapRewrites {
  import opened Forests

  ghost predicate Fresh(edges: set<Edge>, t: nat) {
    forall e | e in edges :: e.a != t && e.b != t
  }

  function Cut(edges: set<Edge>, v: nat, a: nat, b: nat): set<Edge> {
    edges - {Link(v, a), Link(v, b)}
  }

  function Tapped(edges: set<Edge>, v: nat, a: nat, b: nat, t: nat): set<Edge> {
    Cut(edges, v, a, b) + {Link(t, v), Link(t, a), Link(t, b)}
  }

  /** A bend of the forest at `v`, and a node not in use. */
  ghost predicate Bend(edges: set<Edge>, v: nat, a: nat, b: nat, t: nat) {
    && Forest(edges) && Fresh(edges, t) && a != b
    && Link(v, a) in edges && Link(v, b) in edges
  }

  lemma BendDistinct(edges: set<Edge>, v: nat, a: nat, b: nat, t: nat)
    requires Bend(edges, v, a, b, t)
    ensures v != a && v != b && t != v && t != a && t != b
  {
    if v == a {
      Reflexive(edges - {Link(v, a)}, v);
    }
    if v == b {
      Reflexive(edges - {Link(v, b)}, v);
    }
  }

  /** Send the junction back to `v`. */
  function Fold(t: nat, v: nat): nat -> nat {
    u => if u == t then v else u
  }

  /** Contracting the junction into `v` undoes the rewrite; this holds edge by
      edge, so it holds with one edge removed on both sides. */
  lemma FoldMaps(edges: set<Edge>, v: nat, a: nat, b: nat, t: nat, e: Edge, back: Edge)
    requires Bend(edges, v, a, b, t)
    requires (e == back && e in edges && e != Link(v, a) && e != Link(v, b))
             || (e == Link(t, a) && back == Link(v, a)) || (e == Link(t, b) && back == Link(v, b))
    ensures Maps(Fold(t, v), Tapped(edges, v, a, b, t) - {e}, edges - {back})
  {
    BendDistinct(edges, v, a, b, t);
    var f := Fold(t, v);
    forall x: nat, y: nat | Link(x, y) in Tapped(edges, v, a, b, t) - {e}
      ensures f(x) == f(y) || Link(f(x), f(y)) in edges - {back}
    {
      if Link(x, y) in Cut(edges, v, a, b) {
        assert x != t && y != t;
      }
    }
  }

  lemma FoldMapsAll(edges: set<Edge>, v: nat, a: nat, b: nat, t: nat)
    requires Bend(edges, v, a, b, t)
    ensures Maps(Fold(t, v), Tapped(edges, v, a, b, t), edges)
  {
    BendDistinct(edges, v, a, b, t);
    var f := Fold(t, v);
    forall x: nat, y: nat | Link(x, y) in Tapped(edges, v, a, b, t)
      ensures f(x) == f(y) || Link(f(x), f(y)) in edges
    {
      if Link(x, y) in Cut(edges, v, a, b) {
        assert x != t && y != t;
      }
    }
  }

  /** Without its spur the junction is reached only through `a` or `b`. */
  lemma {:induction false} ReachesTapEnds(edges: set<Edge>, v: nat, a: nat, b: nat, t: nat, s: Trail)
    requires Bend(edges, v, a, b, t) && IsTrail(Tapped(edges, v, a, b, t) - {Link(t, v)}, s) && s.Start() == t
    ensures s.v == t || Connected(Cut(edges, v, a, b), a, s.v) || Connected(Cut(edges, v, a, b), b, s.v)
  {
    var cut := Cut(edges, v, a, b);
    BendDistinct(edges, v, a, b, t);
    if s.Step? {
      ReachesTapEnds(edges, v, a, b, t, s.prefix);
      Reflexive(cut, a);
      Reflexive(cut, b);
      if Link(s.prefix.v, s.v) in cut {
        assert s.prefix.v != t && s.v != t;
        Adjacent(cut, s.prefix.v, s.v);
        if Connected(cut, a, s.prefix.v) {
          Transitive(cut, a, s.prefix.v, s.v);
        } else {
          Transitive(cut, b, s.prefix.v, s.v);
        }
      } else {
        assert Link(s.prefix.v, s.v) == Link(t, a) || Link(s.prefix.v, s.v) == Link(t, b);
      }
    }
  }

  lemma SpurIsBridge(edges: set<Edge>, v: nat, a: nat, b: nat, t: nat)
    requires Bend(edges, v, a, b, t)
    ensures !Connected(Tapped(edges, v, a, b, t) - {Link(t, v)}, t, v)
  {
    var cut, rest := Cut(edges, v, a, b), Tapped(edges, v, a, b, t) - {Link(t, v)};
    BendDistinct(edges, v, a, b, t);
    if Connected(rest, t, v) {
      var s :| Joins(rest, s, t, v);
      ReachesTapEnds(edges, v, a, b, t, s);
      var w := if Connected(cut, a, v) then a else b;
      Monotone(cut, edges - {Link(v, w)}, w, v);
      BridgeEitherWay(edges, v, w);
    }
  }

  lemma BridgeEitherWay(edges: set<Edge>, x: nat, y: nat)
    requires Forest(edges) && Link(x, y) in edges
    ensures !Connected(edges - {Link(x, y)}, x, y) && !Connected(edges - {Link(x, y)}, y, x)
  {
    var rest := edges - {Link(x, y)};
    if Connected(rest, x, y) {
      Symmetric(rest, x, y);
    }
    if Connected(rest, y, x) {
      Symmetric(rest, y, x);
    }
  }

  lemma TapEdgeIsBridge(edges: set<Edge>, v: nat, a: nat, b: nat, t: nat, w: nat)
    requires Bend(edges, v, a, b, t) && (w == a || w == b)
    ensures !Connected(Tapped(edges, v, a, b, t) - {Link(t, w)}, t, w)
  {
    var rest := Tapped(edges, v, a, b, t) - {Link(t, w)};
    BendDistinct(edges, v, a, b, t);
    if Connected(rest, t, w) {
      FoldMaps(edges, v, a, b, t, Link(t, w), Link(v, w));
      ConnectedMapped(Fold(t, v), rest, edges - {Link(v, w)}, t, w);
      BridgeEitherWay(edges, v, w);
    }
  }

  lemma OldEdgeIsBridge(edges: set<Edge>, v: nat, a: nat, b: nat, t: nat, e: Edge)
    requires Bend(edges, v, a, b, t) && e in Cut(edges, v, a, b)
    ensures !Connected(Tapped(edges, v, a, b, t) - {e}, e.a, e.b)
  {
    var rest := Tapped(edges, v, a, b, t) - {e};
    if Connected(rest, e.a, e.b) {
      FoldMaps(edges, v, a, b, t, e, e);
      ConnectedMapped(Fold(t, v), rest, edges - {e}, e.a, e.b);
    }
  }

  /** The rewrite keeps a forest a forest. */
  lemma TapKeepsForest(edges: set<Edge>, v: nat, a: nat, b: nat, t: nat)
    requires Bend(edges, v, a, b, t)
    ensures Forest(Tapped(edges, v, a, b, t))
  {
    var next := Tapped(edges, v, a, b, t);
    forall e | e in next
      ensures Link(e.a, e.b) == e && !Connected(next - {e}, e.a, e.b)
    {
      if e in Cut(edges, v, a, b) {
        OldEdgeIsBridge(edges, v, a, b, t, e);
      } else if e == Link(t, v) {
        SpurIsBridge(edges, v, a, b, t);
        SwapEnds(next - {e}, e, t, v);
      } else {
        var w := if e == Link(t, a) then a else b;
        TapEdgeIsBridge(edges, v, a, b, t, w);
        SwapEnds(next - {e}, e, t, w);
      }
    }
  }

  lemma SwapEnds(edges: set<Edge>, e: Edge, x: nat, y: nat)
    requires e == Link(x, y) && !Connected(edges, x, y)
    ensures !Connected(edges, e.a, e.b)
  {
    if Connected(edges, y, x) {
      Symmetric(edges, y, x);
    }
  }

  /** ... with exactly one more edge ... */
  lemma TapAddsOneEdge(edges: set<Edge>, v: nat, a: nat, b: nat, t: nat)
    requires Bend(edges, v, a, b, t)
    ensures |Tapped(edges, v, a, b, t)| == |edges| + 1
  {
    BendDistinct(edges, v, a, b, t);
    var gone := {Link(v, a), Link(v, b)};
    var made := {Link(t, v), Link(t, a), Link(t, b)};
    assert gone <= edges && |gone| == 2;
    assert |edges - gone| == |edges| - |gone|;
    assert |made| == 3;
    assert (edges - gone) !! made;
  }

  /** ... and every old node in the component it was in; the junction joins that of `v`. */
  lemma TapKeepsComponents(edges: set<Edge>, v: nat, a: nat, b: nat, t: nat, x: nat, y: nat)
    requires Bend(edges, v, a, b, t) && x != t && y != t
    ensures Connected(Tapped(edges, v, a, b, t), x, y) <==> Connected(edges, x, y)
    ensures Connected(Tapped(edges, v, a, b, t), v, t)
  {
    var next := Tapped(edges, v, a, b, t);
    Adjacent(next, t, v);
    if Connected(next, x, y) {
      FoldMapsAll(edges, v, a, b, t);
      ConnectedMapped(Fold(t, v), next, edges, x, y);
    }
    if Connected(edges, x, y) {
      var s :| Joins(edges, s, x, y);
      TrailSurvives(edges, v, a, b, t, s);
    }
  }

  lemma {:induction false} TrailSurvives(edges: set<Edge>, v: nat, a: nat, b: nat, t: nat, s: Trail)
    requires Bend(edges, v, a, b, t) && IsTrail(edges, s)
    ensures Connected(Tapped(edges, v, a, b, t), s.Start(), s.v)
  {
    var next := Tapped(edges, v, a, b, t);
    if s.Here? {
      Reflexive(next, s.v);
    } else {
      TrailSurvives(edges, v, a, b, t, s.prefix);
      if Link(s.prefix.v, s.v) in next {
        Adjacent(next, s.prefix.v, s.v);
      } else {
        Adjacent(next, s.prefix.v, t);
        Adjacent(next, t, s.v);
        Transitive(next, s.prefix.v, t, s.v);
      }
      Transitive(next, s.Start(), s.prefix.v, s.v);
    }
  }
}
