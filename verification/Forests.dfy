/**
 Undirected graphs as sets of edges: connectivity by trails, and forests as
 graphs every edge of which is a bridge.
 */
module Forests {

  /** An undirected edge; `Link` is the only way the program builds one. */
  datatype Edge = Edge(a: nat, b: nat)

  function Link(x: nat, y: nat): Edge {
    if x < y then Edge(x, y) else Edge(y, x)
  }

  /** A trail, built from its start. */
  datatype Trail = Here(v: nat) | Step(prefix: Trail, v: nat) {
    ghost function Start(): nat {
      if Here? then v else prefix.Start()
    }
  }

  ghost predicate IsTrail(edges: set<Edge>, t: Trail) {
    t.Step? ==> IsTrail(edges, t.prefix) && Link(t.prefix.v, t.v) in edges
  }

  ghost predicate Joins(edges: set<Edge>, t: Trail, x: nat, y: nat) {
    IsTrail(edges, t) && t.Start() == x && t.v == y
  }

  ghost predicate Connected(edges: set<Edge>, x: nat, y: nat) {
    exists t :: Joins(edges, t, x, y)
  }

  /** Every edge is stored the way `Link` builds it. */
  ghost predicate Normal(edges: set<Edge>) {
    forall e | e in edges :: Link(e.a, e.b) == e
  }

  /** No edge closes a cycle: without it, its ends fall apart. */
  ghost predicate Forest(edges: set<Edge>) {
    Normal(edges) && forall e | e in edges :: !Connected(edges - {e}, e.a, e.b)
  }

  ghost predicate Below(edges: set<Edge>, n: nat) {
    forall e | e in edges :: e.a < n && e.b < n
  }

  // ------------------------------------------------------------ connectivity

  ghost function Append(s: Trail, t: Trail): (r: Trail)
    requires s.v == t.Start()
    ensures r.v == t.v && r.Start() == s.Start()
  {
    if t.Here? then s else Step(Append(s, t.prefix), t.v)
  }

  lemma {:induction false} AppendJoins(edges: set<Edge>, s: Trail, t: Trail)
    requires IsTrail(edges, s) && IsTrail(edges, t) && s.v == t.Start()
    ensures IsTrail(edges, Append(s, t))
  {
    if t.Step? {
      AppendJoins(edges, s, t.prefix);
    }
  }

  lemma Transitive(edges: set<Edge>, x: nat, y: nat, z: nat)
    requires Connected(edges, x, y) && Connected(edges, y, z)
    ensures Connected(edges, x, z)
  {
    var s :| Joins(edges, s, x, y);
    var t :| Joins(edges, t, y, z);
    AppendJoins(edges, s, t);
    assert Joins(edges, Append(s, t), x, z);
  }

  lemma Reflexive(edges: set<Edge>, x: nat)
    ensures Connected(edges, x, x)
  {
    assert Joins(edges, Here(x), x, x);
  }

  lemma Adjacent(edges: set<Edge>, x: nat, y: nat)
    requires Link(x, y) in edges
    ensures Connected(edges, x, y) && Connected(edges, y, x)
  {
    var s, t := Step(Here(x), y), Step(Here(y), x);
    assert s.Start() == s.prefix.Start() == x && t.Start() == t.prefix.Start() == y;
    assert Link(y, x) == Link(x, y);
    assert IsTrail(edges, s) && IsTrail(edges, t);
    assert Joins(edges, s, x, y) && Joins(edges, t, y, x);
  }

  lemma {:induction false} TrailSymmetric(edges: set<Edge>, t: Trail)
    requires IsTrail(edges, t)
    ensures Connected(edges, t.v, t.Start())
  {
    if t.Here? {
      Reflexive(edges, t.v);
    } else {
      TrailSymmetric(edges, t.prefix);
      Adjacent(edges, t.prefix.v, t.v);
      Transitive(edges, t.v, t.prefix.v, t.Start());
    }
  }

  lemma Symmetric(edges: set<Edge>, x: nat, y: nat)
    requires Connected(edges, x, y)
    ensures Connected(edges, y, x)
  {
    var t :| Joins(edges, t, x, y);
    TrailSymmetric(edges, t);
  }

  /** `f` sends every edge to an edge or collapses it. */
  ghost predicate Maps(f: nat -> nat, edges: set<Edge>, into: set<Edge>) {
    forall x: nat, y: nat | Link(x, y) in edges :: f(x) == f(y) || Link(f(x), f(y)) in into
  }

  /** Connectivity survives such a map. */
  lemma {:induction false} TrailMapped(f: nat -> nat, edges: set<Edge>, into: set<Edge>, t: Trail)
    requires Maps(f, edges, into) && IsTrail(edges, t)
    ensures Connected(into, f(t.Start()), f(t.v))
  {
    if t.Here? {
      Reflexive(into, f(t.v));
    } else {
      TrailMapped(f, edges, into, t.prefix);
      if f(t.prefix.v) != f(t.v) {
        Adjacent(into, f(t.prefix.v), f(t.v));
        Transitive(into, f(t.Start()), f(t.prefix.v), f(t.v));
      }
    }
  }

  lemma ConnectedMapped(f: nat -> nat, edges: set<Edge>, into: set<Edge>, x: nat, y: nat)
    requires Maps(f, edges, into) && Connected(edges, x, y)
    ensures Connected(into, f(x), f(y))
  {
    var t :| Joins(edges, t, x, y);
    TrailMapped(f, edges, into, t);
  }

  lemma Monotone(edges: set<Edge>, into: set<Edge>, x: nat, y: nat)
    requires edges <= into && Connected(edges, x, y)
    ensures Connected(into, x, y)
  {
    ConnectedMapped(u => u, edges, into, x, y);
  }

  // ------------------------------------------------------------ adding an edge

  /** Connected before, or across the new edge. */
  ghost predicate Across(edges: set<Edge>, a: nat, b: nat, x: nat, y: nat) {
    || Connected(edges, x, y)
    || (Connected(edges, x, a) && Connected(edges, b, y))
    || (Connected(edges, x, b) && Connected(edges, a, y))
  }

  lemma AcrossStep(edges: set<Edge>, a: nat, b: nat, x: nat, y: nat, z: nat)
    requires Across(edges, a, b, x, y) && (Link(y, z) in edges || Link(y, z) == Link(a, b))
    ensures Across(edges, a, b, x, z)
  {
    if Link(y, z) in edges {
      Adjacent(edges, y, z);
      if Connected(edges, x, y) {
        Transitive(edges, x, y, z);
      } else if Connected(edges, x, a) && Connected(edges, b, y) {
        Transitive(edges, b, y, z);
      } else {
        Transitive(edges, a, y, z);
      }
    } else {
      assert (y == a && z == b) || (y == b && z == a);
      Reflexive(edges, a);
      Reflexive(edges, b);
      if Connected(edges, x, a) && Connected(edges, b, y) {
        if y == a {
          Symmetric(edges, b, a);
          Transitive(edges, x, a, b);
        }
      } else if Connected(edges, x, b) && Connected(edges, a, y) {
        if y == b {
          Symmetric(edges, a, b);
          Transitive(edges, x, b, a);
        }
      }
    }
  }

  lemma {:induction false} TrailAcross(edges: set<Edge>, a: nat, b: nat, t: Trail)
    requires IsTrail(edges + {Link(a, b)}, t)
    ensures Across(edges, a, b, t.Start(), t.v)
  {
    if t.Here? {
      Reflexive(edges, t.v);
    } else {
      TrailAcross(edges, a, b, t.prefix);
      AcrossStep(edges, a, b, t.Start(), t.prefix.v, t.v);
    }
  }

  /** What one more edge connects, exactly. */
  lemma AddEdge(edges: set<Edge>, a: nat, b: nat, x: nat, y: nat)
    ensures Connected(edges + {Link(a, b)}, x, y) <==> Across(edges, a, b, x, y)
  {
    var more := edges + {Link(a, b)};
    if Connected(more, x, y) {
      var t :| Joins(more, t, x, y);
      TrailAcross(edges, a, b, t);
    }
    if Across(edges, a, b, x, y) {
      Adjacent(more, a, b);
      if Connected(edges, x, y) {
        Monotone(edges, more, x, y);
      } else if Connected(edges, x, a) && Connected(edges, b, y) {
        Monotone(edges, more, x, a);
        Monotone(edges, more, b, y);
        Transitive(more, x, a, b);
        Transitive(more, x, b, y);
      } else {
        Monotone(edges, more, x, b);
        Monotone(edges, more, a, y);
        Transitive(more, x, b, a);
        Transitive(more, x, a, y);
      }
    }
  }

  lemma DetourJoins(edges: set<Edge>, e: Edge, a: nat, b: nat)
    requires Normal(edges) && e in edges && Connected(edges - {e}, e.a, a) && Connected(edges - {e}, b, e.b)
    ensures Connected(edges, a, b)
  {
    Monotone(edges - {e}, edges, e.a, a);
    Monotone(edges - {e}, edges, b, e.b);
    Symmetric(edges, e.a, a);
    Symmetric(edges, b, e.b);
    Adjacent(edges, e.a, e.b);
    Transitive(edges, a, e.a, e.b);
    Transitive(edges, a, e.b, b);
  }

  /** An edge between two components keeps a forest a forest. */
  lemma AddBridge(edges: set<Edge>, a: nat, b: nat)
    requires Forest(edges) && !Connected(edges, a, b)
    ensures Forest(edges + {Link(a, b)})
  {
    var more, l := edges + {Link(a, b)}, Link(a, b);
    if l in edges {
      Adjacent(edges, a, b);
    }
    forall e | e in more
      ensures !Connected(more - {e}, e.a, e.b)
    {
      if e == l {
        assert more - {e} == edges;
        if Connected(edges, e.a, e.b) && e.a != a {
          Symmetric(edges, e.a, e.b);
        }
      } else {
        var rest := edges - {e};
        assert more - {e} == rest + {l};
        AddEdge(rest, a, b, e.a, e.b);
        if Connected(rest, e.a, a) && Connected(rest, b, e.b) {
          DetourJoins(edges, e, a, b);
        } else if Connected(rest, e.a, b) && Connected(rest, a, e.b) {
          DetourJoins(edges, e, b, a);
          Symmetric(edges, b, a);
        }
      }
    }
  }

  // ------------------------------------------------------------ weights

  /** Total weight of a set of edges. */
  ghost function Weight(w: Edge -> real, f: set<Edge>): real {
    if f == {} then 0.0 else
    var e :| e in f;
    w(e) + Weight(w, f - {e})
  }

  lemma {:induction false} WeightWithout(w: Edge -> real, f: set<Edge>, e: Edge)
    requires e in f
    ensures Weight(w, f) == w(e) + Weight(w, f - {e})
    decreases f
  {
    var c :| c in f && Weight(w, f) == w(c) + Weight(w, f - {c});
    if c != e {
      WeightWithout(w, f - {c}, e);
      WeightWithout(w, f - {e}, c);
      assert f - {c} - {e} == f - {e} - {c};
    }
  }

  lemma {:induction false} WeightSame(w: Edge -> real, v: Edge -> real, f: set<Edge>)
    requires forall e | e in f :: w(e) == v(e)
    ensures Weight(w, f) == Weight(v, f)
    decreases f
  {
    if f != {} {
      var e :| e in f;
      WeightWithout(w, f, e);
      WeightWithout(v, f, e);
      WeightSame(w, v, f - {e});
    }
  }

  // ------------------------------------------------------------ renaming nodes

  ghost predicate Distinct(names: seq<nat>) {
    forall i, j | 0 <= i < j < |names| :: names[i] != names[j]
  }

  /** The edges with node `i` called `names[i]`. */
  ghost function Renamed(edges: set<Edge>, names: seq<nat>): set<Edge>
    requires Below(edges, |names|)
  {
    set e | e in edges :: Link(names[e.a], names[e.b])
  }

  ghost function NameOf(names: seq<nat>, i: nat): nat {
    if i < |names| then names[i] else 0
  }

  ghost function IndexOf(names: seq<nat>, x: nat): nat {
    if x in names then (var i: nat :| i < |names| && names[i] == x; i) else 0
  }

  lemma IndexOfName(names: seq<nat>, i: nat)
    requires Distinct(names) && i < |names|
    ensures IndexOf(names, names[i]) == i
  {
  }

  lemma RenamedMaps(edges: set<Edge>, names: seq<nat>)
    requires Distinct(names) && Below(edges, |names|) && Normal(edges)
    ensures Maps(i => NameOf(names, i), edges, Renamed(edges, names))
    ensures Maps(x => IndexOf(names, x), Renamed(edges, names), edges)
  {
    forall x: nat, y: nat | Link(x, y) in Renamed(edges, names)
      ensures Link(IndexOf(names, x), IndexOf(names, y)) in edges
    {
      var e :| e in edges && Link(names[e.a], names[e.b]) == Link(x, y);
      IndexOfName(names, e.a);
      IndexOfName(names, e.b);
      assert Link(e.a, e.b) == Link(e.b, e.a) == e;
    }
    forall x: nat, y: nat | Link(x, y) in edges
      ensures Link(NameOf(names, x), NameOf(names, y)) in Renamed(edges, names)
    {
      var e := Link(x, y);
      assert Link(names[e.a], names[e.b]) == Link(names[x], names[y]);
    }
  }

  /** Renaming keeps what is connected. */
  lemma RenamedConnected(edges: set<Edge>, names: seq<nat>, x: nat, y: nat)
    requires Distinct(names) && Below(edges, |names|) && Normal(edges) && x < |names| && y < |names|
    ensures Connected(Renamed(edges, names), names[x], names[y]) <==> Connected(edges, x, y)
  {
    RenamedMaps(edges, names);
    IndexOfName(names, x);
    IndexOfName(names, y);
    if Connected(edges, x, y) {
      ConnectedMapped(i => NameOf(names, i), edges, Renamed(edges, names), x, y);
    }
    if Connected(Renamed(edges, names), names[x], names[y]) {
      ConnectedMapped(v => IndexOf(names, v), Renamed(edges, names), edges, names[x], names[y]);
    }
  }

  lemma RenamedWithout(edges: set<Edge>, names: seq<nat>, e: Edge)
    requires Distinct(names) && Below(edges, |names|) && Normal(edges) && e in edges
    ensures Renamed(edges, names) - {Link(names[e.a], names[e.b])} == Renamed(edges - {e}, names)
  {
    forall d | d in edges && Link(names[d.a], names[d.b]) == Link(names[e.a], names[e.b])
      ensures d == e
    {
      IndexOfName(names, d.a);
      IndexOfName(names, d.b);
      IndexOfName(names, e.a);
      IndexOfName(names, e.b);
      assert Link(d.a, d.b) == d && Link(e.a, e.b) == e;
    }
  }

  /** Renaming keeps a forest a forest. */
  lemma RenamedForest(edges: set<Edge>, names: seq<nat>)
    requires Distinct(names) && Below(edges, |names|) && Forest(edges)
    ensures Forest(Renamed(edges, names))
  {
    var renamed := Renamed(edges, names);
    forall l | l in renamed
      ensures !Connected(renamed - {l}, l.a, l.b)
    {
      var e :| e in edges && Link(names[e.a], names[e.b]) == l;
      RenamedWithout(edges, names, e);
      RenamedConnected(edges - {e}, names, e.a, e.b);
      if Connected(renamed - {l}, l.a, l.b) && l.a != names[e.a] {
        Symmetric(renamed - {l}, l.a, l.b);
      }
    }
  }
}
