/**
 Disjoint sets with path halving. `rep` is the abstract value: the root of every
 element. Joining two sets keeps one of the two roots.
 */
module UnionFind {
  import opened Forests

  type Roots = seq<nat>

  /** Every element has a root, and a root is its own. */
  ghost predicate Canonical(rep: Roots) {
    forall i | 0 <= i < |rep| :: IsRoot(rep, rep[i])
  }

  ghost predicate IsRoot(rep: Roots, r: nat) {
    r < |rep| && rep[r] == r
  }

  ghost function RootSet(rep: Roots): set<nat> {
    set i: nat | i < |rep| && rep[i] == i
  }

  /** The sets of `a` and `b` become one, with root `keep`. */
  ghost predicate MergedInto(rep: Roots, next: Roots, a: nat, b: nat, keep: nat) {
    && |next| == |rep| && a < |rep| && b < |rep|
    && (forall x | 0 <= x < |rep| :: next[x] == if rep[x] == rep[a] || rep[x] == rep[b] then keep else rep[x])
  }

  /** ... whichever of the two roots is kept. */
  ghost predicate Merged(rep: Roots, next: Roots, a: nat, b: nat) {
    && a < |rep| && b < |rep|
    && (MergedInto(rep, next, a, b, rep[a]) || MergedInto(rep, next, a, b, rep[b]))
  }

  /** Same set exactly when connected by `edges`. */
  ghost predicate Tracks(rep: Roots, edges: set<Edge>) {
    forall x: nat, y: nat | x < |rep| && y < |rep| :: rep[x] == rep[y] <==> Connected(edges, x, y)
  }

  lemma MergedClasses(rep: Roots, next: Roots, a: nat, b: nat, x: nat, y: nat)
    requires Canonical(rep) && Merged(rep, next, a, b) && x < |rep| && y < |rep|
    ensures next[x] == next[y] <==> rep[x] == rep[y] || (rep[x] == rep[a] && rep[y] == rep[b])
                                    || (rep[x] == rep[b] && rep[y] == rep[a])
  {
  }

  lemma MergeTracks(rep: Roots, next: Roots, edges: set<Edge>, a: nat, b: nat)
    requires Canonical(rep) && Tracks(rep, edges) && Merged(rep, next, a, b)
    ensures Tracks(next, edges + {Link(a, b)})
  {
    forall x: nat, y: nat | x < |rep| && y < |rep|
      ensures next[x] == next[y] <==> Connected(edges + {Link(a, b)}, x, y)
    {
      AddEdge(edges, a, b, x, y);
      MergedClasses(rep, next, a, b, x, y);
    }
  }

  lemma MergeCanonical(rep: Roots, next: Roots, a: nat, b: nat)
    requires Canonical(rep) && Merged(rep, next, a, b)
    ensures Canonical(next)
  {
  }

  /** Joining two different sets leaves one root fewer. */
  lemma MergeLosesRoot(rep: Roots, next: Roots, a: nat, b: nat)
    requires Canonical(rep) && Merged(rep, next, a, b) && rep[a] != rep[b]
    ensures |RootSet(next)| == |RootSet(rep)| - 1
  {
    var gone := if MergedInto(rep, next, a, b, rep[a]) then rep[b] else rep[a];
    assert RootSet(next) == RootSet(rep) - {gone};
    assert gone in RootSet(rep);
  }

  /** One root: one set. */
  lemma OneRoot(rep: Roots, x: nat, y: nat)
    requires Canonical(rep) && |RootSet(rep)| <= 1 && x < |rep| && y < |rep|
    ensures rep[x] == rep[y]
  {
    assert rep[x] in RootSet(rep) && rep[y] in RootSet(rep);
    if rep[x] != rep[y] {
      assert {rep[x], rep[y]} <= RootSet(rep);
      SubsetSize({rep[x], rep[y]}, RootSet(rep));
    }
  }

  lemma {:induction false} SubsetSize(a: set<nat>, b: set<nat>)
    requires a <= b
    ensures |a| <= |b|
    decreases a
  {
    if a != {} {
      var x :| x in a;
      SubsetSize(a - {x}, b - {x});
    }
  }

  lemma NoEdges(n: nat)
    ensures Tracks(seq(n, i => i), {}) && Forest({})
  {
    forall x: nat, y: nat | x < n && y < n && Connected({}, x, y)
      ensures x == y
    {
      var t :| Joins({}, t, x, y);
    }
    forall x: nat | x < n
      ensures Connected({}, x, x)
    {
      Reflexive({}, x);
    }
  }

  lemma {:induction false} EveryoneIsRoot(n: nat)
    ensures |RootSet(seq(n, i => i))| == n
  {
    if n > 0 {
      EveryoneIsRoot(n - 1);
      assert RootSet(seq(n, i => i)) == RootSet(seq(n - 1, i => i)) + {n - 1};
    }
  }

  // ------------------------------------------------------------ parent links

  /** The parent of `i` is in its set, one step nearer the root. */
  ghost predicate LinkOk(p: seq<nat>, rep: Roots, depth: seq<nat>, i: nat) {
    && i < |p| == |rep| == |depth| && p[i] < |p|
    && rep[p[i]] == rep[i] && (p[i] == i <==> rep[i] == i)
    && (p[i] != i ==> depth[p[i]] < depth[i])
  }

  ghost predicate LinksOk(p: seq<nat>, rep: Roots, depth: seq<nat>) {
    |p| == |rep| == |depth| && Canonical(rep) && forall i: nat | i < |p| :: LinkOk(p, rep, depth, i)
  }

  lemma HalveKeeps(p: seq<nat>, rep: Roots, depth: seq<nat>, r: nat)
    requires LinksOk(p, rep, depth) && r < |p| && p[r] != r
    ensures p[r] < |p| && p[p[r]] < |p| && LinksOk(p[r := p[p[r]]], rep, depth)
    ensures rep[p[p[r]]] == rep[r] && depth[p[p[r]]] < depth[r]
  {
    assert LinkOk(p, rep, depth, r) && LinkOk(p, rep, depth, p[r]);
    var p' := p[r := p[p[r]]];
    forall i: nat | i < |p|
      ensures LinkOk(p', rep, depth, i)
    {
      assert LinkOk(p, rep, depth, i);
    }
  }

  ghost function Rerooted(rep: Roots, ra: nat, rb: nat): Roots {
    seq(|rep|, x requires 0 <= x < |rep| => if rep[x] == ra then rb else rep[x])
  }

  ghost function Deepened(rep: Roots, depth: seq<nat>, ra: nat, rb: nat): seq<nat>
    requires |rep| == |depth| && rb < |rep|
  {
    seq(|rep|, x requires 0 <= x < |rep| => if rep[x] == ra then depth[x] + depth[rb] + 1 else depth[x])
  }

  lemma HangKeeps(p: seq<nat>, rep: Roots, depth: seq<nat>, ra: nat, rb: nat)
    requires LinksOk(p, rep, depth) && IsRoot(rep, ra) && IsRoot(rep, rb) && ra != rb
    ensures LinksOk(p[ra := rb], Rerooted(rep, ra, rb), Deepened(rep, depth, ra, rb))
  {
    var p', rep', depth' := p[ra := rb], Rerooted(rep, ra, rb), Deepened(rep, depth, ra, rb);
    forall i: nat | i < |p|
      ensures LinkOk(p', rep', depth', i)
    {
      assert LinkOk(p, rep, depth, i);
    }
    forall i | 0 <= i < |rep|
      ensures IsRoot(rep', rep'[i])
    {
      assert IsRoot(rep, rep[i]);
    }
  }

  class Sets {
    var parent: array<nat>
    ghost var rep: Roots
    ghost var depth: seq<nat>

    ghost predicate Valid()
      reads this, parent
    {
      LinksOk(parent[..], rep, depth)
    }

    constructor (n: nat)
      ensures Valid() && fresh(parent) && rep == seq(n, i => i)
    {
      parent := new nat[n](i => i);
      rep := seq(n, i => i);
      depth := seq(n, _ => 0);
      new;
      assert forall i: nat | i < n :: LinkOk(parent[..], rep, depth, i);
    }

    /** The root of `x`, halving the path to it on the way. */
    method Find(x: nat) returns (r: nat)
      requires Valid() && x < |rep|
      modifies parent
      ensures Valid() && r == rep[x] && r < |rep|
    {
      r := x;
      while parent[r] != r
        invariant Valid() && r < |rep| && rep[r] == rep[x]
        decreases depth[r]
      {
        HalveKeeps(parent[..], rep, depth, r);
        ghost var was := parent[..];
        parent[r] := parent[parent[r]];
        assert parent[..] == was[r := was[was[r]]];
        r := parent[r];
      }
      assert LinkOk(parent[..], rep, depth, r);
    }

    /** Join the sets of `a` and `b` under the root of `b`; true when they differed. */
    method Union(a: nat, b: nat) returns (joined: bool)
      requires Valid() && a < |rep| && b < |rep|
      modifies this, parent
      ensures Valid() && parent == old(parent)
      ensures joined <==> old(rep)[a] != old(rep)[b]
      ensures MergedInto(old(rep), rep, a, b, old(rep)[b]) && Merged(old(rep), rep, a, b)
    {
      var ra := Find(a);
      var rb := Find(b);
      if ra == rb {
        return false;
      }
      HangKeeps(parent[..], rep, depth, ra, rb);
      ghost var was := parent[..];
      parent[ra] := rb;
      assert parent[..] == was[ra := rb];
      depth := Deepened(rep, depth, ra, rb);
      rep := Rerooted(rep, ra, rb);
      return true;
    }

    /** How many of the elements are roots. */
    method Components() returns (count: nat)
      requires Valid()
      modifies parent
      ensures Valid() && count == |RootSet(rep)|
    {
      count := 0;
      ghost var seen: set<nat> := {};
      for i := 0 to parent.Length
        invariant Valid() && count == |seen|
        invariant seen == set k: nat | k < i && k < |rep| && rep[k] == k
      {
        var r := Find(i);
        if r == i {
          seen, count := seen + {i}, count + 1;
        }
      }
      assert seen == RootSet(rep);
    }
  }
}
