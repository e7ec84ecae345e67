/**
 Component repair: after trees, mesh and loops every island is made one
 component, in the flat design and in the hierarchical one.
 */
module Topology {
  import opened Options
  import opened Geometry
  import opened Forests
  import opened UnionFind
  import opened SpanningForest

  const MAX_DEGREE := 8

  // ------------------------------------------------------------ edges and degrees

  ghost function Incident(edges: set<Edge>, i: nat): set<Edge> {
    set e | e in edges && (e.a == i || e.b == i)
  }

  ghost predicate DegreesOf(edges: set<Edge>, degree: seq<nat>) {
    Below(edges, |degree|) && Normal(edges) && forall i: nat | i < |degree| :: degree[i] == |Incident(edges, i)|
  }

  /** Add an edge unless it is a loop or already there; degrees stay exact. */
  method Add(local: set<Edge>, degree: seq<nat>, e: Edge) returns (local': set<Edge>, degree': seq<nat>, added: bool)
    requires DegreesOf(local, degree) && e.a < |degree| && e.b < |degree| && Link(e.a, e.b) == e
    ensures added <==> e.a != e.b && e !in local
    ensures local' == (if added then local + {e} else local)
    ensures degree' == (if added then degree[e.a := degree[e.a] + 1][e.b := degree[e.b] + 1] else degree)
    ensures DegreesOf(local', degree')
  {
    if e.a == e.b || e in local {
      return local, degree, false;
    }
    local', added := local + {e}, true;
    degree' := degree[e.a := degree[e.a] + 1];
    degree' := degree'[e.b := degree'[e.b] + 1];
    forall i: nat | i < |degree|
      ensures degree'[i] == |Incident(local', i)|
    {
      IncidentGrows(local, e, i);
    }
  }

  lemma IncidentGrows(edges: set<Edge>, e: Edge, i: nat)
    requires e !in edges
    ensures |Incident(edges + {e}, i)| == |Incident(edges, i)| + (if i == e.a || i == e.b then 1 else 0)
  {
    if i == e.a || i == e.b {
      assert Incident(edges + {e}, i) == Incident(edges, i) + {e};
    } else {
      assert Incident(edges + {e}, i) == Incident(edges, i);
    }
  }

  // ------------------------------------------------------------ one round of repair

  /** Element `root0`, a root when it was read, is still in the set of element 0. */
  ghost predicate WithZero(rep: Roots, root0: nat, k: nat) {
    && 0 < |rep| && root0 < |rep| && rep[root0] == rep[0] && k <= |rep|
    && (forall j | 0 <= j < k :: rep[j] == rep[0])
  }

  /** A round keeps everything before `k` joined to 0 whichever root the union
      keeps, even if `root0` has stopped being a root: `m` is then 0 itself. */
  lemma RoundJoins(rep: Roots, next: Roots, root0: nat, k: nat, m: nat)
    requires Canonical(rep) && WithZero(rep, root0, k) && 0 < k < |rep|
    requires if rep[k] == root0 then next == rep
             else m < |rep| && (rep[m] == root0 || m == 0) && Merged(rep, next, k, m)
    ensures WithZero(next, root0, k + 1)
  {
    if rep[k] == root0 {
      assert IsRoot(rep, rep[k]);
    } else {
      assert rep[m] == rep[0] by {
        assert rep[m] == root0 ==> IsRoot(rep, rep[m]);
      }
    }
  }

  /** Round `k` of a repair whose unions may keep either root: `k` is left alone if
      its root is `root0`, else merged with a bus that has that root, or with bus 0
      when none has it any more. */
  ghost predicate RoundAt(reps: seq<Roots>, edges: seq<set<Edge>>, root0: nat, to: seq<nat>, k: nat) {
    && 0 < k < |reps| == |edges| == |to| && |reps[k - 1]| == |reps|
    && var (rep, m) := (reps[k - 1], to[k]);
    if rep[k] == root0 then reps[k] == rep && edges[k] == edges[k - 1]
    else m < |rep| && (rep[m] == root0 || m == 0) && Merged(rep, reps[k], k, m)
         && edges[k] == edges[k - 1] + {Link(k, m)}
  }

  /** A whole repair: `reps[k]` and `edges[k]` after round `k`, from the sets of the
      edges there were; `root0` is read once, before the first round. */
  ghost predicate IsRepair(reps: seq<Roots>, edges: seq<set<Edge>>, root0: nat, to: seq<nat>) {
    && 0 < |reps| == |edges| == |to| == |reps[0]| && Canonical(reps[0]) && Tracks(reps[0], edges[0])
    && root0 == reps[0][0]
    && (forall k: nat | 0 < k < |reps| :: RoundAt(reps, edges, root0, to, k))
  }

  lemma {:induction false} RepairUpTo(reps: seq<Roots>, edges: seq<set<Edge>>, root0: nat, to: seq<nat>, k: nat)
    requires IsRepair(reps, edges, root0, to) && k < |reps|
    ensures |reps[k]| == |reps| && Canonical(reps[k]) && Tracks(reps[k], edges[k]) && WithZero(reps[k], root0, k + 1)
  {
    if k == 0 {
      assert IsRoot(reps[0], reps[0][0]);
    } else {
      RepairUpTo(reps, edges, root0, to, k - 1);
      assert RoundAt(reps, edges, root0, to, k);
      var rep := reps[k - 1];
      if rep[k] != root0 {
        MergeCanonical(rep, reps[k], k, to[k]);
        MergeTracks(rep, reps[k], edges[k - 1], k, to[k]);
      }
      RoundJoins(rep, reps[k], root0, k, to[k]);
    }
  }

  /** Whichever root every union keeps, the loop ends with one component. */
  lemma RepairJoinsAll(reps: seq<Roots>, edges: seq<set<Edge>>, root0: nat, to: seq<nat>)
    requires IsRepair(reps, edges, root0, to)
    ensures OneComponent(|reps|, edges[|reps| - 1])
  {
    var last := |reps| - 1;
    RepairUpTo(reps, edges, root0, to, last);
    AllWithZero(reps[last], edges[last], root0);
  }

  /** With a union that keeps the first root, unlike the program's own, the root read
      once goes stale: after the first round no bus has it, and the second falls
      back on bus 0. */
  lemma RootGoesStale()
    ensures var reps := [[0, 1, 2], [1, 1, 2], [1, 1, 1]];
            var edges := [{}, {Link(1, 0)}, {Link(1, 0), Link(2, 0)}];
            IsRepair(reps, edges, 0, [0, 0, 0]) && forall x | 0 <= x < 3 :: reps[1][x] != 0
  {
    var reps: seq<Roots> := [[0, 1, 2], [1, 1, 2], [1, 1, 1]];
    var edges: seq<set<Edge>> := [{}, {Link(1, 0)}, {Link(1, 0), Link(2, 0)}];
    NoEdges(3);
    assert reps[0] == seq(3, i => i);
    assert Merged(reps[0], reps[1], 1, 0);
    assert Merged(reps[1], reps[2], 2, 0);
    assert RoundAt(reps, edges, 0, [0, 0, 0], 1);
    assert RoundAt(reps, edges, 0, [0, 0, 0], 2);
  }

  /** The bus of the set with root `root0` nearest to `k`, or bus 0 if there is none. */
  method NearestInSet(uf: Sets, dist2: Metric, points: seq<Point>, k: nat, root0: nat) returns (m: nat)
    requires uf.Valid() && |points| == |uf.rep| && k < |points|
    modifies uf.parent
    ensures uf.Valid() && m < |points|
    ensures (exists x: nat :: x < |points| && uf.rep[x] == root0) ==> uf.rep[m] == root0
    ensures uf.rep[m] == root0 || m == 0
    ensures forall x: nat | x < |points| && uf.rep[x] == root0 ::
              dist2(points[k], points[m]) < dist2(points[k], points[x])
              || (dist2(points[k], points[m]) == dist2(points[k], points[x]) && m <= x)
  {
    var best: Option<real> := None;
    m := 0;
    for x := 0 to |points|
      invariant uf.Valid() && m < |points|
      invariant best.None? ==> m == 0 && forall y: nat | y < x :: uf.rep[y] != root0
      invariant best.Some? ==> uf.rep[m] == root0 && best.value == dist2(points[k], points[m])
      invariant best.Some? ==> m < x && forall y: nat | y < x && uf.rep[y] == root0 ::
                                 best.value < dist2(points[k], points[y])
                                 || (best.value == dist2(points[k], points[y]) && m <= y)
    {
      var r := uf.Find(x);
      if r == root0 {
        var d := dist2(points[k], points[x]);
        if best.None? || d < best.value {
          best, m := Some(d), x;
        }
      }
    }
  }

  /** Everything is in one set and connected. */
  ghost predicate OneComponent(n: nat, edges: set<Edge>) {
    forall x: nat, y: nat | x < n && y < n :: Connected(edges, x, y)
  }

  lemma AllWithZero(rep: Roots, edges: set<Edge>, root0: nat)
    requires Tracks(rep, edges) && WithZero(rep, root0, |rep|)
    ensures OneComponent(|rep|, edges)
  {
  }

  /** The sets of an edge set. */
  method SetsOf(n: nat, edges: set<Edge>) returns (uf: Sets)
    requires Below(edges, n) && Normal(edges)
    ensures fresh(uf) && fresh(uf.parent) && uf.Valid() && |uf.rep| == n && Tracks(uf.rep, edges)
  {
    uf := new Sets(n);
    NoEdges(n);
    var left := edges;
    assert edges - left == {};
    while left != {}
      invariant left <= edges && uf.Valid() && fresh(uf) && fresh(uf.parent) && |uf.rep| == n
      invariant Tracks(uf.rep, edges - left)
      decreases left
    {
      var e :| e in left;
      ghost var was := uf.rep;
      var _ := uf.Union(e.a, e.b);
      MergeTracks(was, uf.rep, edges - left, e.a, e.b);
      assert edges - (left - {e}) == edges - left + {e};
      left := left - {e};
    }
    assert edges - left == edges;
  }

  /** How many sets `edges` leaves. */
  ghost predicate Parts(n: nat, edges: set<Edge>, parts: nat) {
    exists rep: Roots :: |rep| == n && Canonical(rep) && Tracks(rep, edges) && parts == |RootSet(rep)|
  }

  lemma SomeRoot(rep: Roots)
    requires Canonical(rep) && |rep| > 0
    ensures |RootSet(rep)| > 0
  {
    assert IsRoot(rep, rep[0]) && rep[0] in RootSet(rep);
  }

  lemma OneSetOneComponent(rep: Roots, edges: set<Edge>)
    requires Canonical(rep) && Tracks(rep, edges) && |RootSet(rep)| <= 1
    ensures OneComponent(|rep|, edges)
  {
    forall x: nat, y: nat | x < |rep| && y < |rep|
      ensures Connected(edges, x, y)
    {
      OneRoot(rep, x, y);
    }
  }

  lemma JoinedOneRoot(rep: Roots, root0: nat)
    requires Canonical(rep) && WithZero(rep, root0, |rep|)
    ensures |RootSet(rep)| == 1
  {
    assert IsRoot(rep, rep[0]);
    assert RootSet(rep) == {rep[0]};
  }

  /** State between rounds: the sets are those of the edges, all before `k` are
      with 0, whose root has not changed, and each new edge cost one set. */
  ghost predicate Repairing(n: nat, local0: set<Edge>, parts0: nat, local: set<Edge>, degree: seq<nat>, rep: Roots,
                            root0: nat, k: nat) {
    && |rep| == n == |degree| && Canonical(rep) && Tracks(rep, local)
    && local0 <= local && DegreesOf(local, degree)
    && WithZero(rep, root0, k) && rep[0] == root0
    && |local| + |RootSet(rep)| == |local0| + parts0
  }

  lemma AttachKeeps(n: nat, local0: set<Edge>, parts0: nat, local: set<Edge>, degree: seq<nat>, rep: Roots,
                    root0: nat, k: nat,
                    m: nat, next: Roots, degree': seq<nat>)
    requires Repairing(n, local0, parts0, local, degree, rep, root0, k) && 0 < k < n
    requires rep[k] != root0 && m < n && rep[m] == root0 && MergedInto(rep, next, k, m, rep[m])
    requires |degree'| == n && DegreesOf(local + {Link(k, m)}, degree')
    ensures Repairing(n, local0, parts0, local + {Link(k, m)}, degree', next, root0, k + 1)
    ensures Link(k, m) !in local
  {
    if Link(k, m) in local {
      Adjacent(local, k, m);
    }
    MergeTracks(rep, next, local, k, m);
    MergeCanonical(rep, next, k, m);
    MergeLosesRoot(rep, next, k, m);
    RoundJoins(rep, next, root0, k, m);
  }

  /** Bus `k` is left alone if it is connected to bus 0, and else tied to the bus
      nearest to it among those that are, the first of equals. */
  ghost predicate AttachedAt(dist2: Metric, points: seq<Point>, was: set<Edge>, now: set<Edge>, k: nat) {
    && k < |points|
    && if Connected(was, k, 0) then now == was
       else exists m: nat :: NearestToAttach(dist2, points, was, k, m) && now == was + {Link(k, m)}
  }

  ghost predicate NearestToAttach(dist2: Metric, points: seq<Point>, edges: set<Edge>, k: nat, m: nat)
    requires k < |points|
  {
    && m < |points| && Connected(edges, m, 0)
    && forall x: nat | x < |points| && Connected(edges, x, 0) ::
         dist2(points[k], points[m]) < dist2(points[k], points[x])
         || (dist2(points[k], points[m]) == dist2(points[k], points[x]) && m <= x)
  }

  /** Every bus in turn. */
  ghost predicate AttachedUpTo(dist2: Metric, points: seq<Point>, run: seq<set<Edge>>, n: nat) {
    0 < n <= |run| && forall k: nat | 0 < k < n :: AttachedAt(dist2, points, run[k - 1], run[k], k)
  }

  lemma AttachedMore(dist2: Metric, points: seq<Point>, run: seq<set<Edge>>, next: set<Edge>)
    requires AttachedUpTo(dist2, points, run, |run|) && AttachedAt(dist2, points, run[|run| - 1], next, |run|)
    ensures AttachedUpTo(dist2, points, run + [next], |run| + 1)
  {
    var more := run + [next];
    forall k: nat | 0 < k < |more|
      ensures AttachedAt(dist2, points, more[k - 1], more[k], k)
    {
      if k < |run| {
        assert more[k - 1] == run[k - 1] && more[k] == run[k];
      }
    }
  }

  /** One component already: every bus is left alone. */
  lemma NothingAttached(dist2: Metric, points: seq<Point>, edges: set<Edge>)
    requires |points| > 0 && OneComponent(|points|, edges)
    ensures AttachedUpTo(dist2, points, seq(|points|, _ => edges), |points|)
  {
  }

  /** One round: leave `k` alone if it is with 0, else attach its component. */
  method Round(uf: Sets, dist2: Metric, points: seq<Point>, k: nat, root0: nat,
               local0: set<Edge>, degree0: seq<nat>, ghost first: set<Edge>, ghost parts0: nat)
    returns (local: set<Edge>, degree: seq<nat>)
    requires uf.Valid() && 0 < k < |points|
    requires Repairing(|points|, first, parts0, local0, degree0, uf.rep, root0, k)
    modifies uf, uf.parent
    ensures uf.Valid() && uf.parent == old(uf.parent)
    ensures Repairing(|points|, first, parts0, local, degree, uf.rep, root0, k + 1)
    ensures AttachedAt(dist2, points, local0, local, k)
  {
    local, degree := local0, degree0;
    var r := uf.Find(k);
    ghost var was := uf.rep;
    if r != root0 {
      var m := NearestInSet(uf, dist2, points, k, root0);
      assert was[0] == root0 && was[m] == root0;
      assert NearestToAttach(dist2, points, local0, k, m);
      var added;
      local, degree, added := Add(local0, degree0, Link(k, m));
      assert Link(k, m) !in local0 by {
        if Link(k, m) in local0 {
          Adjacent(local0, k, m);
        }
      }
      var _ := uf.Union(k, m);
      AttachKeeps(|points|, first, parts0, local0, degree0, was, root0, k, m, uf.rep, degree);
    } else {
      RoundJoins(was, uf.rep, root0, k, k);
    }
  }

  /** Attach every other component to its nearest bus in the first one: one
      component, and exactly one new edge per extra component. */
  method Repair(dist2: Metric, points: seq<Point>, local0: set<Edge>, degree0: seq<nat>)
    returns (local: set<Edge>, degree: seq<nat>, ghost run: seq<set<Edge>>)
    requires DegreesOf(local0, degree0) && |degree0| == |points| > 0
    ensures local0 <= local && |degree| == |points| && DegreesOf(local, degree)
    ensures OneComponent(|points|, local)
    ensures exists parts :: Parts(|points|, local0, parts) && |local| == |local0| + parts - 1
    ensures |run| == |points| && run[0] == local0 && run[|run| - 1] == local
    ensures AttachedUpTo(dist2, points, run, |points|)
  {
    var uf := SetsOf(|points|, local0);
    local, degree, run := local0, degree0, [local0];
    var parts := uf.Components();
    assert Parts(|points|, local0, parts);
    SomeRoot(uf.rep);
    if parts <= 1 {
      OneSetOneComponent(uf.rep, local);
      NothingAttached(dist2, points, local);
      run := seq(|points|, _ => local);
      return;
    }
    var root0 := uf.Find(0);
    for k := 1 to |points|
      invariant uf.Valid() && fresh(uf) && fresh(uf.parent)
      invariant Repairing(|points|, local0, parts, local, degree, uf.rep, root0, k)
      invariant |run| == k && run[0] == local0 && run[k - 1] == local && AttachedUpTo(dist2, points, run, k)
    {
      local, degree := Round(uf, dist2, points, k, root0, local, degree, local0, parts);
      AttachedMore(dist2, points, run, local);
      run := run + [local];
    }
    AllWithZero(uf.rep, local, root0);
    JoinedOneRoot(uf.rep, root0);
  }

  // ------------------------------------------------------------ the flat design

  /** `degree` exceeds the cap nowhere, except where the trees already did. */
  ghost predicate Capped(degree: seq<nat>, trees: seq<nat>) {
    |degree| == |trees| && forall i | 0 <= i < |degree| :: degree[i] <= MAX_DEGREE || degree[i] <= trees[i]
  }

  /** Add each listed edge. */
  method AddTree(edges: seq<Edge>, chosen: seq<nat>, n: nat) returns (local: set<Edge>, degree: seq<nat>)
    requires Indices(edges, chosen) && Candidates(n, edges) && Forest(Picked(edges, chosen))
    ensures local == Picked(edges, chosen) && |degree| == n && DegreesOf(local, degree)
  {
    local, degree := {}, seq(n, _ => 0);
    assert forall i: nat :: Incident({}, i) == {};
    for k := 0 to |chosen|
      invariant Indices(edges, chosen[..k]) && local == Picked(edges, chosen[..k]) && |degree| == n
                && DegreesOf(local, degree)
    {
      assert chosen[k] in chosen && edges[chosen[k]] in edges;
      var e := edges[chosen[k]];
      PickedGrows(edges, chosen[..k], chosen[k]);
      assert chosen[..k + 1] == chosen[..k] + [chosen[k]];
      NoLoops(Picked(edges, chosen), e);
      var isNew;
      local, degree, isNew := Add(local, degree, e);
    }
    assert chosen[..|chosen|] == chosen;
  }

  lemma NoLoops(edges: set<Edge>, e: Edge)
    requires Forest(edges) && e in edges
    ensures e.a != e.b
  {
    if e.a == e.b {
      Reflexive(edges - {e}, e.a);
    }
  }

  /** `e` cannot be added: a loop, there already, or an end at the cap. */
  predicate Refused(local: set<Edge>, degree: seq<nat>, e: Edge)
    requires e.a < |degree| && e.b < |degree|
  {
    e.a == e.b || e in local || degree[e.a] >= MAX_DEGREE || degree[e.b] >= MAX_DEGREE
  }

  /** `local` grew from `local0` by some of `from`, not past the target. */
  ghost predicate Grown(local0: set<Edge>, local: set<Edge>, from: set<Edge>, target: nat) {
    local0 <= local <= local0 + from && (|local| <= |local0| || |local| <= target)
  }

  /** One edge of the second tree: added while edges are wanted. */
  ghost predicate TreeStep(hv: seq<Edge>, target: nat, run: seq<set<Edge>>, k: nat) {
    && k < |hv| && k + 1 < |run|
    && run[k + 1] == if |run[k]| < target && hv[k].a != hv[k].b then run[k] + {hv[k]} else run[k]
  }

  /** One mesh edge: added while edges are wanted, if both ends have fewer than eight. */
  ghost predicate MeshStep(mesh: seq<Edge>, target: nat, run: seq<set<Edge>>, k: nat) {
    && k < |mesh| && k + 1 < |run|
    && run[k + 1] == if |run[k]| < target && mesh[k].a != mesh[k].b && |Incident(run[k], mesh[k].a)| < 8
                        && |Incident(run[k], mesh[k].b)| < 8 then run[k] + {mesh[k]} else run[k]
  }

  /** Candidate `j` of a bus is its first one that is new, with both ends below eight. */
  ghost predicate FirstFree(near: seq<Edge>, edges: set<Edge>, j: nat) {
    j < |near| && j < 3 && IsFree(edges, near[j]) && forall i | 0 <= i < j :: !IsFree(edges, near[i])
  }

  ghost predicate IsFree(edges: set<Edge>, e: Edge) {
    e !in edges && |Incident(edges, e.a)| < 8 && |Incident(edges, e.b)| < 8
  }

  /** One bus's turn for a loop: to its first free candidate of the nearest three, while
      edges are wanted and fewer than `cap` loops were added. */
  ghost predicate LoopStep(near: seq<seq<Edge>>, cap: nat, target: nat, run: seq<set<Edge>>, h: nat) {
    && h < |near| && h + 1 < |run|
    && if |run[h]| < target && |run[h]| < |run[0]| + cap && exists j: nat :: FirstFree(near[h], run[h], j)
       then exists j: nat :: FirstFree(near[h], run[h], j) && run[h + 1] == run[h] + {near[h][j]}
       else run[h + 1] == run[h]
  }

  /** Second tree, over the top voltage buses: every edge, or as many as are wanted. */
  method AddHighVoltageTree(hv: seq<Edge>, target: nat, local0: set<Edge>, degree0: seq<nat>)
    returns (local: set<Edge>, degree: seq<nat>, ghost run: seq<set<Edge>>)
    requires DegreesOf(local0, degree0) && Candidates(|degree0|, hv)
    ensures Grown(local0, local, All(hv), target) && |degree| == |degree0| && DegreesOf(local, degree)
    ensures |local| < target ==> forall e | e in hv :: e.a == e.b || e in local
    ensures |run| == |hv| + 1 && run[0] == local0 && run[|hv|] == local
    ensures forall k: nat | k < |hv| :: TreeStep(hv, target, run, k)
  {
    local, degree, run := local0, degree0, [local0];
    for k := 0 to |hv|
      invariant |run| == k + 1 && run[0] == local0 && run[k] == local
      invariant forall j: nat | j < k :: TreeStep(hv, target, run, j)
      invariant Grown(local0, local, All(hv), target) && |degree| == |degree0| && DegreesOf(local, degree)
      invariant |local| >= target || forall j | 0 <= j < k :: hv[j].a == hv[j].b || hv[j] in local
    {
      ghost var was, prior := local, run;
      if |local| < target {
        assert hv[k] in hv;
        var isNew;
        local, degree, isNew := Add(local, degree, hv[k]);
        assert !isNew && hv[k] in was ==> was + {hv[k]} == was;
      }
      run := run + [local];
      forall j: nat | j < k
        ensures TreeStep(hv, target, run, j)
      {
        assert TreeStep(hv, target, prior, j);
      }
    }
  }

  /** Mesh edges, in the order given, under the degree cap and up to the target:
      below the target, every one left out was refused. */
  method AddMesh(mesh: seq<Edge>, target: nat, local0: set<Edge>, degree0: seq<nat>)
    returns (local: set<Edge>, degree: seq<nat>, ghost run: seq<set<Edge>>)
    requires DegreesOf(local0, degree0) && Candidates(|degree0|, mesh)
    ensures Grown(local0, local, All(mesh), target) && |degree| == |degree0| && DegreesOf(local, degree)
    ensures Capped(degree, degree0)
    ensures |local| < target ==> forall k | 0 <= k < |mesh| :: mesh[k] in mesh && Refused(local, degree, mesh[k])
    ensures |run| == |mesh| + 1 && run[0] == local0 && run[|mesh|] == local
    ensures forall k: nat | k < |mesh| :: MeshStep(mesh, target, run, k)
  {
    local, degree, run := local0, degree0, [local0];
    for k := 0 to |mesh|
      invariant DegreesOf(local, degree) && Meshing(mesh, target, local0, degree0, run, local, degree, k)
    {
      ghost var was, wasDegree := local, degree;
      assert mesh[k] in mesh;
      if |local| < target {
        local, degree := TakeMesh(mesh[k], local, degree);
      }
      MeshingMore(mesh, target, local0, degree0, run, was, wasDegree, local, degree, k);
      run := run + [local];
    }
  }

  /** The first `k` mesh edges have been tried. */
  ghost predicate Meshing(mesh: seq<Edge>, target: nat, local0: set<Edge>, degree0: seq<nat>, run: seq<set<Edge>>,
                          local: set<Edge>, degree: seq<nat>, k: nat)
    requires Candidates(|degree0|, mesh)
  {
    && k <= |mesh| && |run| == k + 1 && run[0] == local0 && run[k] == local && |degree| == |degree0|
    && (forall j: nat | j < k :: MeshStep(mesh, target, run, j))
    && Grown(local0, local, All(mesh), target) && Capped(degree, degree0)
    && (|local| >= target || forall j | 0 <= j < k :: mesh[j] in mesh && Refused(local, degree, mesh[j]))
  }

  lemma MeshingMore(mesh: seq<Edge>, target: nat, local0: set<Edge>, degree0: seq<nat>, run: seq<set<Edge>>,
                    was: set<Edge>, wasDegree: seq<nat>, local: set<Edge>, degree: seq<nat>, k: nat)
    requires Candidates(|degree0|, mesh) && Meshing(mesh, target, local0, degree0, run, was, wasDegree, k)
    requires k < |mesh| && mesh[k] in mesh && |degree| == |degree0|
    requires |was| >= target ==> local == was && degree == wasDegree
    requires |was| < target ==>
               && Refused(local, degree, mesh[k]) && Capped(degree, wasDegree)
               && (forall i | 0 <= i < |degree| :: wasDegree[i] <= degree[i])
               && local == if mesh[k].a != mesh[k].b && |Incident(was, mesh[k].a)| < 8
                              && |Incident(was, mesh[k].b)| < 8 then was + {mesh[k]} else was
    ensures Meshing(mesh, target, local0, degree0, run + [local], local, degree, k + 1)
  {
    MeshStepsKept(mesh, target, run, local, k);
    assert MeshStep(mesh, target, run + [local], k);
    assert |local| <= |was| + 1;
  }

  /** Add one mesh edge, unless it is refused. */
  method TakeMesh(e: Edge, local0: set<Edge>, degree0: seq<nat>) returns (local: set<Edge>, degree: seq<nat>)
    requires DegreesOf(local0, degree0) && e.a < |degree0| && e.b < |degree0| && Link(e.a, e.b) == e
    ensures |degree| == |degree0| && DegreesOf(local, degree) && Capped(degree, degree0) && Refused(local, degree, e)
    ensures forall i | 0 <= i < |degree| :: degree0[i] <= degree[i]
    ensures local == if e.a != e.b && |Incident(local0, e.a)| < 8 && |Incident(local0, e.b)| < 8 then local0 + {e}
                     else local0
  {
    local, degree := local0, degree0;
    if degree[e.a] < MAX_DEGREE && degree[e.b] < MAX_DEGREE {
      var isNew;
      local, degree, isNew := Add(local, degree, e);
      assert !isNew && e in local0 ==> local0 + {e} == local0;
    }
  }

  lemma MeshStepsKept(mesh: seq<Edge>, target: nat, run: seq<set<Edge>>, next: set<Edge>, k: nat)
    requires |run| == k + 1 && k < |mesh|
    ensures forall j: nat | j < k && MeshStep(mesh, target, run, j) :: MeshStep(mesh, target, run + [next], j)
  {
    forall j: nat | j < k && MeshStep(mesh, target, run, j)
      ensures MeshStep(mesh, target, run + [next], j)
    {
      var more := run + [next];
      assert more[j] == run[j] && more[j + 1] == run[j + 1];
    }
  }

  ghost function AllNear(near: seq<seq<Edge>>): set<Edge> {
    set h, e | 0 <= h < |near| && e in near[h] :: e
  }

  /** How many candidates of a bus are looked at. */
  function Tried(near: seq<Edge>): nat {
    if |near| < 3 then |near| else 3
  }

  /** Bus `h` got a loop, or all candidates looked at were refused. */
  ghost predicate LoopTried(near: seq<Edge>, local0: set<Edge>, local: set<Edge>, degree: seq<nat>)
    requires Candidates(|degree|, near)
  {
    || (exists j :: 0 <= j < Tried(near) && near[j] in local && near[j] !in local0)
    || (forall j | 0 <= j < Tried(near) :: near[j] in near && Refused(local, degree, near[j]))
  }

  /** No candidate is a loop in the graph sense: the two ends differ. */
  ghost predicate Proper(near: seq<seq<Edge>>) {
    forall h, e | 0 <= h < |near| && e in near[h] :: e.a != e.b
  }

  lemma LoopStillTried(near: seq<Edge>, local0: set<Edge>, local: set<Edge>, degree: seq<nat>, local': set<Edge>,
                       degree': seq<nat>)
    requires Candidates(|degree|, near) && |degree'| == |degree| && LoopTried(near, local0, local, degree)
    requires local <= local' && forall i | 0 <= i < |degree| :: degree[i] <= degree'[i]
    ensures LoopTried(near, local0, local', degree')
  {
  }

  /** `local` is `local0` and at most one of `near`, with no degree raised past the cap. */
  ghost predicate OneMore(near: seq<Edge>, local0: set<Edge>, degree0: seq<nat>, local: set<Edge>, degree: seq<nat>) {
    && |degree| == |degree0| && DegreesOf(local, degree) && Capped(degree, degree0)
    && local0 <= local <= local0 + All(near) && |local| <= |local0| + 1
    && (forall i | 0 <= i < |degree| :: degree0[i] <= degree[i])
  }

  method TakeLoop(near: seq<Edge>, j: nat, local0: set<Edge>, degree0: seq<nat>)
    returns (local: set<Edge>, degree: seq<nat>)
    requires DegreesOf(local0, degree0) && Candidates(|degree0|, near) && j < Tried(near) && near[j] in near
    requires near[j] !in local0 && degree0[near[j].a] < MAX_DEGREE && degree0[near[j].b] < MAX_DEGREE
    ensures OneMore(near, local0, degree0, local, degree)
    ensures near[j].a != near[j].b ==> LoopTried(near, local0, local, degree) && |local| == |local0| + 1
                                       && local == local0 + {near[j]}
  {
    var isNew;
    local, degree, isNew := Add(local0, degree0, near[j]);
    assert isNew ==> near[j] in local && near[j] !in local0;
  }

  /** The first of the three nearest candidates of one bus that is not refused. */
  method AddLoop(near: seq<Edge>, local0: set<Edge>, degree0: seq<nat>)
    returns (local: set<Edge>, degree: seq<nat>, took: bool)
    requires DegreesOf(local0, degree0) && Candidates(|degree0|, near)
    ensures OneMore(near, local0, degree0, local, degree) && |local| <= |local0| + (if took then 1 else 0)
    ensures (forall e | e in near :: e.a != e.b) ==> LoopTried(near, local0, local, degree)
                                                     && |local| == |local0| + (if took then 1 else 0)
    ensures if took then exists j: nat :: FirstFree(near, local0, j) && (near[j].a != near[j].b ==>
                                                                           local == local0 + {near[j]})
            else local == local0 && forall j: nat :: !FirstFree(near, local0, j)
  {
    for j := 0 to Tried(near)
      invariant forall i | 0 <= i < j :: !IsFree(local0, near[i])
      invariant forall i | 0 <= i < j :: near[i] in near && Refused(local0, degree0, near[i])
    {
      var e := near[j];
      assert e in near;
      if e !in local0 && degree0[e.a] < MAX_DEGREE && degree0[e.b] < MAX_DEGREE {
        took := true;
        assert FirstFree(near, local0, j);
        local, degree := TakeLoop(near, j, local0, degree0);
        return;
      }
    }
    local, degree, took := local0, degree0, false;
  }

  /** At most one loop per top voltage bus, `cap` in all. With room left below the
      target and the cap, every bus got one or had all its candidates refused. */
  method AddLoops(near: seq<seq<Edge>>, cap: nat, target: nat, local0: set<Edge>, degree0: seq<nat>)
    returns (local: set<Edge>, degree: seq<nat>, ghost run: seq<set<Edge>>)
    requires DegreesOf(local0, degree0) && (forall h | 0 <= h < |near| :: Candidates(|degree0|, near[h]))
    ensures Grown(local0, local, AllNear(near), target) && |degree| == |degree0| && DegreesOf(local, degree)
    ensures Capped(degree, degree0) && |local| <= |local0| + cap
    ensures Proper(near) && |local| < target && |local| < |local0| + cap ==> forall h | 0 <= h < |near| ::
                LoopTried(near[h], local0, local, degree)
    ensures |run| == |near| + 1 && run[0] == local0 && run[|near|] == local
    ensures Proper(near) ==> forall h: nat | h < |near| :: LoopStep(near, cap, target, run, h)
  {
    local, degree, run := local0, degree0, [local0];
    var added := 0;
    for h := 0 to |near|
      invariant |run| == h + 1 && run[0] == local0 && run[h] == local && LoopRun(near, cap, target, run, h)
      invariant Grown(local0, local, AllNear(near), target) && |degree| == |degree0| && DegreesOf(local, degree)
      invariant Capped(degree, degree0) && |local| <= |local0| + added && added <= cap
      invariant Proper(near) ==> |local| == |local0| + added
      invariant Proper(near) ==> |local| >= target || added >= cap || forall g | 0 <= g < h ::
                                   LoopTried(near[g], local0, local, degree)
    {
      ghost var was, wasDegree := local, degree;
      var took := false;
      ghost var open := added < cap && |local| < target;
      if added < cap && |local| < target {
        local, degree, took := AddLoop(near[h], local, degree);
        LoopKeeps(near, h, local0, was, wasDegree, local, degree);
      }
      LoopRunMore(near, cap, target, run, added, local, h, open, took);
      if took {
        added := added + 1;
      }
      run := run + [local];
    }
  }

  /** The first `h` buses have had their turn. */
  ghost predicate LoopRun(near: seq<seq<Edge>>, cap: nat, target: nat, run: seq<set<Edge>>, h: nat) {
    Proper(near) ==> forall g: nat | g < h :: LoopStep(near, cap, target, run, g)
  }

  lemma LoopRunMore(near: seq<seq<Edge>>, cap: nat, target: nat, run: seq<set<Edge>>, added: nat, local: set<Edge>,
                    h: nat, open: bool, took: bool)
    requires |run| == h + 1 && h < |near| && LoopRun(near, cap, target, run, h)
    requires Proper(near) ==> |run[h]| == |run[0]| + added
    requires open <==> added < cap && |run[h]| < target
    requires !open ==> local == run[h]
    requires open ==> if took then exists j: nat :: FirstFree(near[h], run[h], j)
                                                    && (near[h][j].a != near[h][j].b ==>
                                                          local == run[h] + {near[h][j]})
               else local == run[h] && forall j: nat :: !FirstFree(near[h], run[h], j)
    ensures LoopRun(near, cap, target, run + [local], h + 1)
  {
    var more := run + [local];
    if Proper(near) {
      LoopStepsKept(near, cap, target, run, local, h);
      assert more[h] == run[h] && more[h + 1] == local && more[0] == run[0];
      assert LoopStep(near, cap, target, more, h);
    }
  }

  lemma LoopStepsKept(near: seq<seq<Edge>>, cap: nat, target: nat, run: seq<set<Edge>>, next: set<Edge>, h: nat)
    requires |run| == h + 1 && h < |near|
    ensures forall g: nat | g < h && LoopStep(near, cap, target, run, g) :: LoopStep(near, cap, target, run + [next], g)
  {
    forall g: nat | g < h && LoopStep(near, cap, target, run, g)
      ensures LoopStep(near, cap, target, run + [next], g)
    {
      var more := run + [next];
      assert more[g] == run[g] && more[g + 1] == run[g + 1] && more[0] == run[0];
    }
  }

  lemma LoopKeeps(near: seq<seq<Edge>>, h: nat, local0: set<Edge>, was: set<Edge>, wasDegree: seq<nat>,
                  local: set<Edge>, degree: seq<nat>)
    requires h < |near| && |degree| == |wasDegree| && (forall g | 0 <= g < |near| :: Candidates(|degree|, near[g]))
    requires local0 <= was <= local0 + AllNear(near) && was <= local <= was + All(near[h])
    requires forall i | 0 <= i < |degree| :: wasDegree[i] <= degree[i]
    ensures local0 <= local <= local0 + AllNear(near)
    ensures (forall g | 0 <= g < h :: LoopTried(near[g], local0, was, wasDegree))
            && LoopTried(near[h], was, local, degree)
            ==> forall g | 0 <= g < h + 1 :: LoopTried(near[g], local0, local, degree)
  {
    assert forall e | e in near[h] :: e in AllNear(near);
    if (forall g | 0 <= g < h :: LoopTried(near[g], local0, was, wasDegree)) && LoopTried(near[h], was, local, degree) {
      forall g | 0 <= g < h + 1
        ensures LoopTried(near[g], local0, local, degree)
      {
        if g < h {
          LoopStillTried(near[g], local0, was, wasDegree, local, degree);
        }
      }
    }
  }

  /** How an island is wired: a spanning forest of the triangulation, the second
      tree, mesh and loops, and the repair. */
  datatype Wiring = Wiring(forest: set<Edge>, trees: set<Edge>, meshed: set<Edge>, looped: set<Edge>,
                           treeDegree: seq<nat>, meshDegree: seq<nat>, loopDegree: seq<nat>, chosen: seq<nat>,
                           treeRun: seq<set<Edge>>, meshRun: seq<set<Edge>>, loopRun: seq<set<Edge>>)

  /** The forest is a lightest one, and second tree, mesh and loops take their
      candidates in order, one step each. */
  ghost predicate WiredInOrder(tri: seq<Edge>, weight: seq<real>, hv: seq<Edge>, mesh: seq<Edge>,
                               near: seq<seq<Edge>>, target: nat, cap: nat, w: Wiring)
    requires |tri| == |weight|
  {
    && Indices(tri, w.chosen) && w.forest == Picked(tri, w.chosen)
    && (forall k: nat | k < |tri| :: Spanned(tri, weight, w.chosen, k))
    && |w.treeRun| == |hv| + 1 && w.treeRun[0] == w.forest && w.treeRun[|hv|] == w.trees
    && (forall k: nat | k < |hv| :: TreeStep(hv, target, w.treeRun, k))
    && |w.meshRun| == |mesh| + 1 && w.meshRun[0] == w.trees && w.meshRun[|mesh|] == w.meshed
    && (forall k: nat | k < |mesh| :: MeshStep(mesh, target, w.meshRun, k))
    && |w.loopRun| == |near| + 1 && w.loopRun[0] == w.meshed && w.loopRun[|near|] == w.looped
    && (Proper(near) ==> forall h: nat | h < |near| :: LoopStep(near, cap, target, w.loopRun, h))
  }

  /** The trees: a forest that connects what the triangulation does, and the edges
      of the second tree that were still wanted. */
  ghost predicate TreesOk(n: nat, tri: seq<Edge>, hv: seq<Edge>, target: nat, w: Wiring) {
    && Forest(w.forest) && w.forest <= All(tri)
    && (forall x: nat, y: nat | x < n && y < n :: Connected(w.forest, x, y) <==> Connected(All(tri), x, y))
    && Grown(w.forest, w.trees, All(hv), target) && |w.treeDegree| == n && DegreesOf(w.trees, w.treeDegree)
    && (|w.trees| < target ==> forall e | e in hv :: e.a == e.b || e in w.trees)
  }

  /** The mesh: mesh candidates up to the target, no degree raised past the cap, and
      below the target none left out that was not refused. */
  ghost predicate MeshOk(n: nat, mesh: seq<Edge>, target: nat, w: Wiring)
    requires Candidates(n, mesh)
  {
    && |w.treeDegree| == |w.meshDegree| == n && DegreesOf(w.meshed, w.meshDegree)
    && Grown(w.trees, w.meshed, All(mesh), target) && Capped(w.meshDegree, w.treeDegree)
    && (|w.meshed| < target ==> forall k | 0 <= k < |mesh| :: mesh[k] in mesh
                                                              && Refused(w.meshed, w.meshDegree, mesh[k]))
  }

  /** The loops: at most `cap`, up to the target, no degree raised past the cap. */
  ghost predicate LoopsOk(n: nat, near: seq<seq<Edge>>, target: nat, cap: nat, w: Wiring)
    requires forall h | 0 <= h < |near| :: Candidates(n, near[h])
  {
    && |w.meshDegree| == |w.loopDegree| == n && DegreesOf(w.looped, w.loopDegree)
    && Grown(w.meshed, w.looped, AllNear(near), target) && |w.looped| <= |w.meshed| + cap
    && Capped(w.loopDegree, w.meshDegree)
    && (Proper(near) && |w.looped| < target && |w.looped| < |w.meshed| + cap ==>
          forall h | 0 <= h < |near| :: LoopTried(near[h], w.meshed, w.looped, w.loopDegree))
  }

  /** The repair: one component, by one edge for every extra component. */
  ghost predicate Repaired(n: nat, looped: set<Edge>, local: set<Edge>) {
    looped <= local && OneComponent(n, local) && exists parts :: Parts(n, looped, parts)
                                                                 && |local| == |looped| + parts - 1
  }

  /** Wire one island: trees, mesh, loops, repair. */
  method IslandTopology(dist2: Metric, points: seq<Point>, tri: seq<Edge>, weight: seq<real>, order: seq<nat>,
                        hv: seq<Edge>, mesh: seq<Edge>, near: seq<seq<Edge>>, target: nat, cap: nat)
    returns (local: set<Edge>, ghost w: Wiring, ghost repairs: seq<set<Edge>>)
    requires |points| >= 2 && |tri| == |weight| && WeightOrder(order, weight)
    requires Candidates(|points|, tri) && Candidates(|points|, hv) && Candidates(|points|, mesh)
    requires forall h | 0 <= h < |near| :: Candidates(|points|, near[h])
    ensures Below(local, |points|) && Normal(local)
    ensures TreesOk(|points|, tri, hv, target, w) && MeshOk(|points|, mesh, target, w)
            && LoopsOk(|points|, near, target, cap, w)
    ensures WiredInOrder(tri, weight, hv, mesh, near, target, cap, w)
    ensures Repaired(|points|, w.looped, local)
    ensures |repairs| == |points| && repairs[0] == w.looped && repairs[|points| - 1] == local
    ensures AttachedUpTo(dist2, points, repairs, |points|)
    ensures OneComponent(|points|, All(tri)) ==> local == w.looped
  {
    var n := |points|;
    var chosen := MinimumSpanningForest(n, tri, weight, order);
    var degree: seq<nat>;
    local, degree := AddTree(tri, chosen, n);
    w := Wiring(local, {}, {}, {}, [], [], [], chosen, [], [], []);
    ghost var run;
    assert w.forest <= All(tri);
    local, degree, run := AddHighVoltageTree(hv, target, local, degree);
    w := w.(trees := local, treeDegree := degree, treeRun := run);
    local, degree, run := AddMesh(mesh, target, local, degree);
    w := w.(meshed := local, meshDegree := degree, meshRun := run);
    local, degree, run := AddLoops(near, cap, target, local, degree);
    w := w.(looped := local, loopDegree := degree, loopRun := run);
    local, degree, repairs := Repair(dist2, points, local, degree);
    if OneComponent(n, All(tri)) {
      NothingToRepair(n, w.forest, w.looped, local);
    }
  }

  /** A triangulation that connects the island leaves nothing to repair, so target
      and degree cap hold of the island as wired. */
  lemma NothingToRepair(n: nat, forest: set<Edge>, looped: set<Edge>, local: set<Edge>)
    requires n > 0 && forest <= looped && OneComponent(n, forest) && Repaired(n, looped, local)
    ensures local == looped
  {
    var parts :| Parts(n, looped, parts) && |local| == |looped| + parts - 1;
    var rep: Roots :| |rep| == n && Canonical(rep) && Tracks(rep, looped) && parts == |RootSet(rep)|;
    forall x: nat | x < n
      ensures rep[x] == rep[0]
    {
      Monotone(forest, looped, x, 0);
    }
    JoinedOneRoot(rep, rep[0]);
    SameSize(looped, local);
  }

  lemma SameSize(a: set<Edge>, b: set<Edge>)
    requires a <= b && |a| == |b|
    ensures a == b
  {
    assert b == a + (b - a);
    assert |b| == |a| + |b - a|;
  }

  // ------------------------------------------------------------ the hierarchical design

  /** All members share a set. */
  ghost predicate Together(rep: Roots, members: seq<nat>) {
    forall i, j | 0 <= i < |members| && 0 <= j < |members| :: members[i] < |rep| && members[j] < |rep|
                                                              && rep[members[i]] == rep[members[j]]
  }

  /** No set of `rep` is split in `next`. */
  ghost predicate Coarser(rep: Roots, next: Roots) {
    |rep| == |next| && forall x: nat, y: nat | x < |rep| && y < |rep| && rep[x] == rep[y] :: next[x] == next[y]
  }

  /** Edges added since join members of one island. */
  ghost predicate OnlyWithin(edges0: set<Edge>, edges: set<Edge>, members: seq<nat>) {
    edges0 <= edges && forall e | e in edges && e !in edges0 :: e.a in members && e.b in members
  }

  /** Member `p` is stray, member `q` one of the main component. */
  ghost predicate StrayPair(rep: Roots, members: seq<nat>, main: nat, p: nat, q: nat) {
    && p < |members| && q < |members| && members[p] < |rep| && members[q] < |rep|
    && rep[members[p]] != main && rep[members[q]] == main
  }

  /** Distance of the members at positions `p` and `q`. */
  function Apart(dist: Metric, points: seq<Point>, members: seq<nat>, p: nat, q: nat): real
    requires (forall k | 0 <= k < |members| :: members[k] < |points|) && p < |members| && q < |members|
  {
    dist(points[members[p]], points[members[q]])
  }

  /** Pairs in the order they are looked at. */
  predicate Earlier(p: nat, q: nat, i: nat, j: nat) {
    p < i || (p == i && q < j)
  }

  /** Pair `best` is closer than `(p, q)`, or as close and not later. */
  ghost predicate Preferred(dist: Metric, points: seq<Point>, members: seq<nat>, best: (nat, nat), p: nat, q: nat)
    requires (forall k | 0 <= k < |members| :: members[k] < |points|) && p < |members| && q < |members|
    requires best.0 < |members| && best.1 < |members|
  {
    var (x, y) := (Apart(dist, points, members, best.0, best.1), Apart(dist, points, members, p, q));
    x < y || (x == y && !Earlier(p, q, best.0, best.1))
  }

  /** `best` is the first closest pair, by position, of a stray and a main member
      among the pairs before `(i, j)`. */
  ghost predicate ClosestPair(dist: Metric, points: seq<Point>, rep: Roots, members: seq<nat>, main: nat, i: nat,
                              j: nat, best: Option<(nat, nat)>)
    requires |points| == |rep| && (forall k | 0 <= k < |members| :: members[k] < |points|)
  {
    && (best.Some? ==> StrayPair(rep, members, main, best.value.0, best.value.1)
                       && Earlier(best.value.0, best.value.1, i, j))
    && (forall p: nat, q: nat | Earlier(p, q, i, j) && StrayPair(rep, members, main, p, q) ::
          best.Some? && Preferred(dist, points, members, best.value, p, q))
  }

  /** Members `i` and `j` are strictly nearer to each other than the best pair so far. */
  predicate Closer(dist: Metric, points: seq<Point>, members: seq<nat>, i: nat, j: nat, best: Option<(nat, nat)>)
    requires i < |members| && j < |members| && (forall k | 0 <= k < |members| :: members[k] < |points|)
    requires best.Some? ==> best.value.0 < |members| && best.value.1 < |members|
  {
    best.None? || Apart(dist, points, members, i, j) < Apart(dist, points, members, best.value.0, best.value.1)
  }

  lemma NextPair(dist: Metric, points: seq<Point>, rep: Roots, members: seq<nat>, main: nat, i: nat, j: nat,
                 best: Option<(nat, nat)>)
    requires |points| == |rep| && (forall k | 0 <= k < |members| :: members[k] < |points|) && i < |members|
             && j < |members|
    requires ClosestPair(dist, points, rep, members, main, i, j, best) && rep[members[i]] != main
    ensures var better := rep[members[j]] == main && Closer(dist, points, members, i, j, best);
            ClosestPair(dist, points, rep, members, main, i, j + 1, if better then Some((i, j)) else best)
  {
    var better := rep[members[j]] == main && Closer(dist, points, members, i, j, best);
    var next := if better then Some((i, j)) else best;
    forall p: nat, q: nat | Earlier(p, q, i, j + 1) && StrayPair(rep, members, main, p, q)
      ensures next.Some? && Preferred(dist, points, members, next.value, p, q)
    {
      if p != i || q != j {
        assert Earlier(p, q, i, j);
        assert Preferred(dist, points, members, best.value, p, q);
      }
    }
  }

  lemma NextRow(dist: Metric, points: seq<Point>, rep: Roots, members: seq<nat>, main: nat, i: nat, j: nat,
                best: Option<(nat, nat)>)
    requires |points| == |rep| && (forall k | 0 <= k < |members| :: members[k] < |points|) && i < |members|
    requires ClosestPair(dist, points, rep, members, main, i, j, best) && (j == |members| || rep[members[i]] == main)
    ensures ClosestPair(dist, points, rep, members, main, i + 1, 0, best)
  {
    forall p: nat, q: nat | Earlier(p, q, i + 1, 0) && StrayPair(rep, members, main, p, q)
      ensures best.Some? && Preferred(dist, points, members, best.value, p, q)
    {
      assert Earlier(p, q, i, j);
    }
  }

  /** The positions of the nearest pair of a stray member and a member of the main
      component, the first of equals, if any stray is left. */
  method NearestStray(uf: Sets, dist: Metric, points: seq<Point>, members: seq<nat>, main: nat)
    returns (best: Option<(nat, nat)>)
    requires uf.Valid() && |points| == |uf.rep| && (forall k | 0 <= k < |members| :: members[k] < |points|)
    modifies uf.parent
    ensures uf.Valid()
    ensures ClosestPair(dist, points, uf.rep, members, main, |members|, 0, best)
  {
    best := None;
    for i := 0 to |members|
      invariant uf.Valid() && ClosestPair(dist, points, uf.rep, members, main, i, 0, best)
    {
      var rs := uf.Find(members[i]);
      if rs != main {
        best := NearestToStray(uf, dist, points, members, main, i, best);
      } else {
        NextRow(dist, points, uf.rep, members, main, i, 0, best);
      }
    }
  }

  /** Compare stray member `i` with every member of the main component. */
  method NearestToStray(uf: Sets, dist: Metric, points: seq<Point>, members: seq<nat>, main: nat, i: nat,
                        best0: Option<(nat, nat)>)
    returns (best: Option<(nat, nat)>)
    requires uf.Valid() && |points| == |uf.rep| && (forall k | 0 <= k < |members| :: members[k] < |points|)
    requires i < |members| && uf.rep[members[i]] != main
    requires ClosestPair(dist, points, uf.rep, members, main, i, 0, best0)
    modifies uf.parent
    ensures uf.Valid() && ClosestPair(dist, points, uf.rep, members, main, i + 1, 0, best)
  {
    best := best0;
    for j := 0 to |members|
      invariant uf.Valid() && ClosestPair(dist, points, uf.rep, members, main, i, j, best)
    {
      var rm := uf.Find(members[j]);
      NextPair(dist, points, uf.rep, members, main, i, j, best);
      if rm == main && Closer(dist, points, members, i, j, best) {
        best := Some((i, j));
      }
    }
    NextRow(dist, points, uf.rep, members, main, i, |members|, best);
  }

  /** No pair: no stray, as long as the main component has a member. */
  lemma NoStrays(dist: Metric, points: seq<Point>, rep: Roots, members: seq<nat>, main: nat, head: nat)
    requires |points| == |rep| && (forall k | 0 <= k < |members| :: members[k] < |points|)
    requires ClosestPair(dist, points, rep, members, main, |members|, 0, None)
    requires head in members && head < |rep| && rep[head] == main
    ensures Together(rep, members)
  {
    var q: nat :| q < |members| && members[q] == head;
    forall p: nat | p < |members|
      ensures rep[members[p]] == main
    {
      assert Earlier(p, q, |members|, 0);
      assert !StrayPair(rep, members, main, p, q);
    }
  }

  /** Member `p` is not connected to the head and member `q` is, and no such pair is
      nearer, nor as near and looked at before. */
  ghost predicate NearestJoin(dist: Metric, points: seq<Point>, members: seq<nat>, head: nat, edges: set<Edge>,
                              p: nat, q: nat)
    requires forall k | 0 <= k < |members| :: members[k] < |points|
  {
    && p < |members| && q < |members| && !Connected(edges, members[p], head) && Connected(edges, members[q], head)
    && forall i: nat, j: nat | i < |members| && j < |members| && !Connected(edges, members[i], head)
                               && Connected(edges, members[j], head) ::
         var x := dist(points[members[p]], points[members[q]]);
         var y := dist(points[members[i]], points[members[j]]);
         x < y || (x == y && (p < i || (p == i && q <= j)))
  }

  /** One more line, over the nearest such pair. */
  ghost predicate JoinStep(dist: Metric, points: seq<Point>, members: seq<nat>, head: nat, edges: set<Edge>,
                           next: set<Edge>)
    requires forall k | 0 <= k < |members| :: members[k] < |points|
  {
    exists p: nat, q: nat :: NearestJoin(dist, points, members, head, edges, p, q)
                             && next == edges + {Link(members[p], members[q])}
  }

  /** Line by line from `run[0]` on. */
  ghost predicate Joining(dist: Metric, points: seq<Point>, members: seq<nat>, head: nat, run: seq<set<Edge>>)
    requires forall k | 0 <= k < |members| :: members[k] < |points|
  {
    |run| > 0 && forall k: nat | k + 1 < |run| :: JoinAt(dist, points, members, head, run, k)
  }

  ghost predicate JoinAt(dist: Metric, points: seq<Point>, members: seq<nat>, head: nat, run: seq<set<Edge>>, k: nat)
    requires (forall k | 0 <= k < |members| :: members[k] < |points|) && k + 1 < |run|
  {
    JoinStep(dist, points, members, head, run[k], run[k + 1])
  }

  lemma JoiningMore(dist: Metric, points: seq<Point>, members: seq<nat>, head: nat, run: seq<set<Edge>>,
                    next: set<Edge>)
    requires (forall k | 0 <= k < |members| :: members[k] < |points|) && Joining(dist, points, members, head, run)
    requires JoinStep(dist, points, members, head, run[|run| - 1], next)
    ensures Joining(dist, points, members, head, run + [next])
  {
    var more := run + [next];
    forall k: nat | k + 1 < |more|
      ensures JoinAt(dist, points, members, head, more, k)
    {
      assert k + 1 < |run| ==> JoinAt(dist, points, members, head, run, k);
    }
  }

  /** The first closest pair of sets is the nearest join. */
  lemma ClosestIsNearest(dist: Metric, points: seq<Point>, rep: Roots, members: seq<nat>, head: nat, edges: set<Edge>,
                         best: (nat, nat))
    requires |points| == |rep| && (forall k | 0 <= k < |members| :: members[k] < |points|) && head in members
    requires Tracks(rep, edges) && ClosestPair(dist, points, rep, members, rep[head], |members|, 0, Some(best))
    ensures NearestJoin(dist, points, members, head, edges, best.0, best.1)
  {
    forall i: nat | i < |members|
      ensures Connected(edges, members[i], head) <==> rep[members[i]] == rep[head]
    {
    }
    forall i: nat, j: nat | i < |members| && j < |members| && !Connected(edges, members[i], head)
                            && Connected(edges, members[j], head)
      ensures Preferred(dist, points, members, best, i, j)
    {
      assert Earlier(i, j, |members|, 0) && StrayPair(rep, members, rep[head], i, j);
    }
  }

  /** Join strays to the main component, nearest pair first. Every round merges
      two sets, so the loop ends, with the island in one set. */
  method JoinIsland(uf: Sets, dist: Metric, points: seq<Point>, members: seq<nat>, head: nat, edges0: set<Edge>)
    returns (edges: set<Edge>, ghost run: seq<set<Edge>>)
    requires uf.Valid() && |points| == |uf.rep| && Tracks(uf.rep, edges0)
    requires (forall k | 0 <= k < |members| :: members[k] < |points|) && head in members
    modifies uf, uf.parent
    ensures uf.Valid() && uf.parent == old(uf.parent) && |uf.rep| == |points|
    ensures Tracks(uf.rep, edges) && Together(uf.rep, members)
    ensures Coarser(old(uf.rep), uf.rep) && OnlyWithin(edges0, edges, members)
    ensures |edges| + |RootSet(uf.rep)| == |edges0| + |RootSet(old(uf.rep))|
    ensures Joining(dist, points, members, head, run) && run[0] == edges0 && run[|run| - 1] == edges
  {
    edges, run := edges0, [edges0];
    while true
      invariant Joining(dist, points, members, head, run) && run[0] == edges0 && run[|run| - 1] == edges
      invariant uf.Valid() && uf.parent == old(uf.parent) && |uf.rep| == |points| && Tracks(uf.rep, edges)
      invariant Coarser(old(uf.rep), uf.rep) && OnlyWithin(edges0, edges, members)
      invariant |edges| + |RootSet(uf.rep)| == |edges0| + |RootSet(old(uf.rep))|
      decreases |RootSet(uf.rep)|
    {
      var main := uf.Find(head);
      var best := NearestStray(uf, dist, points, members, main);
      if best.None? {
        NoStrays(dist, points, uf.rep, members, main, head);
        return;
      }
      var (s, m) := (members[best.value.0], members[best.value.1]);
      ghost var was := uf.rep;
      ClosestIsNearest(dist, points, was, members, head, edges, best.value);
      var _ := uf.Union(s, m);
      MergeTracks(was, uf.rep, edges, s, m);
      MergeLosesRoot(was, uf.rep, s, m);
      CoarserStep(old(uf.rep), was, uf.rep, s, m);
      NewLink(was, edges, s, m);
      JoiningMore(dist, points, members, head, run, edges + {Link(s, m)});
      edges := edges + {Link(s, m)};
      run := run + [edges];
    }
  }

  /** An edge between two sets is not there yet. */
  lemma NewLink(rep: Roots, edges: set<Edge>, s: nat, m: nat)
    requires Tracks(rep, edges) && s < |rep| && m < |rep| && rep[s] != rep[m]
    ensures Link(s, m) !in edges
  {
    if Link(s, m) in edges {
      Adjacent(edges, s, m);
    }
  }

  lemma CoarserStep(first: Roots, rep: Roots, next: Roots, a: nat, b: nat)
    requires Coarser(first, rep) && Merged(rep, next, a, b)
    ensures Coarser(first, next) && Coarser(rep, next)
  {
  }

  ghost predicate InOneIsland(islands: seq<seq<nat>>, e: Edge) {
    exists i :: 0 <= i < |islands| && e.a in islands[i] && e.b in islands[i]
  }

  /** Edges were added inside islands only. */
  ghost predicate AddedWithin(islands: seq<seq<nat>>, edges0: set<Edge>, edges: set<Edge>) {
    edges0 <= edges && forall e | e in edges && e !in edges0 :: InOneIsland(islands, e)
  }

  lemma AddedMore(islands: seq<seq<nat>>, i: nat, edges0: set<Edge>, mid: set<Edge>, edges: set<Edge>)
    requires i < |islands| && AddedWithin(islands, edges0, mid) && OnlyWithin(mid, edges, islands[i])
    ensures AddedWithin(islands, edges0, edges)
  {
    forall e | e in edges && e !in edges0
      ensures InOneIsland(islands, e)
    {
      assert e in mid ==> InOneIsland(islands, e);
    }
  }

  /** The first `n` islands are each in one set. */
  ghost predicate AllTogether(rep: Roots, islands: seq<seq<nat>>, n: nat) {
    n <= |islands| && forall k: nat | k < n :: Together(rep, islands[k])
  }

  lemma TogetherMore(rep: Roots, next: Roots, islands: seq<seq<nat>>, n: nat)
    requires AllTogether(rep, islands, n) && n < |islands| && Coarser(rep, next) && Together(next, islands[n])
    ensures AllTogether(next, islands, n + 1)
  {
    forall k: nat | k < n
      ensures Together(next, islands[k])
    {
      TogetherKept(rep, next, islands[k]);
    }
  }

  lemma TogetherConnected(rep: Roots, edges: set<Edge>, islands: seq<seq<nat>>)
    requires Tracks(rep, edges) && AllTogether(rep, islands, |islands|)
    ensures forall i, x, y | 0 <= i < |islands| && x in islands[i] && y in islands[i] :: Connected(edges, x, y)
  {
    forall i, x, y | 0 <= i < |islands| && x in islands[i] && y in islands[i]
      ensures Connected(edges, x, y)
    {
      assert Together(rep, islands[i]);
    }
  }

  /** The islands are joined one after the other, each line by line. */
  ghost predicate JoinedInTurn(dist: Metric, points: seq<Point>, islands: seq<seq<nat>>, heads: seq<nat>,
                               edges0: set<Edge>, edges: set<Edge>, runs: seq<seq<set<Edge>>>) {
    && |runs| == |islands| == |heads|
    && (forall i: nat | i < |runs| :: JoinedAt(dist, points, islands, heads, edges0, runs, i))
    && edges == if runs == [] then edges0 else Last(runs[|runs| - 1], edges0)
  }

  ghost predicate JoinedAt(dist: Metric, points: seq<Point>, islands: seq<seq<nat>>, heads: seq<nat>,
                           edges0: set<Edge>, runs: seq<seq<set<Edge>>>, i: nat) {
    && i < |runs| && i < |islands| && i < |heads|
    && (forall k | 0 <= k < |islands[i]| :: islands[i][k] < |points|)
    && Joining(dist, points, islands[i], heads[i], runs[i])
    && runs[i][0] == if i == 0 then edges0 else Last(runs[i - 1], edges0)
  }

  ghost function Last(run: seq<set<Edge>>, none: set<Edge>): set<Edge> {
    if run == [] then none else run[|run| - 1]
  }

  lemma InTurnMore(dist: Metric, points: seq<Point>, islands: seq<seq<nat>>, heads: seq<nat>, edges0: set<Edge>,
                   mid: set<Edge>, runs: seq<seq<set<Edge>>>, run: seq<set<Edge>>, n: nat)
    requires n < |islands| == |heads| && JoinedInTurn(dist, points, islands[..n], heads[..n], edges0, mid, runs)
    requires (forall k | 0 <= k < |islands[n]| :: islands[n][k] < |points|)
             && Joining(dist, points, islands[n], heads[n], run) && run[0] == mid
    ensures JoinedInTurn(dist, points, islands[..n + 1], heads[..n + 1], edges0, run[|run| - 1], runs + [run])
  {
    var more, isl, hs := runs + [run], islands[..n + 1], heads[..n + 1];
    forall i: nat | i < |more|
      ensures JoinedAt(dist, points, isl, hs, edges0, more, i)
    {
      if i < |runs| {
        assert JoinedAt(dist, points, islands[..n], heads[..n], edges0, runs, i);
        assert islands[..n][i] == isl[i] && heads[..n][i] == hs[i];
      }
    }
  }

  /** Every island of a hierarchical network ends in one component, by edges
      that stay inside islands, each joining two components. `heads[i]` is a
      top-level bus of island `i`. */
  method JoinIslands(dist: Metric, points: seq<Point>, islands: seq<seq<nat>>, heads: seq<nat>, edges0: set<Edge>)
    returns (edges: set<Edge>, ghost runs: seq<seq<set<Edge>>>)
    requires Below(edges0, |points|) && Normal(edges0) && |heads| == |islands|
    requires forall i | 0 <= i < |islands| :: heads[i] in islands[i]
                                              && (forall k | 0 <= k < |islands[i]| :: islands[i][k] < |points|)
    ensures AddedWithin(islands, edges0, edges)
    ensures forall i, x, y | 0 <= i < |islands| && x in islands[i] && y in islands[i] :: Connected(edges, x, y)
    ensures exists before, after :: Parts(|points|, edges0, before) && Parts(|points|, edges, after)
                                    && |edges| + after == |edges0| + before
    ensures JoinedInTurn(dist, points, islands, heads, edges0, edges, runs)
  {
    var uf := SetsOf(|points|, edges0);
    edges, runs := edges0, [];
    ghost var before := |RootSet(uf.rep)|;
    assert Parts(|points|, edges0, before);
    for i := 0 to |islands|
      invariant uf.Valid() && fresh(uf) && fresh(uf.parent) && |uf.rep| == |points| && Tracks(uf.rep, edges)
      invariant AddedWithin(islands, edges0, edges) && AllTogether(uf.rep, islands, i)
      invariant |edges| + |RootSet(uf.rep)| == |edges0| + before
      invariant JoinedInTurn(dist, points, islands[..i], heads[..i], edges0, edges, runs)
    {
      ghost var was, mid := uf.rep, edges;
      ghost var run;
      edges, run := JoinIsland(uf, dist, points, islands[i], heads[i], edges);
      InTurnMore(dist, points, islands, heads, edges0, mid, runs, run, i);
      runs := runs + [run];
      AddedMore(islands, i, edges0, mid, edges);
      TogetherMore(was, uf.rep, islands, i);
    }
    assert islands[..|islands|] == islands && heads[..|islands|] == heads;
    TogetherConnected(uf.rep, edges, islands);
    assert Parts(|points|, edges, |RootSet(uf.rep)|);
  }

  lemma TogetherKept(rep: Roots, next: Roots, members: seq<nat>)
    requires Coarser(rep, next) && Together(rep, members)
    ensures Together(next, members)
  {
  }
}
