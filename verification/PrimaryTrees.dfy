/**
 The radial primary of the benchmark feeders: growing it bus by bus, and the
 distance between two of its buses, walked up to where their ways meet.
 */
module PrimaryTrees {
  import opened Options
  import opened ShortestPaths

  /** Primary buses by index. A bus without a parent hangs from the source bus. */
  datatype Tree = Tree(parent: seq<Option<nat>>, depth: seq<nat>, length: seq<real>, feeder: seq<nat>,
                       position: seq<nat>, members: seq<seq<nat>>) {
    ghost predicate Valid() {
      |parent| == |depth| == |length| == |feeder| && forall i | 0 <= i < |parent| :: BusAt(i)
    }

    ghost predicate BusAt(i: nat)
      requires i < |parent| == |depth| == |length| == |feeder|
    {
      match parent[i]
      case None => depth[i] == 1
      case Some(p) => p < i && depth[i] == depth[p] + 1 && feeder[i] == feeder[p]
    }

    /** The node of the source bus, after all primary buses. */
    function Source(): nat { |parent| }

    ghost predicate Node(i: nat) { i <= |parent| }

    ghost function Depth(i: nat): nat
      requires Valid() && Node(i)
    {
      if i == Source() then 0 else depth[i]
    }

    ghost function Up(i: nat): (u: nat)
      requires Valid() && i < |parent|
      ensures Node(u) && Depth(i) == Depth(u) + 1
    {
      assert BusAt(i);
      match parent[i] case None => Source() case Some(p) => p
    }

    /** The lines of the primary as a graph whose last node is the source bus. */
    ghost function Network(): Graph
      requires Valid()
    {
      Graph(|parent| + 1, seq(|parent|, i requires 0 <= i < |parent| => Arc(i, Up(i), length[i])))
    }
  }

  // ------------------------------------------------------------ growing

  /** The buses of every feeder, in creation order: `position` finds a bus in its group. */
  ghost predicate Grouped(t: Tree, groups: seq<seq<nat>>) {
    && |t.position| == |t.feeder|
    && (forall u | 0 <= u < |t.feeder| :: AtHome(t, groups, u))
    && (forall f, k | 0 <= f < |groups| && 0 <= k < |groups[f]| ::
          groups[f][k] < |t.feeder| && t.feeder[groups[f][k]] == f)
  }

  ghost predicate AtHome(t: Tree, groups: seq<seq<nat>>, u: nat)
    requires u < |t.feeder| == |t.position|
  {
    && t.feeder[u] < |groups| && t.position[u] < |groups[t.feeder[u]]|
    && groups[t.feeder[u]][t.position[u]] == u
  }

  /** A bus is added below `parent`, or below the source bus. */
  function Grow(t: Tree, parent: Option<nat>, feeder: nat, k: nat, length: real): Tree
    requires parent.Some? ==> parent.value < |t.depth|
  {
    Tree(t.parent + [parent], t.depth + [if parent.None? then 1 else t.depth[parent.value] + 1], t.length + [length],
         t.feeder + [feeder], t.position + [k], t.members)
  }

  lemma GrowKeepsValid(t: Tree, parent: Option<nat>, feeder: nat, k: nat, length: real)
    requires t.Valid() && (parent.Some? ==> parent.value < |t.parent| && t.feeder[parent.value] == feeder)
    ensures Grow(t, parent, feeder, k, length).Valid()
  {
    var g := Grow(t, parent, feeder, k, length);
    forall i | 0 <= i < |g.parent|
      ensures g.BusAt(i)
    {
      if i < |t.parent| {
        assert t.BusAt(i);
      }
    }
  }

  /** The new bus joins the last group at its end. */
  lemma GrowKeepsGroups(t: Tree, groups: seq<seq<nat>>, parent: Option<nat>, length: real)
    requires t.Valid() && Grouped(t, groups) && |groups| > 0 && (parent.Some? ==> parent.value < |t.depth|)
    ensures var f := |groups| - 1;
            Grouped(Grow(t, parent, f, |groups[f]|, length), groups[f := groups[f] + [|t.parent|]])
  {
    var f := |groups| - 1;
    var g, more := Grow(t, parent, f, |groups[f]|, length), groups[f := groups[f] + [|t.parent|]];
    forall u | 0 <= u < |g.feeder|
      ensures AtHome(g, more, u)
    {
      if u < |t.feeder| {
        assert AtHome(t, groups, u);
      }
    }
  }

  /** Every feeder hangs from the source bus by one bus of its own. */
  ghost predicate RootsApart(t: Tree) {
    |t.parent| == |t.feeder| && forall i, j | 0 <= i < j < |t.parent| && t.parent[i].None? && t.parent[j].None? ::
      t.feeder[i] != t.feeder[j]
  }

  /** A bus below the source bus opens its group. */
  lemma GrowKeepsRoots(t: Tree, groups: seq<seq<nat>>, parent: Option<nat>, length: real)
    requires t.Valid() && Grouped(t, groups) && RootsApart(t) && |groups| > 0
             && (parent.Some? ==> parent.value < |t.depth|)
    requires parent.None? ==> groups[|groups| - 1] == []
    ensures RootsApart(Grow(t, parent, |groups| - 1, |groups[|groups| - 1]|, length))
  {
    forall i | 0 <= i < |t.parent| && parent.None?
      ensures t.feeder[i] != |groups| - 1
    {
      assert AtHome(t, groups, i);
    }
  }

  lemma NewGroup(t: Tree, groups: seq<seq<nat>>)
    requires Grouped(t, groups)
    ensures Grouped(t, groups + [[]])
  {
    forall u | 0 <= u < |t.feeder|
      ensures AtHome(t, groups + [[]], u)
    {
      assert AtHome(t, groups, u);
    }
  }

  // ------------------------------------------------------------ the way between two buses

  ghost function Hops(p: Path): nat {
    if p.At? then 0 else Hops(p.prefix) + 1
  }

  /** The one line from a bus to its parent. */
  ghost function Rise(t: Tree, a: nat): (p: Path)
    requires t.Valid() && a < |t.parent|
    ensures p.Start() == a && p.v == t.Up(a) && Hops(p) == 1 && p.Cost() == t.length[a]
  {
    var here := At(a);
    assert here.Start() == a && Hops(here) == 0 && here.Cost() == 0.0;
    Hop(here, t.length[a], t.Up(a))
  }

  /** The way from `a` to `b`: up from the deeper end until both ends meet. */
  ghost function Way(t: Tree, a: nat, b: nat): (p: Path)
    requires t.Valid() && t.Node(a) && t.Node(b)
    ensures p.Start() == a && p.v == b
    decreases t.Depth(a) + t.Depth(b)
  {
    if a == b then At(a)
    else if t.Depth(a) > t.Depth(b) then Append(Rise(t, a), Way(t, t.Up(a), b))
    else if t.Depth(b) > t.Depth(a) then Hop(Way(t, a, t.Up(b)), t.length[b], b)
    else
      OnlyRoot(t, a, b);
      Append(Rise(t, a), Hop(Way(t, t.Up(a), t.Up(b)), t.length[b], b))
  }

  /** Only the source bus has depth zero. */
  lemma OnlyRoot(t: Tree, a: nat, b: nat)
    requires t.Valid() && t.Node(a) && t.Node(b) && a != b && t.Depth(a) == t.Depth(b)
    ensures a < |t.parent| && b < |t.parent|
  {
    if a < |t.parent| {
      assert t.BusAt(a);
    }
    if b < |t.parent| {
      assert t.BusAt(b);
    }
  }

  lemma {:induction false} AppendHops(p: Path, q: Path)
    requires p.v == q.Start()
    ensures Hops(Append(p, q)) == Hops(p) + Hops(q)
  {
    if q.Hop? {
      AppendHops(p, q.prefix);
    }
  }

  /** What the way between two buses measures. */
  ghost function Lines(t: Tree, a: nat, b: nat): nat
    requires t.Valid() && t.Node(a) && t.Node(b)
  {
    Hops(Way(t, a, b))
  }

  ghost function Metres(t: Tree, a: nat, b: nat): real
    requires t.Valid() && t.Node(a) && t.Node(b)
  {
    Way(t, a, b).Cost()
  }

  // ------------------------------------------------------------ measuring

  lemma Same(t: Tree, a: nat)
    requires t.Valid() && t.Node(a)
    ensures Lines(t, a, a) == 0 && Metres(t, a, a) == 0.0
  {
  }

  lemma FirstDeeper(t: Tree, a: nat, b: nat)
    requires t.Valid() && t.Node(a) && t.Node(b) && t.Depth(a) > t.Depth(b)
    ensures a < |t.parent|
    ensures Lines(t, a, b) == Lines(t, t.Up(a), b) + 1 && Metres(t, a, b) == Metres(t, t.Up(a), b) + t.length[a]
  {
    var first := Rise(t, a);
    AppendHops(first, Way(t, t.Up(a), b));
  }

  lemma SecondDeeper(t: Tree, a: nat, b: nat)
    requires t.Valid() && t.Node(a) && t.Node(b) && t.Depth(b) > t.Depth(a)
    ensures b < |t.parent|
    ensures Lines(t, a, b) == Lines(t, a, t.Up(b)) + 1 && Metres(t, a, b) == Metres(t, a, t.Up(b)) + t.length[b]
  {
  }

  lemma EquallyDeep(t: Tree, a: nat, b: nat)
    requires t.Valid() && t.Node(a) && t.Node(b) && a != b && t.Depth(a) == t.Depth(b)
    ensures a < |t.parent| && b < |t.parent|
    ensures Lines(t, a, b) == Lines(t, t.Up(a), t.Up(b)) + 2
    ensures Metres(t, a, b) == Metres(t, t.Up(a), t.Up(b)) + t.length[a] + t.length[b]
  {
    OnlyRoot(t, a, b);
    var first, last := Rise(t, a), Hop(Way(t, t.Up(a), t.Up(b)), t.length[b], b);
    AppendHops(first, last);
  }

  /** Tree distance between two primary buses, in lines and metres. No bus whose
      parent is taken lacks one. */
  method Distance(t: Tree, a0: nat, b0: nat) returns (hops: nat, metres: real)
    requires t.Valid() && a0 < |t.parent| && b0 < |t.parent|
    ensures hops == Lines(t, a0, b0) && metres == Metres(t, a0, b0)
  {
    var a: nat, b: nat := a0, b0;
    hops, metres := 0, 0.0;
    while t.depth[a] > t.depth[b]
      invariant a < |t.parent|
      invariant hops + Lines(t, a, b) == Lines(t, a0, b0) && metres + Metres(t, a, b) == Metres(t, a0, b0)
      decreases t.depth[a]
    {
      FirstDeeper(t, a, b);
      assert t.BusAt(a) && t.BusAt(b);
      metres := metres + t.length[a];
      a := t.parent[a].value;
      hops := hops + 1;
    }
    while t.depth[b] > t.depth[a]
      invariant b < |t.parent|
      invariant t.depth[b] >= t.depth[a]
      invariant hops + Lines(t, a, b) == Lines(t, a0, b0) && metres + Metres(t, a, b) == Metres(t, a0, b0)
      decreases t.depth[b]
    {
      SecondDeeper(t, a, b);
      assert t.BusAt(a) && t.BusAt(b);
      metres := metres + t.length[b];
      b := t.parent[b].value;
      hops := hops + 1;
    }
    while a != b
      invariant a < |t.parent| && b < |t.parent| && t.depth[a] == t.depth[b]
      invariant hops + Lines(t, a, b) == Lines(t, a0, b0) && metres + Metres(t, a, b) == Metres(t, a0, b0)
      decreases t.depth[a]
    {
      EquallyDeep(t, a, b);
      assert t.BusAt(a) && t.BusAt(b);
      metres := metres + (t.length[a] + t.length[b]);
      hops := hops + 2;
      if t.parent[a].Some? && t.parent[b].Some? {
        a, b := t.parent[a].value, t.parent[b].value;
      } else {
        Same(t, t.Source());
        return;
      }
    }
    Same(t, a);
  }

  // ------------------------------------------------------------ what it means

  /** The way is a walk along the lines. */
  lemma {:induction false} WayIsPath(t: Tree, a: nat, b: nat)
    requires t.Valid() && t.Node(a) && t.Node(b)
    ensures IsPath(t.Network(), Way(t, a, b))
    decreases t.Depth(a) + t.Depth(b)
  {
    var g := t.Network();
    assert forall i | 0 <= i < |t.parent| :: g.arcs[i] in g.arcs;
    if a == b {
    } else if t.Depth(a) > t.Depth(b) {
      WayIsPath(t, t.Up(a), b);
      FirstLine(t, a);
      AppendIsPath(g, Rise(t, a), Way(t, t.Up(a), b));
    } else if t.Depth(b) > t.Depth(a) {
      WayIsPath(t, a, t.Up(b));
      FirstLine(t, b);
    } else {
      OnlyRoot(t, a, b);
      WayIsPath(t, t.Up(a), t.Up(b));
      FirstLine(t, a);
      FirstLine(t, b);
      AppendIsPath(g, Rise(t, a), Hop(Way(t, t.Up(a), t.Up(b)), t.length[b], b));
    }
  }

  lemma FirstLine(t: Tree, a: nat)
    requires t.Valid() && a < |t.parent|
    ensures t.Network().HasArc(a, t.Up(a), t.length[a])
    ensures IsPath(t.Network(), Rise(t, a))
  {
    assert t.Network().arcs[a] == Arc(a, t.Up(a), t.length[a]);
    var p := Rise(t, a);
    assert IsPath(t.Network(), p.prefix);
  }

  /** One line changes the distance from `a` by exactly that line, one way or the other. */
  lemma {:induction false} OneLine(t: Tree, a: nat, x: nat)
    requires t.Valid() && t.Node(a) && x < |t.parent|
    ensures || (Lines(t, a, x) == Lines(t, a, t.Up(x)) + 1 && Metres(t, a, x) == Metres(t, a, t.Up(x)) + t.length[x])
            || (Lines(t, a, t.Up(x)) == Lines(t, a, x) + 1 && Metres(t, a, t.Up(x)) == Metres(t, a, x) + t.length[x])
    decreases t.Depth(a)
  {
    var u := t.Up(x);
    if t.Depth(a) > t.Depth(x) {
      FirstDeeper(t, a, x);
      FirstDeeper(t, a, u);
      OneLine(t, t.Up(a), x);
    } else if t.Depth(a) < t.Depth(x) {
      SecondDeeper(t, a, x);
    } else if a == x {
      Same(t, a);
      FirstDeeper(t, a, u);
      Same(t, u);
    } else {
      EquallyDeep(t, a, x);
      FirstDeeper(t, a, u);
    }
  }

  /** A step of a walk along the lines. */
  lemma LineOfArc(t: Tree, u: nat, v: nat, w: real) returns (x: nat)
    requires t.Valid() && t.Network().HasArc(u, v, w)
    ensures x < |t.parent| && w == t.length[x] && ((u == x && v == t.Up(x)) || (v == x && u == t.Up(x)))
  {
    var g := t.Network();
    x :| 0 <= x < |g.arcs| && (g.arcs[x] == Arc(u, v, w) || g.arcs[x] == Arc(v, u, w));
  }

  lemma AppendAt(p: Path)
    ensures Append(p, At(p.v)) == p
  {
    assert At(p.v).Start() == p.v;
  }

  lemma AppendHop(p: Path, q: Path, w: real, v: nat)
    requires p.v == q.Start()
    ensures Hop(q, w, v).Start() == p.v && Append(p, Hop(q, w, v)) == Hop(Append(p, q), w, v)
  {
    assert Hop(q, w, v).Start() == q.Start();
  }

  /** Of the ways to the two ends of a line, one is the other and that line. */
  ghost predicate OneExtends(t: Tree, a: nat, x: nat)
    requires t.Valid() && t.Node(a) && x < |t.parent|
  {
    || Way(t, a, x) == Hop(Way(t, a, t.Up(x)), t.length[x], x)
    || Way(t, a, t.Up(x)) == Hop(Way(t, a, x), t.length[x], t.Up(x))
  }

  lemma ExtendsFromAbove(t: Tree, a: nat, x: nat)
    requires t.Valid() && t.Node(a) && x < |t.parent| && t.Depth(a) > t.Depth(x) && a < |t.parent|
             && OneExtends(t, t.Up(a), x)
    ensures OneExtends(t, a, x)
  {
    var u, first := t.Up(x), Rise(t, a);
    assert Way(t, a, x) == Append(first, Way(t, t.Up(a), x));
    assert Way(t, a, u) == Append(first, Way(t, t.Up(a), u));
    AppendHop(first, Way(t, t.Up(a), u), t.length[x], x);
    AppendHop(first, Way(t, t.Up(a), x), t.length[x], u);
  }

  lemma {:induction false} WaysExtend(t: Tree, a: nat, x: nat)
    requires t.Valid() && t.Node(a) && x < |t.parent|
    ensures OneExtends(t, a, x)
    decreases t.Depth(a)
  {
    var u := t.Up(x);
    if t.Depth(a) > t.Depth(x) {
      FirstDeeper(t, a, x);
      WaysExtend(t, t.Up(a), x);
      ExtendsFromAbove(t, a, x);
    } else if a == x {
      assert Way(t, a, u) == Append(Rise(t, a), Way(t, u, u));
      AppendAt(Rise(t, a));
    } else if t.Depth(a) == t.Depth(x) {
      OnlyRoot(t, a, x);
      assert Way(t, a, u) == Append(Rise(t, a), Way(t, t.Up(a), u));
      AppendHop(Rise(t, a), Way(t, t.Up(a), u), t.length[x], x);
    }
  }

  /** Every walk has at least as many lines as the way, and the way is the only
      walk with no more. */
  lemma {:induction false} OnlyWay(t: Tree, p: Path)
    requires t.Valid() && IsPath(t.Network(), p) && t.Node(p.Start())
    ensures Hops(p) >= Lines(t, p.Start(), p.v)
    ensures Hops(p) == Lines(t, p.Start(), p.v) ==> p == Way(t, p.Start(), p.v)
  {
    if p.At? {
      Same(t, p.v);
    } else {
      OnlyWay(t, p.prefix);
      var x := LineOfArc(t, p.prefix.v, p.v, p.w);
      OneLine(t, p.Start(), x);
      WaysExtend(t, p.Start(), x);
    }
  }

  /** With no negative length the way is also the shortest in metres. */
  lemma {:induction false} ShortestWay(t: Tree, p: Path)
    requires t.Valid() && IsPath(t.Network(), p) && t.Node(p.Start())
    requires forall i | 0 <= i < |t.length| :: t.length[i] >= 0.0
    ensures p.Cost() >= Metres(t, p.Start(), p.v)
  {
    if p.At? {
      Same(t, p.v);
    } else {
      ShortestWay(t, p.prefix);
      var x := LineOfArc(t, p.prefix.v, p.v, p.w);
      OneLine(t, p.Start(), x);
    }
  }

  lemma {:induction false} WaySymmetric(t: Tree, a: nat, b: nat)
    requires t.Valid() && t.Node(a) && t.Node(b)
    ensures Lines(t, a, b) == Lines(t, b, a) && Metres(t, a, b) == Metres(t, b, a)
    decreases t.Depth(a) + t.Depth(b)
  {
    if a == b {
    } else if t.Depth(a) > t.Depth(b) {
      FirstDeeper(t, a, b);
      SecondDeeper(t, b, a);
      WaySymmetric(t, t.Up(a), b);
    } else if t.Depth(b) > t.Depth(a) {
      FirstDeeper(t, b, a);
      SecondDeeper(t, a, b);
      WaySymmetric(t, a, t.Up(b));
    } else {
      EquallyDeep(t, a, b);
      EquallyDeep(t, b, a);
      WaySymmetric(t, t.Up(a), t.Up(b));
    }
  }

  ghost predicate Visits(p: Path, v: nat) {
    p.v == v || (p.Hop? && Visits(p.prefix, v))
  }

  /** A walk that avoids the source bus stays in its feeder. */
  lemma {:induction false} WalkInFeeder(t: Tree, p: Path)
    requires t.Valid() && IsPath(t.Network(), p) && !Visits(p, t.Source())
    ensures p.Start() < |t.parent| && p.v < |t.parent| && t.feeder[p.Start()] == t.feeder[p.v]
  {
    if p.Hop? {
      WalkInFeeder(t, p.prefix);
      var x := LineOfArc(t, p.prefix.v, p.v, p.w);
      assert t.BusAt(x);
    }
  }

  lemma {:induction false} FromSource(t: Tree, b: nat)
    requires t.Valid() && t.Node(b)
    ensures Lines(t, t.Source(), b) == t.Depth(b) == Lines(t, b, t.Source())
    decreases t.Depth(b)
  {
    WaySymmetric(t, b, t.Source());
    if b == t.Source() {
      Same(t, b);
    } else {
      assert t.BusAt(b);
      SecondDeeper(t, t.Source(), b);
      FromSource(t, t.Up(b));
    }
  }

  /** Buses of different feeders are joined through the source bus only. */
  lemma {:induction false} AcrossFeeders(t: Tree, a: nat, b: nat)
    requires t.Valid() && a < |t.parent| && b < |t.parent| && t.feeder[a] != t.feeder[b]
    ensures Lines(t, a, b) == t.depth[a] + t.depth[b]
    ensures Metres(t, a, b) == Metres(t, a, t.Source()) + Metres(t, t.Source(), b)
    decreases t.depth[a] + t.depth[b]
  {
    var s := t.Source();
    assert t.BusAt(a) && t.BusAt(b);
    FirstDeeper(t, a, s);
    SecondDeeper(t, s, b);
    FromSource(t, a);
    FromSource(t, b);
    if t.depth[a] > t.depth[b] {
      FirstDeeper(t, a, b);
      AcrossFeeders(t, t.Up(a), b);
    } else if t.depth[b] > t.depth[a] {
      SecondDeeper(t, a, b);
      AcrossFeeders(t, a, t.Up(b));
    } else {
      EquallyDeep(t, a, b);
      if t.parent[a].Some? {
        AcrossFeeders(t, t.Up(a), t.Up(b));
      } else {
        Same(t, s);
      }
    }
  }
}
