/**
 Tap junctions of the pocket trees: sharp bends are replaced by junctions that
 shorten the network, and straight passes by junctions at the fence.
 */
module Taps {
  import opened Options
  import opened Geometry
  import opened Forests
  import opened TapRewrites

  datatype Tuning = Tuning(tapShare: real, minSavingKm: real, atSiteShare: real, spurKm: real, straightShare: real) {
    predicate Valid() {
      minSavingKm >= 0.0 && spurKm >= 0.0
    }
  }

  // ------------------------------------------------------------ network length

  ghost function EdgeLength(dist: Metric, points: seq<Point>, e: Edge): real {
    if e.a < |points| && e.b < |points| then dist(points[e.a], points[e.b]) else 0.0
  }

  /** The length of every edge. */
  ghost function Lengths(dist: Metric, points: seq<Point>): Edge -> real {
    e => EdgeLength(dist, points, e)
  }

  ghost function Length(dist: Metric, points: seq<Point>, edges: set<Edge>): real {
    Weight(Lengths(dist, points), edges)
  }

  lemma LengthWithout(dist: Metric, points: seq<Point>, edges: set<Edge>, e: Edge)
    requires e in edges
    ensures Length(dist, points, edges) == EdgeLength(dist, points, e) + Length(dist, points, edges - {e})
  {
    WeightWithout(Lengths(dist, points), edges, e);
  }

  lemma LengthOfMorePoints(dist: Metric, points: seq<Point>, s: Point, edges: set<Edge>)
    requires Below(edges, |points|)
    ensures Length(dist, points + [s], edges) == Length(dist, points, edges)
  {
    WeightSame(Lengths(dist, points + [s]), Lengths(dist, points), edges);
  }

  lemma LengthWith(dist: Metric, points: seq<Point>, edges: set<Edge>, e: Edge)
    requires e !in edges
    ensures Length(dist, points, edges + {e}) == EdgeLength(dist, points, e) + Length(dist, points, edges)
  {
    LengthWithout(dist, points, edges + {e}, e);
    assert edges + {e} - {e} == edges;
  }

  /** A rewrite trades the two old sections for the three new ones. */
  lemma LengthTapped(dist: Metric, points: seq<Point>, edges: set<Edge>, v: nat, a: nat, b: nat, s: Point)
    requires Euclidean(dist) && Bend(edges, v, a, b, |points|) && Below(edges, |points|)
    ensures v < |points| && a < |points| && b < |points|
    ensures Length(dist, points + [s], Tapped(edges, v, a, b, |points|))
         == Length(dist, points, edges) - dist(points[v], points[a]) - dist(points[v], points[b])
            + dist(s, points[v]) + dist(s, points[a]) + dist(s, points[b])
  {
    var t, more := |points|, points + [s];
    var cut := Cut(edges, v, a, b);
    BendDistinct(edges, v, a, b, t);
    LengthWithout(dist, points, edges, Link(v, a));
    LengthWithout(dist, points, edges - {Link(v, a)}, Link(v, b));
    assert edges - {Link(v, a)} - {Link(v, b)} == cut;
    LengthOfMorePoints(dist, points, s, cut);
    LengthWith(dist, more, cut, Link(t, v));
    LengthWith(dist, more, cut + {Link(t, v)}, Link(t, a));
    LengthWith(dist, more, cut + {Link(t, v)} + {Link(t, a)}, Link(t, b));
    assert cut + {Link(t, v)} + {Link(t, a)} + {Link(t, b)} == Tapped(edges, v, a, b, t);
    DistSymmetric(dist, points[v], points[a]);
    DistSymmetric(dist, points[v], points[b]);
    DistSymmetric(dist, points[v], s);
    DistSymmetric(dist, points[a], s);
    DistSymmetric(dist, points[b], s);
  }

  // ------------------------------------------------------------ adjacency

  function Neighbours(adj: map<nat, set<nat>>, x: nat): set<nat> {
    if x in adj then adj[x] else {}
  }

  ghost predicate AdjOf(edges: set<Edge>, adj: map<nat, set<nat>>) {
    forall x: nat, y: nat :: y in Neighbours(adj, x) <==> Link(x, y) in edges
  }

  function Unlink(adj: map<nat, set<nat>>, x: nat, y: nat): map<nat, set<nat>> {
    var one := adj[x := Neighbours(adj, x) - {y}];
    one[y := Neighbours(one, y) - {x}]
  }

  function Relink(adj: map<nat, set<nat>>, x: nat, y: nat): map<nat, set<nat>> {
    var one := adj[x := Neighbours(adj, x) + {y}];
    one[y := Neighbours(one, y) + {x}]
  }

  lemma UnlinkKeeps(edges: set<Edge>, adj: map<nat, set<nat>>, x: nat, y: nat)
    requires AdjOf(edges, adj)
    ensures AdjOf(edges - {Link(x, y)}, Unlink(adj, x, y))
  {
  }

  lemma RelinkKeeps(edges: set<Edge>, adj: map<nat, set<nat>>, x: nat, y: nat)
    requires AdjOf(edges, adj)
    ensures AdjOf(edges + {Link(x, y)}, Relink(adj, x, y))
  {
  }

  // ------------------------------------------------------------ what every tap keeps

  /** Nodes below `n` are connected as they were. */
  ghost predicate SameComponents(n: nat, edges0: set<Edge>, edges: set<Edge>) {
    forall x: nat, y: nat | x < n && y < n :: Connected(edges, x, y) <==> Connected(edges0, x, y)
  }

  /** Junction `k` has index `n + k` and hangs on the component it was made for. */
  ghost predicate Hung(n: nat, edges: set<Edge>, taps: seq<nat>) {
    forall k: nat | k < |taps| :: taps[k] < n && Connected(edges, taps[k], n + k)
  }

  /** `edges` over `points` is `edges0` over `points0` with one junction per tap. */
  ghost predicate TappedForest(points0: seq<Point>, edges0: set<Edge>, points: seq<Point>, edges: set<Edge>,
                               taps: seq<nat>) {
    && points0 <= points && |points| == |points0| + |taps|
    && Forest(edges) && Below(edges, |points|) && |edges| == |edges0| + |taps|
    && SameComponents(|points0|, edges0, edges) && Hung(|points0|, edges, taps)
  }

  lemma TapKeepsSame(n: nat, edges0: set<Edge>, edges: set<Edge>, v: nat, a: nat, b: nat, t: nat)
    requires Bend(edges, v, a, b, t) && n <= t && SameComponents(n, edges0, edges)
    ensures SameComponents(n, edges0, Tapped(edges, v, a, b, t))
  {
    forall x: nat, y: nat | x < n && y < n
      ensures Connected(Tapped(edges, v, a, b, t), x, y) <==> Connected(edges0, x, y)
    {
      TapKeepsComponents(edges, v, a, b, t, x, y);
    }
  }

  lemma TapKeepsHung(n: nat, edges: set<Edge>, taps: seq<nat>, v: nat, a: nat, b: nat, t: nat)
    requires Bend(edges, v, a, b, t) && v < n && t == n + |taps| && Hung(n, edges, taps)
    ensures Hung(n, Tapped(edges, v, a, b, t), taps + [v])
  {
    forall k: nat | k < |taps + [v]|
      ensures (taps + [v])[k] < n && Connected(Tapped(edges, v, a, b, t), (taps + [v])[k], n + k)
    {
      TapKeepsComponents(edges, v, a, b, t, v, v);
      if k < |taps| {
        TapKeepsComponents(edges, v, a, b, t, taps[k], n + k);
      }
    }
  }

  lemma BendHere(edges: set<Edge>, n: nat, v: nat, a: nat, b: nat)
    requires Forest(edges) && Below(edges, n) && a != b && Link(v, a) in edges && Link(v, b) in edges
    ensures Bend(edges, v, a, b, n) && v < n && a < n && b < n
    ensures Below(Tapped(edges, v, a, b, n), n + 1)
  {
  }

  lemma TapKeepsForestState(points0: seq<Point>, edges0: set<Edge>, points: seq<Point>, edges: set<Edge>,
                            taps: seq<nat>,
                            v: nat, a: nat, b: nat, s: Point)
    requires TappedForest(points0, edges0, points, edges, taps)
    requires v < |points0| && Bend(edges, v, a, b, |points|)
    ensures TappedForest(points0, edges0, points + [s], Tapped(edges, v, a, b, |points|), taps + [v])
  {
    BendHere(edges, |points|, v, a, b);
    TapKeepsForest(edges, v, a, b, |points|);
    TapAddsOneEdge(edges, v, a, b, |points|);
    TapKeepsSame(|points0|, edges0, edges, v, a, b, |points|);
    TapKeepsHung(|points0|, edges, taps, v, a, b, |points|);
  }

  // ------------------------------------------------------------ sharp bends

  /** What replacing the bend `a`-`v`-`b` by a junction at `s` saves. */
  function Saving(dist: Metric, pv: Point, pa: Point, pb: Point, s: Point): real {
    dist(pa, pv) + dist(pb, pv) - (dist(s, pv) + dist(s, pa) + dist(s, pb))
  }

  /** The angle at `v` is below 120 degrees and the saving worth a junction. */
  predicate Sharp(dist: Metric, t: Tuning, pv: Point, pa: Point, pb: Point, s: Point) {
    var la, lb := dist(pa, pv), dist(pb, pv);
    && la > 0.0 && lb > 0.0 && la * lb > 0.0
    && ((pa.x - pv.x) * (pb.x - pv.x) + (pa.y - pv.y) * (pb.y - pv.y)) / (la * lb) > -0.5
    && Saving(dist, pv, pa, pb, s) > t.minSavingKm
  }

  datatype BendChoice = BendChoice(a: nat, b: nat, s: Point)

  /** The neighbour pair at `v` with the largest saving, first found on ties. */
  method BestBend(dist: Metric, fermat: (Point, Point, Point) -> Point, t: Tuning, points: seq<Point>, v: nat,
                  nb: seq<nat>)
    returns (best: Option<BendChoice>)
    requires v < |points| && (forall x | x in nb :: x < |points|)
    requires forall i, j | 0 <= i < j < |nb| :: nb[i] < nb[j]
    ensures best.Some? ==> var c := best.value;
                           c.a in nb && c.b in nb && c.a < c.b && c.s == fermat(points[v], points[c.a], points[c.b])
                           && Sharp(dist, t, points[v], points[c.a], points[c.b], c.s)
    ensures forall i, j | 0 <= i < j < |nb| && SharpPair(dist, fermat, t, points, v, nb[i], nb[j]) ::
              best.Some? && var c := best.value;
                         SavesNoMore(PairSaving(dist, fermat, points, v, nb[i], nb[j]), nb[i], nb[j],
                                     Saving(dist, points[v], points[c.a], points[c.b], c.s), c.a, c.b)
  {
    best := None;
    for i := 0 to |nb|
      invariant PairsDone(dist, fermat, t, points, v, nb, best, i, i + 1)
    {
      for j := i + 1 to |nb|
        invariant PairsDone(dist, fermat, t, points, v, nb, best, i, j)
      {
        best := TryPair(dist, fermat, t, points, v, nb, best, i, j);
      }
      PairsNext(dist, fermat, t, points, v, nb, best, i);
    }
    PairsAll(dist, fermat, t, points, v, nb, best);
  }

  /** Keep the pair at `(i, j)` if it is sharp and saves more than the best so far. */
  method TryPair(dist: Metric, fermat: (Point, Point, Point) -> Point, t: Tuning, points: seq<Point>, v: nat,
                 nb: seq<nat>, best0: Option<BendChoice>, i: nat, j: nat) returns (best: Option<BendChoice>)
    requires v < |points| && (forall x | x in nb :: x < |points|) && i < j < |nb|
    requires forall p, q | 0 <= p < q < |nb| :: nb[p] < nb[q]
    requires PairsDone(dist, fermat, t, points, v, nb, best0, i, j)
    ensures PairsDone(dist, fermat, t, points, v, nb, best, i, j + 1)
  {
    best := best0;
    var a, b := nb[i], nb[j];
    assert a in nb && b in nb;
    var s := fermat(points[v], points[a], points[b]);
    var better := Sharp(dist, t, points[v], points[a], points[b], s)
                  && (best.None? || Saving(dist, points[v], points[a], points[b], s)
                                  > Saving(dist, points[v], points[best.value.a], points[best.value.b], best.value.s));
    PairsMore(dist, fermat, t, points, v, nb, best, i, j, better);
    if better {
      best := Some(BendChoice(a, b, s));
    }
  }

  lemma PairsAll(dist: Metric, fermat: (Point, Point, Point) -> Point, t: Tuning, points: seq<Point>, v: nat,
                 nb: seq<nat>, best: Option<BendChoice>)
    requires v < |points| && (forall x | x in nb :: x < |points|) && (forall i, j | 0 <= i < j < |nb| :: nb[i] < nb[j])
    requires PairsDone(dist, fermat, t, points, v, nb, best, |nb|, |nb| + 1)
    ensures best.Some? ==> var c := best.value;
                           c.a in nb && c.b in nb && c.a < c.b && c.s == fermat(points[v], points[c.a], points[c.b])
                           && Sharp(dist, t, points[v], points[c.a], points[c.b], c.s)
    ensures forall i, j | 0 <= i < j < |nb| && SharpPair(dist, fermat, t, points, v, nb[i], nb[j]) ::
              best.Some? && var c := best.value;
                         SavesNoMore(PairSaving(dist, fermat, points, v, nb[i], nb[j]), nb[i], nb[j],
                                     Saving(dist, points[v], points[c.a], points[c.b], c.s), c.a, c.b)
  {
    var n, m := |nb|, |nb| + 1;
    forall i, j | 0 <= i < j < n
      ensures PairBefore(i, j, n, m)
    {
    }
  }

  /** `best` is a sharp pair of those looked at before `(i, j)`, and none of those saves
      more, nor as much and comes earlier. */
  ghost predicate PairsDone(dist: Metric, fermat: (Point, Point, Point) -> Point, t: Tuning, points: seq<Point>,
                            v: nat, nb: seq<nat>, best: Option<BendChoice>, i: nat, j: nat)
    requires v < |points| && (forall x | x in nb :: x < |points|)
  {
    && (best.Some? ==> var c := best.value;
                       c.s == PairPoint(fermat, points, v, c.a, c.b) && SharpPair(dist, fermat, t, points, v, c.a, c.b)
                       && exists p, q :: 0 <= p < q < |nb| && PairBefore(p, q, i, j) && c.a == nb[p] && c.b == nb[q])
    && (forall p, q | 0 <= p < q < |nb| && PairBefore(p, q, i, j)
                      && SharpPair(dist, fermat, t, points, v, nb[p], nb[q]) ::
          best.Some? && SavesNoMore(PairSaving(dist, fermat, points, v, nb[p], nb[q]), nb[p], nb[q],
                                    PairSaving(dist, fermat, points, v, best.value.a, best.value.b),
                                    best.value.a, best.value.b))
  }

  ghost predicate PairBefore(p: int, q: int, i: int, j: int) {
    p < i || (p == i && q < j)
  }

  ghost function PairPoint(fermat: (Point, Point, Point) -> Point, points: seq<Point>, v: nat, a: nat, b: nat): Point {
    if v < |points| && a < |points| && b < |points| then fermat(points[v], points[a], points[b]) else Point(0.0, 0.0)
  }

  lemma PairsMore(dist: Metric, fermat: (Point, Point, Point) -> Point, t: Tuning, points: seq<Point>, v: nat,
                  nb: seq<nat>, best: Option<BendChoice>, i: nat, j: nat, better: bool)
    requires v < |points| && (forall x | x in nb :: x < |points|) && i < j < |nb|
    requires (forall p, q | 0 <= p < q < |nb| :: nb[p] < nb[q]) && PairsDone(dist, fermat, t, points, v, nb, best, i, j)
    requires better <==> SharpPair(dist, fermat, t, points, v, nb[i], nb[j])
                         && (best.None? || PairSaving(dist, fermat, points, v, nb[i], nb[j])
                                         > PairSaving(dist, fermat, points, v, best.value.a, best.value.b))
    ensures PairsDone(dist, fermat, t, points, v, nb,
                      if better then Some(BendChoice(nb[i], nb[j], PairPoint(fermat, points, v, nb[i], nb[j])))
                      else best, i, j + 1)
  {
    var x := PairSaving(dist, fermat, points, v, nb[i], nb[j]);
    assert PairBefore(i, j, i, j + 1);
    if !better && best.Some? {
      var p, q :| 0 <= p < q < |nb| && PairBefore(p, q, i, j) && best.value.a == nb[p] && best.value.b == nb[q];
      assert PairBefore(p, q, i, j + 1);
      assert SharpPair(dist, fermat, t, points, v, nb[i], nb[j]) ==>
          SavesNoMore(x, nb[i], nb[j], PairSaving(dist, fermat, points, v, nb[p], nb[q]), nb[p], nb[q]);
    }
    forall p, q | 0 <= p < q < |nb| && PairBefore(p, q, i, j + 1) && (p != i || q != j)
      ensures PairBefore(p, q, i, j)
    {
    }
  }

  lemma PairsNext(dist: Metric, fermat: (Point, Point, Point) -> Point, t: Tuning, points: seq<Point>, v: nat,
                  nb: seq<nat>, best: Option<BendChoice>, i: nat)
    requires v < |points| && (forall x | x in nb :: x < |points|) && i < |nb|
    requires PairsDone(dist, fermat, t, points, v, nb, best, i, |nb|)
    ensures PairsDone(dist, fermat, t, points, v, nb, best, i + 1, i + 2)
  {
    forall p, q | 0 <= p < q < |nb|
      ensures PairBefore(p, q, i + 1, i + 2) <==> PairBefore(p, q, i, |nb|)
    {
    }
  }

  /** Pair `(c, d)` saves less than pair `(a, b)`, or as much and comes no earlier. */
  ghost predicate SavesNoMore(x: real, c: nat, d: nat, most: real, a: nat, b: nat) {
    x < most || (x == most && (a < c || (a == c && b <= d)))
  }

  ghost predicate SharpPair(dist: Metric, fermat: (Point, Point, Point) -> Point, t: Tuning, points: seq<Point>,
                            v: nat, a: nat, b: nat) {
    v < |points| && a < |points| && b < |points|
    && Sharp(dist, t, points[v], points[a], points[b], fermat(points[v], points[a], points[b]))
  }

  ghost function PairSaving(dist: Metric, fermat: (Point, Point, Point) -> Point, points: seq<Point>, v: nat, a: nat,
                            b: nat): real {
    if v < |points| && a < |points| && b < |points|
    then Saving(dist, points[v], points[a], points[b], fermat(points[v], points[a], points[b])) else 0.0
  }

  /** The neighbours in ascending order. */
  method Ascending(s: set<nat>) returns (out: seq<nat>)
    ensures forall x :: x in out <==> x in s
    ensures forall i, j | 0 <= i < j < |out| :: out[i] < out[j]
  {
    out := [];
    var left := s;
    while left != {}
      invariant left <= s && (forall x :: x in out <==> x in s && x !in left)
      invariant forall i, j | 0 <= i < j < |out| :: out[i] < out[j]
      invariant forall x, y | x in out && y in left :: x < y
      decreases left
    {
      var m := Least(left);
      assert forall i | 0 <= i < |out| :: out[i] in out;
      out, left := out + [m], left - {m};
    }
  }

  method Least(s: set<nat>) returns (m: nat)
    requires s != {}
    ensures m in s && (forall x | x in s :: m <= x)
  {
    m :| m in s;
    var left := s - {m};
    while left != {}
      invariant left <= s && m in s && (forall x | x in s :: x in left || m <= x)
      decreases left
    {
      var x :| x in left;
      if x < m {
        m := x;
      }
      left := left - {x};
    }
  }

  // ------------------------------------------------------------ junction positions

  lemma ScaledSaving(k: real, before: real, fermat: real)
    requires 0.0 <= k && fermat <= before
    ensures (1.0 - k) * before + k * fermat <= before
  {
    var gain := before - fermat;
    ProductSign(k, gain);
    assert k * gain == k * before - k * fermat;
  }

  /** At the junction itself, or a share `k` of the way to it: never longer. */
  lemma JunctionNeverLonger(dist: Metric, pv: Point, pa: Point, pb: Point, f: Point, k: real, s: Point)
    requires Euclidean(dist) && 0.0 <= k <= 1.0 && Saving(dist, pv, pa, pb, f) >= 0.0
    requires s == f || (s.x == pv.x + k * (f.x - pv.x) && s.y == pv.y + k * (f.y - pv.y))
    ensures dist(s, pv) + dist(s, pa) + dist(s, pb) <= dist(pv, pa) + dist(pv, pb)
  {
    DistSymmetric(dist, pv, pa);
    DistSymmetric(dist, pv, pb);
    if s != f {
      DistConvex(dist, pv, f, k, s, pv);
      DistConvex(dist, pv, f, k, s, pa);
      DistConvex(dist, pv, f, k, s, pb);
      DistSelf(dist, pv);
      ScaledSaving(k, dist(pv, pa) + dist(pv, pb), dist(f, pv) + dist(f, pa) + dist(f, pb));
      MixSums(k, dist(pv, pa), dist(pv, pb), dist(f, pv), dist(f, pa), dist(f, pb));
    }
  }

  lemma MixSums(k: real, a: real, b: real, x: real, y: real, z: real)
    ensures ((1.0 - k) * 0.0 + k * x) + ((1.0 - k) * a + k * y) + ((1.0 - k) * b + k * z)
         == (1.0 - k) * (a + b) + k * (x + y + z)
  {
  }

  /** How far along the way to the junction the fence of `v` is. */
  function SpurShare(dist: Metric, t: Tuning, pv: Point, fermat: Point): real {
    var d := dist(fermat, pv);
    var share := t.spurKm / (if d < 0.000000001 then 0.000000001 else d);
    if share > 1.0 then 1.0 else share
  }

  /** Where the junction goes: at the fence of `v`, or where the sections meet. */
  function Junction(dist: Metric, t: Tuning, pv: Point, fermat: Point, atSite: bool): Point {
    var k := SpurShare(dist, t, pv, fermat);
    if atSite then Point(pv.x + k * (fermat.x - pv.x), pv.y + k * (fermat.y - pv.y)) else fermat
  }

  lemma SpurInside(dist: Metric, t: Tuning, pv: Point, fermat: Point)
    requires t.Valid()
    ensures 0.0 <= SpurShare(dist, t, pv, fermat) <= 1.0
  {
    var d := dist(fermat, pv);
    QuotientSign(t.spurKm, if d < 0.000000001 then 0.000000001 else d);
  }

  lemma QuotientSign(x: real, y: real)
    requires x >= 0.0 && y > 0.0
    ensures x / y >= 0.0
  {
  }

  // ------------------------------------------------------------ the passes

  /** Draws used, and the network with its taps. */
  datatype TapState = TapState(draws: nat, points: seq<Point>, edges: set<Edge>, taps: seq<nat>)

  /** A pair of neighbours of `v` that makes a sharp bend, in ascending order. */
  ghost predicate SharpBend(dist: Metric, fermat: (Point, Point, Point) -> Point, t: Tuning, points: seq<Point>,
                            edges: set<Edge>, v: nat, a: nat, b: nat) {
    a < b && Link(v, a) in edges && Link(v, b) in edges && SharpPair(dist, fermat, t, points, v, a, b)
  }

  /** ... that saves the most of all such pairs. */
  ghost predicate SharpestBend(dist: Metric, fermat: (Point, Point, Point) -> Point, t: Tuning, points: seq<Point>,
                               edges: set<Edge>, v: nat, a: nat, b: nat) {
    && SharpBend(dist, fermat, t, points, edges, v, a, b)
    && forall c: nat, d: nat | SharpBend(dist, fermat, t, points, edges, v, c, d) ::
         SavesNoMore(PairSaving(dist, fermat, points, v, c, d), c, d, PairSaving(dist, fermat, points, v, a, b), a, b)
  }

  /** The tap made at `v` in state `s`, between `a` and `b`. */
  ghost function BendTap(dist: Metric, fermat: (Point, Point, Point) -> Point, t: Tuning, uniform: nat -> real,
                         s: TapState, v: nat, a: nat, b: nat): TapState
    requires v < |s.points| && a < |s.points| && b < |s.points|
  {
    TapWith(s, v, a, b, Junction(dist, t, s.points[v], fermat(s.points[v], s.points[a], s.points[b]),
                                 uniform(s.draws + 1) < t.atSiteShare))
  }

  /** ... with the junction at a given place. */
  ghost function TapWith(s: TapState, v: nat, a: nat, b: nat, at: Point): TapState {
    TapState(s.draws + 2, s.points + [at], Tapped(s.edges, v, a, b, |s.points|), s.taps + [v])
  }

  /** One visit of `v`: without a sharp bend nothing happens, with one a draw
      decides, and a sharpest one is tapped. */
  ghost predicate BendStep(dist: Metric, fermat: (Point, Point, Point) -> Point, t: Tuning, uniform: nat -> real,
                           s: TapState, s': TapState, v: nat) {
    if forall a: nat, b: nat :: !SharpBend(dist, fermat, t, s.points, s.edges, v, a, b) then s' == s
    else if uniform(s.draws) >= t.tapShare then s' == s.(draws := s.draws + 1)
    else exists a: nat, b: nat :: SharpestBend(dist, fermat, t, s.points, s.edges, v, a, b)
                                  && s' == BendTap(dist, fermat, t, uniform, s, v, a, b)
  }

  /** The neighbours' best pair is a sharpest bend; none means there is none. */
  lemma BestIsSharpest(dist: Metric, fermat: (Point, Point, Point) -> Point, t: Tuning, points: seq<Point>,
                       edges: set<Edge>, adj: map<nat, set<nat>>,
                       v: nat, nb: seq<nat>, best: Option<BendChoice>)
    requires AdjOf(edges, adj) && v < |points| && (forall x :: x in nb <==> x in Neighbours(adj, v))
             && (forall x | x in nb :: x < |points|)
    requires forall i, j | 0 <= i < j < |nb| :: nb[i] < nb[j]
    requires best.Some? ==> var c := best.value;
                            c.a in nb && c.b in nb && c.a < c.b && c.s == fermat(points[v], points[c.a], points[c.b])
                            && Sharp(dist, t, points[v], points[c.a], points[c.b], c.s)
    requires forall i, j | 0 <= i < j < |nb| && SharpPair(dist, fermat, t, points, v, nb[i], nb[j]) ::
               best.Some? && var c := best.value;
                          SavesNoMore(PairSaving(dist, fermat, points, v, nb[i], nb[j]), nb[i], nb[j],
                                      Saving(dist, points[v], points[c.a], points[c.b], c.s), c.a, c.b)
    ensures best.Some? ==> SharpestBend(dist, fermat, t, points, edges, v, best.value.a, best.value.b)
    ensures best.None? ==> forall a: nat, b: nat :: !SharpBend(dist, fermat, t, points, edges, v, a, b)
  {
    forall c: nat, d: nat | SharpBend(dist, fermat, t, points, edges, v, c, d)
      ensures best.Some?
      ensures SavesNoMore(PairSaving(dist, fermat, points, v, c, d), c, d,
                          PairSaving(dist, fermat, points, v, best.value.a, best.value.b), best.value.a, best.value.b)
    {
      assert c in nb && d in nb;
      var i :| 0 <= i < |nb| && nb[i] == c;
      var j :| 0 <= j < |nb| && nb[j] == d;
      assert i < j;
    }
  }

  /** A sharpest bend at `v`, if it has a sharp one. */
  method ChooseBend(dist: Metric, fermat: (Point, Point, Point) -> Point, t: Tuning, points: seq<Point>,
                    edges: set<Edge>, adj: map<nat, set<nat>>, v: nat)
    returns (best: Option<BendChoice>)
    requires v < |points| && Below(edges, |points|) && AdjOf(edges, adj)
    ensures best.None? ==> forall a: nat, b: nat :: !SharpBend(dist, fermat, t, points, edges, v, a, b)
    ensures best.Some? ==> var c := best.value;
                           c.a < |points| && c.b < |points| && c.s == fermat(points[v], points[c.a], points[c.b])
                           && SharpestBend(dist, fermat, t, points, edges, v, c.a, c.b)
  {
    var nb := Ascending(Neighbours(adj, v));
    NeighboursBelow(edges, adj, |points|, v);
    best := None;
    if |nb| >= 2 {
      best := BestBend(dist, fermat, t, points, v, nb);
    }
    BestIsSharpest(dist, fermat, t, points, edges, adj, v, nb, best);
  }

  /** `s` is the meeting point `f`, or a share of the way to it from `pv`. */
  ghost predicate OnTheWay(pv: Point, f: Point, s: Point) {
    exists k: real :: ShareOfWay(pv, f, k, s)
  }

  ghost predicate ShareOfWay(pv: Point, f: Point, k: real, s: Point) {
    0.0 <= k <= 1.0 && (s == f || (s.x == pv.x + k * (f.x - pv.x) && s.y == pv.y + k * (f.y - pv.y)))
  }

  lemma JunctionOnTheWay(dist: Metric, t: Tuning, pv: Point, fermat: Point, atSite: bool)
    requires t.Valid()
    ensures OnTheWay(pv, fermat, Junction(dist, t, pv, fermat, atSite))
  {
    SpurInside(dist, t, pv, fermat);
    assert ShareOfWay(pv, fermat, SpurShare(dist, t, pv, fermat), Junction(dist, t, pv, fermat, atSite));
  }

  lemma SharpSaves(dist: Metric, fermat: (Point, Point, Point) -> Point, t: Tuning, points: seq<Point>,
                   edges: set<Edge>, v: nat, a: nat, b: nat)
    requires t.Valid() && SharpBend(dist, fermat, t, points, edges, v, a, b)
    ensures v < |points| && a < |points| && b < |points| && a != b && Link(v, a) in edges && Link(v, b) in edges
    ensures Saving(dist, points[v], points[a], points[b], fermat(points[v], points[a], points[b])) >= 0.0
  {
  }

  /** A tap keeps the forest and never lengthens it. */
  lemma TapWithKeeps(dist: Metric, points0: seq<Point>, edges0: set<Edge>, s: TapState, v: nat, a: nat, b: nat,
                     f: Point, at: Point)
    requires Euclidean(dist) && v < |points0| && TappedForest(points0, edges0, s.points, s.edges, s.taps)
    requires v < |s.points| && a < |s.points| && b < |s.points| && a != b && Link(v, a) in s.edges
             && Link(v, b) in s.edges
    requires Saving(dist, s.points[v], s.points[a], s.points[b], f) >= 0.0 && OnTheWay(s.points[v], f, at)
    ensures var s' := TapWith(s, v, a, b, at);
            TappedForest(points0, edges0, s'.points, s'.edges, s'.taps)
            && Length(dist, s'.points, s'.edges) <= Length(dist, s.points, s.edges)
  {
    var k :| ShareOfWay(s.points[v], f, k, at);
    BendHere(s.edges, |s.points|, v, a, b);
    PlaceKeeps(dist, points0, edges0, s.points, s.edges, s.taps, v, a, b, f, k, at);
  }

  /** Tap the bend chosen. */
  method TapAt(dist: Metric, fermat: (Point, Point, Point) -> Point, t: Tuning, uniform: nat -> real, v: nat,
               c: BendChoice, s: TapState, adj: map<nat, set<nat>>)
    returns (s': TapState, adj': map<nat, set<nat>>, ghost at: Point)
    requires t.Valid() && v < |s.points| && c.a < |s.points| && c.b < |s.points| && AdjOf(s.edges, adj)
    requires c.s == fermat(s.points[v], s.points[c.a], s.points[c.b])
    ensures s' == BendTap(dist, fermat, t, uniform, s, v, c.a, c.b) == TapWith(s, v, c.a, c.b, at)
            && AdjOf(s'.edges, adj')
    ensures OnTheWay(s.points[v], c.s, at)
  {
    var atSite := uniform(s.draws + 1) < t.atSiteShare;
    var place := Junction(dist, t, s.points[v], c.s, atSite);
    JunctionOnTheWay(dist, t, s.points[v], c.s, atSite);
    at := place;
    var edges;
    edges, adj' := Rewire(s.edges, adj, v, c.a, c.b, |s.points|);
    s' := TapState(s.draws + 2, s.points + [place], edges, s.taps + [v]);
  }

  /** One bend at `v`, if it has a sharp one and the draws allow it. */
  method TapBend(dist: Metric, fermat: (Point, Point, Point) -> Point, t: Tuning, uniform: nat -> real,
                 ghost points0: seq<Point>, ghost edges0: set<Edge>, v: nat, s: TapState, adj: map<nat, set<nat>>)
    returns (s': TapState, adj': map<nat, set<nat>>)
    requires Euclidean(dist) && t.Valid() && v < |points0|
    requires TappedForest(points0, edges0, s.points, s.edges, s.taps) && AdjOf(s.edges, adj)
    ensures TappedForest(points0, edges0, s'.points, s'.edges, s'.taps) && AdjOf(s'.edges, adj')
    ensures Length(dist, s'.points, s'.edges) <= Length(dist, s.points, s.edges)
    ensures BendStep(dist, fermat, t, uniform, s, s', v)
    ensures s'.taps == s.taps || s'.taps == s.taps + [v]
  {
    s', adj' := s, adj;
    var best := ChooseBend(dist, fermat, t, s.points, s.edges, adj, v);
    if best.None? {
      return;
    }
    var c := best.value;
    assert SharpBend(dist, fermat, t, s.points, s.edges, v, c.a, c.b);
    SharpSaves(dist, fermat, t, s.points, s.edges, v, c.a, c.b);
    if uniform(s.draws) >= t.tapShare {
      s' := s.(draws := s.draws + 1);
    } else {
      ghost var at;
      s', adj', at := TapAt(dist, fermat, t, uniform, v, c, s, adj);
      TapWithKeeps(dist, points0, edges0, s, v, c.a, c.b, c.s, at);
    }
  }

  lemma NeighboursBelow(edges: set<Edge>, adj: map<nat, set<nat>>, n: nat, v: nat)
    requires AdjOf(edges, adj) && Below(edges, n)
    ensures forall x | x in Neighbours(adj, v) :: x < n && Link(v, x) in edges
  {
  }

  lemma PlacedNeverLonger(dist: Metric, points: seq<Point>, edges: set<Edge>, v: nat, a: nat, b: nat, f: Point,
                          k: real, s: Point)
    requires Euclidean(dist) && Bend(edges, v, a, b, |points|) && Below(edges, |points|)
    requires v < |points| && a < |points| && b < |points|
    requires ShareOfWay(points[v], f, k, s) && Saving(dist, points[v], points[a], points[b], f) >= 0.0
    ensures Length(dist, points + [s], Tapped(edges, v, a, b, |points|)) <= Length(dist, points, edges)
  {
    LengthTapped(dist, points, edges, v, a, b, s);
    JunctionNeverLonger(dist, points[v], points[a], points[b], f, k, s);
  }

  lemma PlaceKeeps(dist: Metric, points0: seq<Point>, edges0: set<Edge>, points: seq<Point>, edges: set<Edge>,
                   taps: seq<nat>,
                   v: nat, a: nat, b: nat, f: Point, k: real, s: Point)
    requires Euclidean(dist) && TappedForest(points0, edges0, points, edges, taps)
    requires v < |points0| && a < |points| && b < |points| && Bend(edges, v, a, b, |points|)
    requires ShareOfWay(points[v], f, k, s) && Saving(dist, points[v], points[a], points[b], f) >= 0.0
    ensures TappedForest(points0, edges0, points + [s], Tapped(edges, v, a, b, |points|), taps + [v])
    ensures Length(dist, points + [s], Tapped(edges, v, a, b, |points|)) <= Length(dist, points, edges)
  {
    PlacedNeverLonger(dist, points, edges, v, a, b, f, k, s);
    TapKeepsForestState(points0, edges0, points, edges, taps, v, a, b, s);
  }

  /** Cut both sections at `v` and join the three to the junction. */
  method Rewire(edges: set<Edge>, adj: map<nat, set<nat>>, v: nat, a: nat, b: nat, tap: nat)
    returns (edges': set<Edge>, adj': map<nat, set<nat>>)
    requires AdjOf(edges, adj)
    ensures edges' == Tapped(edges, v, a, b, tap) && AdjOf(edges', adj')
  {
    UnlinkKeeps(edges, adj, v, a);
    edges', adj' := edges - {Link(v, a)}, Unlink(adj, v, a);
    UnlinkKeeps(edges', adj', v, b);
    edges', adj' := edges' - {Link(v, b)}, Unlink(adj', v, b);
    RelinkKeeps(edges', adj', tap, v);
    edges', adj' := edges' + {Link(tap, v)}, Relink(adj', tap, v);
    RelinkKeeps(edges', adj', tap, a);
    edges', adj' := edges' + {Link(tap, a)}, Relink(adj', tap, a);
    RelinkKeeps(edges', adj', tap, b);
    edges', adj' := edges' + {Link(tap, b)}, Relink(adj', tap, b);
    assert edges' == Tapped(edges, v, a, b, tap);
  }

  /** Adjacency of an edge set. */
  method BuildNeighbours(edges: set<Edge>) returns (adj: map<nat, set<nat>>)
    requires Normal(edges)
    ensures AdjOf(edges, adj)
  {
    adj := map[];
    var left := edges;
    while left != {}
      invariant left <= edges && AdjOf(edges - left, adj)
      decreases left
    {
      var e :| e in left;
      RelinkKeeps(edges - left, adj, e.a, e.b);
      adj, left := Relink(adj, e.a, e.b), left - {e};
      assert edges - left == edges - (left + {e}) + {e};
    }
    assert edges - left == edges;
  }

  /** `run` makes the first of the visits, in order. */
  ghost predicate BendRun(dist: Metric, fermat: (Point, Point, Point) -> Point, t: Tuning, uniform: nat -> real,
                          visits: seq<nat>, run: seq<TapState>) {
    0 < |run| <= |visits| + 1 && forall k: nat | k + 1 < |run| :: BendVisit(dist, fermat, t, uniform, visits, run, k)
  }

  ghost predicate BendVisit(dist: Metric, fermat: (Point, Point, Point) -> Point, t: Tuning, uniform: nat -> real,
                            visits: seq<nat>, run: seq<TapState>, k: nat)
    requires k + 1 < |run| <= |visits| + 1
  {
    BendStep(dist, fermat, t, uniform, run[k], run[k + 1], visits[k])
  }

  lemma BendRunMore(dist: Metric, fermat: (Point, Point, Point) -> Point, t: Tuning, uniform: nat -> real,
                    visits: seq<nat>, run: seq<TapState>, v: nat, s: TapState)
    requires BendRun(dist, fermat, t, uniform, visits, run) && |run| == |visits| + 1
    requires BendStep(dist, fermat, t, uniform, run[|run| - 1], s, v)
    ensures BendRun(dist, fermat, t, uniform, visits + [v], run + [s])
  {
    var more, all := run + [s], visits + [v];
    forall k: nat | k + 1 < |more|
      ensures BendVisit(dist, fermat, t, uniform, all, more, k)
    {
      if k + 1 < |run| {
        assert BendVisit(dist, fermat, t, uniform, visits, run, k);
      }
    }
  }

  /** What the passes keep: a tapped forest no longer than the first, reached by the visits. */
  ghost predicate Bending(dist: Metric, fermat: (Point, Point, Point) -> Point, t: Tuning, uniform: nat -> real,
                          points0: seq<Point>, edges0: set<Edge>,
                          visits: seq<nat>, run: seq<TapState>, s: TapState) {
    && TappedForest(points0, edges0, s.points, s.edges, s.taps) && (forall v | v in s.taps :: v in visits)
    && Length(dist, s.points, s.edges) <= Length(dist, points0, edges0)
    && BendRun(dist, fermat, t, uniform, visits, run) && |run| == |visits| + 1
    && run[0] == TapState(0, points0, edges0, []) && run[|visits|] == s
  }

  lemma BendingMore(dist: Metric, fermat: (Point, Point, Point) -> Point, t: Tuning, uniform: nat -> real,
                    points0: seq<Point>, edges0: set<Edge>,
                    visits: seq<nat>, run: seq<TapState>, s: TapState, v: nat, s': TapState)
    requires Bending(dist, fermat, t, uniform, points0, edges0, visits, run, s)
    requires TappedForest(points0, edges0, s'.points, s'.edges, s'.taps)
             && Length(dist, s'.points, s'.edges) <= Length(dist, s.points, s.edges)
    requires BendStep(dist, fermat, t, uniform, s, s', v) && (s'.taps == s.taps || s'.taps == s.taps + [v])
    ensures Bending(dist, fermat, t, uniform, points0, edges0, visits + [v], run + [s'], s')
  {
    BendRunMore(dist, fermat, t, uniform, visits, run, v, s');
  }

  lemma NextVisit(visits: seq<nat>, nodes: seq<nat>, i: nat)
    requires i < |nodes|
    ensures visits + nodes[..i] + [nodes[i]] == visits + nodes[..i + 1]
  {
  }

  /** One pass over `nodes`. */
  method BendPass(dist: Metric, fermat: (Point, Point, Point) -> Point, t: Tuning, uniform: nat -> real,
                  ghost points0: seq<Point>, ghost edges0: set<Edge>,
                  nodes: seq<nat>, s0: TapState, adj0: map<nat, set<nat>>, ghost visits0: seq<nat>,
                  ghost run0: seq<TapState>)
    returns (s: TapState, adj: map<nat, set<nat>>, ghost run: seq<TapState>)
    requires Euclidean(dist) && t.Valid() && (forall v | v in nodes :: v < |points0|)
    requires Bending(dist, fermat, t, uniform, points0, edges0, visits0, run0, s0) && AdjOf(s0.edges, adj0)
    ensures Bending(dist, fermat, t, uniform, points0, edges0, visits0 + nodes, run, s) && AdjOf(s.edges, adj)
  {
    s, adj, run := s0, adj0, run0;
    assert visits0 + nodes[..0] == visits0;
    for i := 0 to |nodes|
      invariant Bending(dist, fermat, t, uniform, points0, edges0, visits0 + nodes[..i], run, s) && AdjOf(s.edges, adj)
    {
      assert nodes[i] in nodes;
      ghost var was := s;
      s, adj := TapBend(dist, fermat, t, uniform, points0, edges0, nodes[i], s, adj);
      BendingMore(dist, fermat, t, uniform, points0, edges0, visits0 + nodes[..i], run, was, nodes[i], s);
      NextVisit(visits0, nodes, i);
      run := run + [s];
    }
    assert nodes[..|nodes|] == nodes;
  }

  lemma BendingStarts(dist: Metric, fermat: (Point, Point, Point) -> Point, t: Tuning, uniform: nat -> real,
                      points0: seq<Point>, edges0: set<Edge>)
    requires Forest(edges0) && Below(edges0, |points0|)
    ensures var s := TapState(0, points0, edges0, []);
            Bending(dist, fermat, t, uniform, points0, edges0, [], [s], s)
  {
  }

  /** Replace sharp bends of a forest by tap junctions, two passes over `nodes`, as
      the run says. Still a forest, the same components, one node and one edge per
      junction, junction `k` at index `|points0| + k`, and no longer than before. */
  method Steinerize(dist: Metric, fermat: (Point, Point, Point) -> Point, t: Tuning, uniform: nat -> real,
                    points0: seq<Point>, edges0: set<Edge>, nodes: seq<nat>)
    returns (points: seq<Point>, edges: set<Edge>, taps: seq<nat>, ghost run: seq<TapState>)
    requires Euclidean(dist) && t.Valid() && (forall v | v in nodes :: v < |points0|)
    requires Forest(edges0) && Below(edges0, |points0|)
    ensures TappedForest(points0, edges0, points, edges, taps)
    ensures forall v | v in taps :: v in nodes
    ensures Length(dist, points, edges) <= Length(dist, points0, edges0)
    ensures BendRun(dist, fermat, t, uniform, nodes + nodes, run) && |run| == 2 * |nodes| + 1
            && run[0] == TapState(0, points0, edges0, [])
    ensures var last := run[2 * |nodes|]; points == last.points && edges == last.edges && taps == last.taps
  {
    var s := TapState(0, points0, edges0, []);
    var adj := BuildNeighbours(edges0);
    run := [s];
    BendingStarts(dist, fermat, t, uniform, points0, edges0);
    ghost var visits: seq<nat> := [];
    for pass := 0 to 2
      invariant Bending(dist, fermat, t, uniform, points0, edges0, visits, run, s) && AdjOf(s.edges, adj)
      invariant visits == if pass == 0 then [] else if pass == 1 then nodes else nodes + nodes
    {
      s, adj, run := BendPass(dist, fermat, t, uniform, points0, edges0, nodes, s, adj, visits, run);
      assert [] + nodes == nodes;
      visits := visits + nodes;
    }
    points, edges, taps := s.points, s.edges, s.taps;
  }

  // ------------------------------------------------------------ straight passes

  function Listed(adj: map<nat, seq<nat>>, x: nat): seq<nat> {
    if x in adj then adj[x] else []
  }

  /** Neighbour lists: every neighbour once. */
  ghost predicate ListsOf(edges: set<Edge>, adj: map<nat, seq<nat>>) {
    && (forall x: nat, y: nat :: y in Listed(adj, x) <==> Link(x, y) in edges)
    && (forall x: nat :: NoRepeats(Listed(adj, x)))
  }

  ghost predicate NoRepeats(l: seq<nat>) {
    forall i, j | 0 <= i < j < |l| :: l[i] != l[j]
  }

  /** `l` without `v`. */
  function Retain(l: seq<nat>, v: nat): (r: seq<nat>)
    ensures forall y :: y in r <==> y in l && y != v
  {
    if l == [] then [] else if l[0] == v then Retain(l[1..], v) else [l[0]] + Retain(l[1..], v)
  }

  lemma {:induction false} RetainDistinct(l: seq<nat>, v: nat)
    requires NoRepeats(l)
    ensures NoRepeats(Retain(l, v))
  {
    if l != [] {
      RetainDistinct(l[1..], v);
      assert forall k | 0 < k < |l| :: l[k] == l[1..][k - 1];
      assert l[0] !in l[1..];
      assert forall k | 0 <= k < |Retain(l[1..], v)| :: Retain(l[1..], v)[k] in Retain(l[1..], v);
    }
  }

  function Relist(adj: map<nat, seq<nat>>, v: nat, a: nat, b: nat, tap: nat): map<nat, seq<nat>> {
    adj[a := Retain(Listed(adj, a), v) + [tap]][b := Retain(Listed(adj, b), v) + [tap]][v := [tap]][tap := [a, b, v]]
  }

  /** The rewritten lists are those of the rewritten edges: `v` had no neighbours but the two. */
  lemma RelistKeeps(edges: set<Edge>, adj: map<nat, seq<nat>>, v: nat, a: nat, b: nat, tap: nat)
    requires ListsOf(edges, adj) && Bend(edges, v, a, b, tap) && Listed(adj, v) == [a, b]
    ensures ListsOf(Tapped(edges, v, a, b, tap), Relist(adj, v, a, b, tap))
  {
    var next, lists := Tapped(edges, v, a, b, tap), Relist(adj, v, a, b, tap);
    BendDistinct(edges, v, a, b, tap);
    forall x: nat, y: nat
      ensures y in Listed(lists, x) <==> Link(x, y) in next
    {
      RelistEntry(edges, adj, v, a, b, tap, x, y);
    }
    forall x: nat
      ensures NoRepeats(Listed(lists, x))
    {
      RelistDistinct(edges, adj, v, a, b, tap, x);
    }
  }

  lemma RelistDistinct(edges: set<Edge>, adj: map<nat, seq<nat>>, v: nat, a: nat, b: nat, tap: nat, x: nat)
    requires ListsOf(edges, adj) && Bend(edges, v, a, b, tap) && Listed(adj, v) == [a, b]
    ensures NoRepeats(Listed(Relist(adj, v, a, b, tap), x))
  {
    BendDistinct(edges, v, a, b, tap);
    if x == a || x == b {
      assert Link(x, tap) !in edges;
      assert tap !in Listed(adj, x);
      RetainDistinct(Listed(adj, x), v);
      DistinctPush(Retain(Listed(adj, x), v), tap);
    } else if x == tap {
      assert Listed(Relist(adj, v, a, b, tap), x) == [a, b, v];
    } else if x == v {
      assert Listed(Relist(adj, v, a, b, tap), x) == [tap];
    } else {
      assert Listed(Relist(adj, v, a, b, tap), x) == Listed(adj, x);
    }
  }

  lemma DistinctPush(l: seq<nat>, x: nat)
    requires NoRepeats(l) && x !in l
    ensures NoRepeats(l + [x])
  {
  }

  lemma LinkEq(x: nat, y: nat, u: nat, w: nat)
    ensures Link(x, y) == Link(u, w) <==> (x == u && y == w) || (x == w && y == u)
  {
  }

  /** The junction's neighbours are the three ends. */
  lemma TappedAtTap(edges: set<Edge>, v: nat, a: nat, b: nat, tap: nat, y: nat)
    requires Bend(edges, v, a, b, tap)
    ensures Link(tap, y) in Tapped(edges, v, a, b, tap) <==> y == v || y == a || y == b
  {
  }

  /** Anywhere else the sections at `v` are gone and the junction may have come. */
  lemma TappedElsewhere(edges: set<Edge>, v: nat, a: nat, b: nat, tap: nat, x: nat, y: nat)
    requires Bend(edges, v, a, b, tap) && x != tap
    ensures Link(x, y) in Tapped(edges, v, a, b, tap) <==>
            if y == tap then x == v || x == a || x == b
            else Link(x, y) in edges && !(x == v && (y == a || y == b)) && !(y == v && (x == a || x == b))
  {
    if y == tap {
      assert Link(x, y) == Link(y, x);
      TappedAtTap(edges, v, a, b, tap, x);
    } else {
      LinkEq(x, y, v, a);
      LinkEq(x, y, v, b);
      LinkEq(x, y, tap, v);
      LinkEq(x, y, tap, a);
      LinkEq(x, y, tap, b);
    }
  }

  lemma RelistEntry(edges: set<Edge>, adj: map<nat, seq<nat>>, v: nat, a: nat, b: nat, tap: nat, x: nat, y: nat)
    requires ListsOf(edges, adj) && Bend(edges, v, a, b, tap) && Listed(adj, v) == [a, b]
    ensures y in Listed(Relist(adj, v, a, b, tap), x) <==> Link(x, y) in Tapped(edges, v, a, b, tap)
  {
    BendDistinct(edges, v, a, b, tap);
    assert y in Listed(adj, x) <==> Link(x, y) in edges;
    if x == tap {
      TappedAtTap(edges, v, a, b, tap, y);
    } else {
      TappedElsewhere(edges, v, a, b, tap, x, y);
      assert y == tap ==> Link(x, y) !in edges;
    }
  }

  /** Neighbour lists of an edge set. */
  method BuildLists(edges: set<Edge>) returns (adj: map<nat, seq<nat>>)
    requires Forest(edges)
    ensures ListsOf(edges, adj)
  {
    adj := map[];
    var left := edges;
    while left != {}
      invariant left <= edges && ListsOf(edges - left, adj)
      decreases left
    {
      var e :| e in left;
      if e.a == e.b {
        Reflexive(edges - {e}, e.a);
      }
      ListBoth(edges - left, adj, e.a, e.b);
      adj, left := WithBoth(adj, e.a, e.b), left - {e};
      assert edges - left == edges - (left + {e}) + {e};
    }
    assert edges - left == edges;
  }

  function WithBoth(adj: map<nat, seq<nat>>, x: nat, y: nat): map<nat, seq<nat>> {
    var one := adj[x := Listed(adj, x) + [y]];
    one[y := Listed(one, y) + [x]]
  }

  lemma ListBoth(edges: set<Edge>, adj: map<nat, seq<nat>>, x: nat, y: nat)
    requires ListsOf(edges, adj) && x != y && Link(x, y) !in edges
    ensures ListsOf(edges + {Link(x, y)}, WithBoth(adj, x, y))
  {
    var lists := WithBoth(adj, x, y);
    assert y !in Listed(adj, x) && x !in Listed(adj, y);
    assert Listed(lists, x) == Listed(adj, x) + [y] && Listed(lists, y) == Listed(adj, y) + [x];
    assert forall u: nat | u != x && u != y :: Listed(lists, u) == Listed(adj, u);
    DistinctPush(Listed(adj, x), y);
    DistinctPush(Listed(adj, y), x);
  }

  /** The junction beside `v`, off the line from `pa` to `pb`. */
  function Beside(dist: Metric, t: Tuning, pv: Point, pa: Point, pb: Point, left: bool): Point {
    var dx, dy := pb.x - pa.x, pb.y - pa.y;
    var d := dist(pb, pa);
    var len := if d > 0.000000001 then d else 0.000000001;
    var side := if left then 1.0 else -1.0;
    Point(pv.x - dy / len * t.spurKm * side, pv.y + dx / len * t.spurKm * side)
  }

  /** One visit of `v`: protected substations and those without exactly two
      neighbours are left alone; else a draw decides, and another takes the side. */
  ghost predicate StraightStep(dist: Metric, t: Tuning, uniform: nat -> real, protected: set<nat>, s: TapState,
                               s': TapState, v: nat) {
    if v in protected || forall a: nat, b: nat :: !Passes(s.edges, v, a, b) then s' == s
    else if uniform(s.draws) >= t.straightShare then s' == s.(draws := s.draws + 1)
    else exists a: nat, b: nat :: Passes(s.edges, v, a, b) && v < |s.points| && a < |s.points| && b < |s.points| &&
                                  s' == TapState(s.draws + 2,
                                                 s.points + [Beside(dist, t, s.points[v], s.points[a], s.points[b],
                                                                    uniform(s.draws + 1) < 0.5)],
                                                 Tapped(s.edges, v, a, b, |s.points|), s.taps + [v])
  }

  /** The line passes `v` from `a` to `b`: its two neighbours and no other. */
  ghost predicate Passes(edges: set<Edge>, v: nat, a: nat, b: nat) {
    a != b && forall y: nat :: Link(v, y) in edges <==> y == a || y == b
  }

  lemma TwoNeighbours(edges: set<Edge>, adj: map<nat, seq<nat>>, v: nat)
    requires ListsOf(edges, adj)
    ensures |Listed(adj, v)| == 2 ==> Passes(edges, v, Listed(adj, v)[0], Listed(adj, v)[1])
    ensures |Listed(adj, v)| != 2 ==> forall a: nat, b: nat :: !Passes(edges, v, a, b)
  {
    var l := Listed(adj, v);
    if |l| == 2 {
      assert l == [l[0], l[1]];
    } else {
      forall a: nat, b: nat
        ensures !Passes(edges, v, a, b)
      {
        if a != b && a in l && b in l {
          var k := ThirdOf(l, a, b);
          assert l[k] in l;
        }
      }
    }
  }

  lemma ThirdOf(l: seq<nat>, a: nat, b: nat) returns (k: nat)
    requires NoRepeats(l) && |l| != 2 && a in l && b in l && a != b
    ensures k < |l| && l[k] != a && l[k] != b
  {
    var i :| 0 <= i < |l| && l[i] == a;
    var j :| 0 <= j < |l| && l[j] == b;
    k := if i != 0 && j != 0 then 0 else if i != 1 && j != 1 then 1 else 2;
  }

  ghost predicate StraightRun(dist: Metric, t: Tuning, uniform: nat -> real, protected: set<nat>, nodes: seq<nat>,
                              run: seq<TapState>) {
    && 0 < |run| <= |nodes| + 1
    && forall k: nat | k + 1 < |run| :: StraightVisit(dist, t, uniform, protected, nodes, run, k)
  }

  ghost predicate StraightVisit(dist: Metric, t: Tuning, uniform: nat -> real, protected: set<nat>, nodes: seq<nat>,
                                run: seq<TapState>, k: nat)
    requires k + 1 < |run| <= |nodes| + 1
  {
    StraightStep(dist, t, uniform, protected, run[k], run[k + 1], nodes[k])
  }

  lemma StraightRunMore(dist: Metric, t: Tuning, uniform: nat -> real, protected: set<nat>, nodes: seq<nat>,
                        run: seq<TapState>, s: TapState)
    requires StraightRun(dist, t, uniform, protected, nodes, run) && |run| <= |nodes|
    requires StraightStep(dist, t, uniform, protected, run[|run| - 1], s, nodes[|run| - 1])
    ensures StraightRun(dist, t, uniform, protected, nodes, run + [s])
  {
    var more := run + [s];
    forall k: nat | k + 1 < |more|
      ensures StraightVisit(dist, t, uniform, protected, nodes, more, k)
    {
      if k + 1 < |run| {
        assert StraightVisit(dist, t, uniform, protected, nodes, run, k);
      }
    }
  }

  /** One straight pass at `v`. */
  method TapStraight(dist: Metric, t: Tuning, uniform: nat -> real, ghost points0: seq<Point>,
                     ghost edges0: set<Edge>, protected: set<nat>,
                     v: nat, s: TapState, adj: map<nat, seq<nat>>)
    returns (s': TapState, adj': map<nat, seq<nat>>)
    requires v < |points0| && TappedForest(points0, edges0, s.points, s.edges, s.taps) && ListsOf(s.edges, adj)
    ensures TappedForest(points0, edges0, s'.points, s'.edges, s'.taps) && ListsOf(s'.edges, adj')
    ensures StraightStep(dist, t, uniform, protected, s, s', v)
    ensures s'.taps == s.taps || (s'.taps == s.taps + [v] && v !in protected)
  {
    s', adj' := s, adj;
    var nbrs := Listed(adj, v);
    TwoNeighbours(s.edges, adj, v);
    if v in protected || |nbrs| != 2 {
      return;
    }
    if uniform(s.draws) >= t.straightShare {
      s' := s.(draws := s.draws + 1);
      return;
    }
    var a, b := nbrs[0], nbrs[1];
    assert nbrs == [a, b] && a in nbrs && b in nbrs;
    BendHere(s.edges, |s.points|, v, a, b);
    var at := Beside(dist, t, s.points[v], s.points[a], s.points[b], uniform(s.draws + 1) < 0.5);
    TapKeepsForestState(points0, edges0, s.points, s.edges, s.taps, v, a, b, at);
    RelistKeeps(s.edges, adj, v, a, b, |s.points|);
    adj' := Relist(adj, v, a, b, |s.points|);
    s' := TapState(s.draws + 2, s.points + [at], Tapped(s.edges, v, a, b, |s.points|), s.taps + [v]);
  }

  /** Tap the unprotected substations a tree line passes straight through, as the
      run says. Still a forest, the same components, and no source is taken off its line. */
  method StraightTaps(dist: Metric, t: Tuning, uniform: nat -> real, points0: seq<Point>, edges0: set<Edge>,
                      nodes: seq<nat>, protected: set<nat>)
    returns (points: seq<Point>, edges: set<Edge>, taps: seq<nat>, ghost run: seq<TapState>)
    requires forall v | v in nodes :: v < |points0|
    requires Forest(edges0) && Below(edges0, |points0|)
    ensures TappedForest(points0, edges0, points, edges, taps)
    ensures forall v | v in taps :: v in nodes && v !in protected
    ensures StraightRun(dist, t, uniform, protected, nodes, run) && |run| == |nodes| + 1
            && run[0] == TapState(0, points0, edges0, [])
    ensures var last := run[|run| - 1]; points == last.points && edges == last.edges && taps == last.taps
  {
    var s := TapState(0, points0, edges0, []);
    var adj := BuildLists(edges0);
    run := [s];
    for i := 0 to |nodes|
      invariant TappedForest(points0, edges0, s.points, s.edges, s.taps) && ListsOf(s.edges, adj)
      invariant forall v | v in s.taps :: v in nodes && v !in protected
      invariant StraightRun(dist, t, uniform, protected, nodes, run) && |run| == i + 1
                && run[0] == TapState(0, points0, edges0, []) && run[i] == s
    {
      assert nodes[i] in nodes;
      s, adj := TapStraight(dist, t, uniform, points0, edges0, protected, nodes[i], s, adj);
      StraightRunMore(dist, t, uniform, protected, nodes, run, s);
      run := run + [s];
    }
    points, edges, taps := s.points, s.edges, s.taps;
  }

  /** Both kinds of tap, one after the other, on one forest. */
  lemma TapsCompose(p0: seq<Point>, e0: set<Edge>, p1: seq<Point>, e1: set<Edge>, made: seq<nat>, p2: seq<Point>,
                    e2: set<Edge>, more: seq<nat>)
    requires TappedForest(p0, e0, p1, e1, made) && TappedForest(p1, e1, p2, e2, more)
    requires forall v | v in more :: v < |p0|
    ensures TappedForest(p0, e0, p2, e2, made + more)
  {
    var taps := made + more;
    forall k: nat | k < |taps|
      ensures taps[k] < |p0| && Connected(e2, taps[k], |p0| + k)
    {
      if k < |made| {
        assert Connected(e1, made[k], |p0| + k);
      } else {
        assert more[k - |made|] in more;
        assert Connected(e2, more[k - |made|], |p1| + (k - |made|));
      }
    }
  }
}
