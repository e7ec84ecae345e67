/**
 Where taps stand: at the fence of their substation on the way to the point where
 the sections meet, or at that point; and, on a straight pass, beside the line on
 the side drawn.
 */
module TapPlaces {
  import opened Options
  import opened Geometry
  import opened Forests
  import opened TapRewrites
  import opened Taps

  // ------------------------------------------------------------ bends

  /** The angle `a`-`v`-`b` is below 120 degrees (its cosine above -1/2) and the three
      sections to `f` are shorter than the two to `v` by more than the least saving. */
  ghost predicate WorthTapping(dist: Metric, least: real, v: Point, a: Point, b: Point, f: Point) {
    && dist(a, v) > 0.0 && dist(b, v) > 0.0
    && 2.0 * ((a.x - v.x) * (b.x - v.x) + (a.y - v.y) * (b.y - v.y)) > -(dist(a, v) * dist(b, v))
    && dist(f, v) + dist(f, a) + dist(f, b) + least < dist(a, v) + dist(b, v)
  }

  lemma SharpIsWorthTapping(dist: Metric, t: Tuning, v: Point, a: Point, b: Point, f: Point)
    ensures Sharp(dist, t, v, a, b, f) <==> WorthTapping(dist, t.minSavingKm, v, a, b, f)
  {
    var la, lb := dist(a, v), dist(b, v);
    var dot := (a.x - v.x) * (b.x - v.x) + (a.y - v.y) * (b.y - v.y);
    if la > 0.0 && lb > 0.0 {
      ProductSign(la, lb);
      HalfBelow(dot, la * lb);
    }
  }

  lemma HalfBelow(x: real, y: real)
    requires y > 0.0
    ensures x / y > -0.5 <==> 2.0 * x > -y
  {
    var q := x / y;
    assert q * y == x;
    if q > -0.5 {
      ProductSign(q + 0.5, y);
    } else {
      assert (-0.5 - q) * y >= 0.0;
    }
  }

  /** `b` is on the segment from `v` to `f`. */
  ghost predicate OnSegment(v: Point, f: Point, s: Point) {
    exists k: real :: 0.0 <= k <= 1.0 && Along(v, f, k, s)
  }

  ghost predicate Along(v: Point, f: Point, k: real, s: Point) {
    s.x == v.x + k * (f.x - v.x) && s.y == v.y + k * (f.y - v.y)
  }

  /** `s` is at the fence of `v` towards `f`: the spur length away, or at `f` if that
      is nearer. Points closer than a micrometre count as one. */
  ghost predicate AtFence(dist: Metric, spurKm: real, v: Point, f: Point, s: Point) {
    && OnSegment(v, f, s)
    && (dist(f, v) >= 0.000000001 ==> dist(s, v) == if spurKm < dist(f, v) then spurKm else dist(f, v))
    && dist(s, v) <= dist(f, v) && dist(s, v) <= spurKm
  }

  lemma JunctionAtFence(dist: Metric, t: Tuning, v: Point, f: Point)
    requires Euclidean(dist) && t.Valid()
    ensures AtFence(dist, t.spurKm, v, f, Junction(dist, t, v, f, true))
  {
    var d, k, s := dist(f, v), SpurShare(dist, t, v, f), Junction(dist, t, v, f, true);
    SpurInside(dist, t, v, f);
    assert Along(v, f, k, s);
    DistAlong(dist, v, f, k, s);
    DistIsNorm(dist, f, v, f.x - v.x, f.y - v.y);
    ShareOfLength(t.spurKm, d, if d < 0.000000001 then 0.000000001 else d, k);
  }

  lemma ShareOfLength(spur: real, d: real, m: real, k: real)
    requires spur >= 0.0 && 0.0 <= d <= m && m > 0.0 && k == if spur / m > 1.0 then 1.0 else spur / m
    ensures k * d <= d && k * d <= spur
    ensures d == m ==> k * d == if spur < d then spur else d
  {
    var q := spur / m;
    assert q * m == spur;
    QuotientSign(spur, m);
    assert k * d <= d by {
      ProductSign(1.0 - k, d);
    }
    assert k * d <= k * m by {
      ProductSign(k, m - d);
    }
    assert k * m <= spur by {
      ProductSign(q - k, m);
    }
    if spur < m {
      assert q > 1.0 ==> (q - 1.0) * m > 0.0;
      assert q <= 1.0;
    } else {
      if q < 1.0 {
        ProductSign(1.0 - q, m);
        assert (1.0 - q) * m == m - spur;
      }
    }
  }

  /** A bend replaced in one visit: the two draws allowed it, no other pair of
      neighbours of `v` would save more, and the junction is at the fence or where the
      three sections meet, as the second draw says. */
  ghost predicate BendReplaced(dist: Metric, fermat: (Point, Point, Point) -> Point, t: Tuning, uniform: nat -> real,
                               s: TapState, s': TapState, v: nat, a: nat, b: nat) {
    && v < |s.points| && a < |s.points| && b < |s.points| && a < b
    && Link(v, a) in s.edges && Link(v, b) in s.edges && uniform(s.draws) < t.tapShare
    && var (pv, pa, pb) := (s.points[v], s.points[a], s.points[b]);
    var f := fermat(pv, pa, pb);
    && WorthTapping(dist, t.minSavingKm, pv, pa, pb, f)
    && (forall c: nat, d: nat | c < d < |s.points| && Link(v, c) in s.edges && Link(v, d) in s.edges ::
          NoBetter(dist, fermat, t.minSavingKm, pv, s.points[c], s.points[d],
                   dist(pa, pv) + dist(pb, pv) - dist(f, pv) - dist(f, pa) - dist(f, pb),
                   a < c || (a == c && b <= d)))
    && |s'.points| == |s.points| + 1 && s'.points[..|s.points|] == s.points && s'.taps == s.taps + [v]
    && (if uniform(s.draws + 1) < t.atSiteShare then AtFence(dist, t.spurKm, pv, f, s'.points[|s.points|])
        else s'.points[|s.points|] == f)
    && s'.edges == s.edges - {Link(v, a), Link(v, b)}
                   + {Link(|s.points|, v), Link(|s.points|, a), Link(|s.points|, b)}
  }

  /** The bend `a`-`v`-`b` is not worth tapping, or saves less than `most`, or as much
      and comes `later`. */
  ghost predicate NoBetter(dist: Metric, fermat: (Point, Point, Point) -> Point, least: real, v: Point, a: Point,
                           b: Point, most: real, later: bool) {
    var f := fermat(v, a, b);
    WorthTapping(dist, least, v, a, b, f) ==>
      var saved := dist(a, v) + dist(b, v) - dist(f, v) - dist(f, a) - dist(f, b);
      saved < most || (saved == most && later)
  }

  /** Every visit that taps a bend is such a replacement. */
  lemma VisitReplacesBend(dist: Metric, fermat: (Point, Point, Point) -> Point, t: Tuning, uniform: nat -> real,
                          s: TapState, s': TapState, v: nat) returns (a: nat, b: nat)
    requires Euclidean(dist) && t.Valid() && BendStep(dist, fermat, t, uniform, s, s', v) && s'.taps != s.taps
    ensures BendReplaced(dist, fermat, t, uniform, s, s', v, a, b) && s'.draws == s.draws + 2
  {
    a, b :| SharpestBend(dist, fermat, t, s.points, s.edges, v, a, b)
            && s' == BendTap(dist, fermat, t, uniform, s, v, a, b);
    var (pv, pa, pb) := (s.points[v], s.points[a], s.points[b]);
    var f := fermat(pv, pa, pb);
    SharpIsWorthTapping(dist, t, pv, pa, pb, f);
    JunctionAtFence(dist, t, pv, f);
    forall c: nat, d: nat | c < d < |s.points| && Link(v, c) in s.edges && Link(v, d) in s.edges
      ensures NoBetter(dist, fermat, t.minSavingKm, pv, s.points[c], s.points[d],
                       dist(pa, pv) + dist(pb, pv) - dist(f, pv) - dist(f, pa) - dist(f, pb),
                       a < c || (a == c && b <= d))
    {
      SharpIsWorthTapping(dist, t, pv, s.points[c], s.points[d], fermat(pv, s.points[c], s.points[d]));
      if WorthTapping(dist, t.minSavingKm, pv, s.points[c], s.points[d], fermat(pv, s.points[c], s.points[d])) {
        assert SharpBend(dist, fermat, t, s.points, s.edges, v, c, d);
      }
    }
  }

  /** A visit that taps nothing: no bend at `v` is worth it, or the draw was against it. */
  lemma VisitPasses(dist: Metric, fermat: (Point, Point, Point) -> Point, t: Tuning, uniform: nat -> real,
                    s: TapState, s': TapState, v: nat, a: nat, b: nat)
    requires BendStep(dist, fermat, t, uniform, s, s', v) && s'.taps == s.taps
    requires v < |s.points| && a < b < |s.points| && Link(v, a) in s.edges && Link(v, b) in s.edges
    requires WorthTapping(dist, t.minSavingKm, s.points[v], s.points[a], s.points[b],
                          fermat(s.points[v], s.points[a], s.points[b]))
    ensures uniform(s.draws) >= t.tapShare && s' == s.(draws := s.draws + 1)
  {
    SharpIsWorthTapping(dist, t, s.points[v], s.points[a], s.points[b],
                        fermat(s.points[v], s.points[a], s.points[b]));
    assert SharpBend(dist, fermat, t, s.points, s.edges, v, a, b);
  }

  // ------------------------------------------------------------ straight passes

  /** `s` is beside `v`: the spur length off, square to the line from `a` to `b`, on
      its left or its right. */
  ghost predicate IsBeside(dist: Metric, spurKm: real, v: Point, a: Point, b: Point, left: bool, s: Point) {
    var (dx, dy, ex, ey) := (b.x - a.x, b.y - a.y, s.x - v.x, s.y - v.y);
    && dist(s, v) == spurKm && dx * ex + dy * ey == 0.0
    && dx * ey - dy * ex == if left then dist(b, a) * spurKm else -(dist(b, a) * spurKm)
  }

  lemma BesideIsBeside(dist: Metric, t: Tuning, v: Point, a: Point, b: Point, left: bool)
    requires Euclidean(dist) && t.Valid() && dist(b, a) > 0.000000001
    ensures IsBeside(dist, t.spurKm, v, a, b, left, Beside(dist, t, v, a, b, left))
  {
    var dx, dy, d := b.x - a.x, b.y - a.y, dist(b, a);
    var side := if left then 1.0 else -1.0;
    var s := Beside(dist, t, v, a, b, left);
    var u, w := dx / d, dy / d;
    DistIsNorm(dist, b, a, dx, dy);
    UnitVector(dx, dy, d, u, w);
    var ex, ey := -w * t.spurKm * side, u * t.spurKm * side;
    assert s.x - v.x == ex && s.y - v.y == ey;
    DistIsNorm(dist, s, v, ex, ey);
    Square(u, w, t.spurKm, side);
    NormUnique(ex, ey, dist(s, v), t.spurKm);
    Turned(dx, dy, d, u, w, t.spurKm, side);
  }

  lemma UnitVector(dx: real, dy: real, d: real, u: real, w: real)
    requires d > 0.0 && Norm(dx, dy, d) && u == dx / d && w == dy / d
    ensures u * d == dx && w * d == dy && Sq(u) + Sq(w) == 1.0
  {
    SquareOfQuotient(dx, d, u);
    SquareOfQuotient(dy, d, w);
    Cancelled(Sq(u), Sq(w), Sq(d), Sq(dx), Sq(dy));
  }

  lemma SquareOfQuotient(x: real, d: real, q: real)
    requires d > 0.0 && q == x / d
    ensures q * d == x && Sq(d) > 0.0 && Sq(q) * Sq(d) == Sq(x)
  {
    SquarePositive(d);
    assert q * d == x;
    SquareOfProduct(q, d);
  }

  lemma Cancelled(x: real, y: real, z: real, p: real, q: real)
    requires z > 0.0 && x * z == p && y * z == q && p + q == z
    ensures x + y == 1.0
  {
    var e := x + y - 1.0;
    assert e * z == 0.0;
    ProductSign(e, z);
    ProductSign(-e, z);
  }

  lemma Square(u: real, w: real, spur: real, side: real)
    requires Sq(u) + Sq(w) == 1.0 && spur >= 0.0 && (side == 1.0 || side == -1.0)
    ensures Norm(-w * spur * side, u * spur * side, spur)
  {
    var k := spur * side;
    SquareOfProduct(w, k);
    SquareOfProduct(u, k);
    assert Sq(k) == Sq(spur);
    assert (Sq(u) + Sq(w)) * Sq(k) == Sq(k);
    assert -w * spur * side == -(w * k) && u * spur * side == u * k;
  }

  lemma Turned(dx: real, dy: real, d: real, u: real, w: real, spur: real, side: real)
    requires u * d == dx && w * d == dy && Sq(u) + Sq(w) == 1.0
    ensures var (ex, ey) := (-w * spur * side, u * spur * side);
            dx * ex + dy * ey == 0.0 && dx * ey - dy * ex == d * spur * side
  {
    var k := spur * side;
    var (ex, ey) := (-w * spur * side, u * spur * side);
    assert ex == -(w * k) && ey == u * k;
    assert dx * ex == -(u * w) * (d * k) && dy * ey == (u * w) * (d * k);
    assert dx * ey == Sq(u) * (d * k) && dy * ex == -(Sq(w) * (d * k));
    assert dx * ey - dy * ex == (Sq(u) + Sq(w)) * (d * k);
  }

  /** A straight pass tapped in one visit: `v` is not protected, has exactly the
      neighbours `a` and `b`, and the tap stands beside it on the side drawn. */
  ghost predicate PassReplaced(dist: Metric, t: Tuning, uniform: nat -> real, protected: set<nat>, s: TapState,
                               s': TapState, v: nat, a: nat, b: nat) {
    && v < |s.points| && a < |s.points| && b < |s.points| && a != b && v !in protected
    && (forall y: nat :: Link(v, y) in s.edges <==> y == a || y == b) && uniform(s.draws) < t.straightShare
    && |s'.points| == |s.points| + 1 && s'.points[..|s.points|] == s.points && s'.taps == s.taps + [v]
    && (dist(s.points[b], s.points[a]) > 0.000000001 ==>
          IsBeside(dist, t.spurKm, s.points[v], s.points[a], s.points[b], uniform(s.draws + 1) < 0.5,
                   s'.points[|s.points|]))
    && s'.edges == s.edges - {Link(v, a), Link(v, b)}
                   + {Link(|s.points|, v), Link(|s.points|, a), Link(|s.points|, b)}
  }

  /** Every visit that taps a straight pass is such a replacement. */
  lemma VisitReplacesPass(dist: Metric, t: Tuning, uniform: nat -> real, protected: set<nat>, s: TapState,
                          s': TapState, v: nat) returns (a: nat, b: nat)
    requires Euclidean(dist) && t.Valid() && StraightStep(dist, t, uniform, protected, s, s', v) && s'.taps != s.taps
    ensures PassReplaced(dist, t, uniform, protected, s, s', v, a, b) && s'.draws == s.draws + 2
  {
    a, b :| Passes(s.edges, v, a, b) && v < |s.points| && a < |s.points| && b < |s.points| &&
            s' == TapState(s.draws + 2,
                           s.points + [Beside(dist, t, s.points[v], s.points[a], s.points[b],
                                              uniform(s.draws + 1) < 0.5)],
                           Tapped(s.edges, v, a, b, |s.points|), s.taps + [v]);
    if dist(s.points[b], s.points[a]) > 0.000000001 {
      BesideIsBeside(dist, t, s.points[v], s.points[a], s.points[b], uniform(s.draws + 1) < 0.5);
    }
  }
}
