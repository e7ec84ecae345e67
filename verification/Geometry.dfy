/**
 Projected points. `hypot` is a parameter pinned down by its defining property,
 so every fact used about it (symmetry, convexity, the bound by a coordinate
 difference) is derived, not assumed.
 */
module Geometry {

  datatype Point = Point(x: real, y: real)

  type Metric = (Point, Point) -> real

  function Sq(x: real): real { x * x }

  /** The vector from `q` to `p`. */
  function Gap(p: Point, q: Point): Point {
    Point(p.x - q.x, p.y - q.y)
  }

  /** `d` is the length of the vector `(x, y)`. */
  ghost predicate Norm(x: real, y: real, d: real) {
    d >= 0.0 && Sq(d) == Sq(x) + Sq(y)
  }

  /** `dist` is the Euclidean distance. */
  ghost predicate Euclidean(dist: Metric) {
    forall p, q {:trigger Gap(p, q)} :: Norm(Gap(p, q).x, Gap(p, q).y, dist(p, q))
  }

  lemma DistIsNorm(dist: Metric, p: Point, q: Point, x: real, y: real)
    requires Euclidean(dist) && x == p.x - q.x && y == p.y - q.y
    ensures Norm(x, y, dist(p, q))
  {
    assert Gap(p, q) == Point(x, y);
  }

  lemma ProductSign(a: real, b: real)
    ensures a > 0.0 && b > 0.0 ==> a * b > 0.0
    ensures a >= 0.0 && b >= 0.0 ==> a * b >= 0.0
  {
  }

  lemma SquaresOrder(x: real, y: real)
    requires Sq(x) <= Sq(y) && y >= 0.0
    ensures x <= y
  {
    var u, v := x - y, x + y;
    assert u * v == x * x - y * y;
    ProductSign(u, v);
  }

  lemma SquarePositive(d: real)
    requires d > 0.0
    ensures Sq(d) > 0.0
  {
    if Sq(d) <= Sq(0.0) {
      SquaresOrder(d, 0.0);
    }
  }

  lemma DistSymmetric(dist: Metric, p: Point, q: Point)
    requires Euclidean(dist)
    ensures dist(p, q) == dist(q, p)
  {
    var x, y := dist(p, q), dist(q, p);
    DistIsNorm(dist, p, q, p.x - q.x, p.y - q.y);
    DistIsNorm(dist, q, p, q.x - p.x, q.y - p.y);
    assert Sq(p.x - q.x) == Sq(q.x - p.x) && Sq(p.y - q.y) == Sq(q.y - p.y);
    SquaresOrder(x, y);
    SquaresOrder(y, x);
  }

  /** A vector has one length. */
  lemma NormUnique(x: real, y: real, d: real, e: real)
    requires Norm(x, y, d) && Norm(x, y, e)
    ensures d == e
  {
    SquaresOrder(d, e);
    SquaresOrder(e, d);
  }

  lemma NormScaled(x: real, y: real, d: real, k: real)
    requires Norm(x, y, d) && k >= 0.0
    ensures Norm(k * x, k * y, k * d)
  {
    ProductSign(k, d);
    SquareOfProduct(k, x);
    SquareOfProduct(k, y);
    SquareOfProduct(k, d);
    assert Sq(k) * Sq(d) == Sq(k) * (Sq(x) + Sq(y));
  }

  lemma SquareOfProduct(k: real, x: real)
    ensures Sq(k * x) == Sq(k) * Sq(x)
  {
  }

  /** A point a share `k` of the way from `p` to `q` is that share of their distance off. */
  lemma DistAlong(dist: Metric, p: Point, q: Point, k: real, s: Point)
    requires Euclidean(dist) && k >= 0.0
    requires s.x == p.x + k * (q.x - p.x) && s.y == p.y + k * (q.y - p.y)
    ensures dist(s, p) == k * dist(q, p)
  {
    DistIsNorm(dist, q, p, q.x - p.x, q.y - p.y);
    NormScaled(q.x - p.x, q.y - p.y, dist(q, p), k);
    DistIsNorm(dist, s, p, k * (q.x - p.x), k * (q.y - p.y));
    NormUnique(k * (q.x - p.x), k * (q.y - p.y), dist(s, p), k * dist(q, p));
  }

  /** Coordinates never differ by more than the distance. */
  lemma DistBoundsCoordinates(dist: Metric, p: Point, q: Point)
    requires Euclidean(dist)
    ensures -dist(p, q) <= p.x - q.x <= dist(p, q) && -dist(p, q) <= p.y - q.y <= dist(p, q)
  {
    var d := dist(p, q);
    DistIsNorm(dist, p, q, p.x - q.x, p.y - q.y);
    assert Sq(p.x - q.x) >= 0.0 && Sq(p.y - q.y) >= 0.0;
    SquaresOrder(p.x - q.x, d);
    SquaresOrder(p.y - q.y, d);
    assert Sq(q.x - p.x) == Sq(p.x - q.x) && Sq(q.y - p.y) == Sq(p.y - q.y);
    SquaresOrder(q.x - p.x, d);
    SquaresOrder(q.y - p.y, d);
  }

  /** Cauchy-Schwarz for two plane vectors and their norms. */
  lemma DotBound(ax: real, ay: real, bx: real, bv: real, m: real, n: real)
    requires m >= 0.0 && n >= 0.0 && Sq(m) == Sq(ax) + Sq(ay) && Sq(n) == Sq(bx) + Sq(bv)
    ensures ax * bx + ay * bv <= m * n
  {
    var dot := ax * bx + ay * bv;
    calc {
      Sq(m * n);
      Sq(m) * Sq(n);
      (Sq(ax) + Sq(ay)) * (Sq(bx) + Sq(bv));
      Sq(dot) + Sq(ax * bv - ay * bx);
    }
    assert Sq(ax * bv - ay * bx) >= 0.0;
    assert m * n >= 0.0;
    SquaresOrder(dot, m * n);
  }

  lemma SquareExpand(j: real, k: real, ax: real, ay: real, bx: real, bv: real)
    ensures Sq(j * ax + k * bx) + Sq(j * ay + k * bv)
         == Sq(j) * (Sq(ax) + Sq(ay)) + 2.0 * (j * k) * (ax * bx + ay * bv) + Sq(k) * (Sq(bx) + Sq(bv))
  {
  }

  lemma WeightedNorm(j: real, k: real, m: real, n: real, dot: real)
    requires j >= 0.0 && k >= 0.0 && dot <= m * n
    ensures Sq(j) * Sq(m) + 2.0 * (j * k) * dot + Sq(k) * Sq(n) <= Sq(j * m + k * n)
  {
    var jk, slack := j * k, m * n - dot;
    ProductSign(j, k);
    ProductSign(jk, slack);
    assert Sq(j * m + k * n) == Sq(j) * Sq(m) + 2.0 * (jk * (m * n)) + Sq(k) * Sq(n);
    assert jk * slack == jk * (m * n) - jk * dot;
  }

  lemma Scale(c: real, x: real, y: real)
    requires x == y
    ensures c * x == c * y
  {
  }

  lemma BetweenOffset(p: real, q: real, o: real, k: real)
    ensures p + k * (q - p) - o == (1.0 - k) * (p - o) + k * (q - o)
  {
  }

  /** The norm of a convex combination is at most the combination of the norms. */
  lemma NormConvex(j: real, k: real, ax: real, ay: real, bx: real, bv: real, cx: real, cy: real, m: real, n: real,
                   d: real)
    requires j >= 0.0 && k >= 0.0 && Norm(ax, ay, m) && Norm(bx, bv, n) && Norm(cx, cy, d)
    requires cx == j * ax + k * bx && cy == j * ay + k * bv
    ensures d <= j * m + k * n
  {
    var dot := ax * bx + ay * bv;
    calc {
      Sq(d);
      Sq(cx) + Sq(cy);
      Sq(j * ax + k * bx) + Sq(j * ay + k * bv);
    ==  { SquareExpand(j, k, ax, ay, bx, bv); }
      Sq(j) * (Sq(ax) + Sq(ay)) + 2.0 * (j * k) * dot + Sq(k) * (Sq(bx) + Sq(bv));
    ==  { Scale(Sq(j), Sq(m), Sq(ax) + Sq(ay)); Scale(Sq(k), Sq(n), Sq(bx) + Sq(bv)); }
      Sq(j) * Sq(m) + 2.0 * (j * k) * dot + Sq(k) * Sq(n);
    <=  { DotBound(ax, ay, bx, bv, m, n); WeightedNorm(j, k, m, n, dot); }
      Sq(j * m + k * n);
    }
    ProductSign(j, m);
    ProductSign(k, n);
    SquaresOrder(d, j * m + k * n);
  }

  /** Seen from `o`, the three points are vectors of the given norms, the third
      the combination `j`, `k` of the others. */
  ghost predicate Mixed(j: real, k: real, m: real, n: real, d: real) {
    exists a: Point, b: Point, c: Point :: MixedBy(j, k, m, n, d, a, b, c)
  }

  ghost predicate MixedBy(j: real, k: real, m: real, n: real, d: real, a: Point, b: Point, c: Point) {
    && Norm(a.x, a.y, m) && Norm(b.x, b.y, n) && Norm(c.x, c.y, d)
    && c.x == j * a.x + k * b.x && c.y == j * a.y + k * b.y
  }

  lemma MixedConvex(j: real, k: real, m: real, n: real, d: real)
    requires j >= 0.0 && k >= 0.0 && Mixed(j, k, m, n, d)
    ensures d <= j * m + k * n
  {
    var a: Point, b: Point, c: Point :| MixedBy(j, k, m, n, d, a, b, c);
    NormConvex(j, k, a.x, a.y, b.x, b.y, c.x, c.y, m, n, d);
  }

  lemma GapOfBetween(p: Point, q: Point, k: real, s: Point, o: Point)
    requires s.x == p.x + k * (q.x - p.x) && s.y == p.y + k * (q.y - p.y)
    ensures Gap(s, o).x == (1.0 - k) * Gap(p, o).x + k * Gap(q, o).x
    ensures Gap(s, o).y == (1.0 - k) * Gap(p, o).y + k * Gap(q, o).y
  {
    BetweenOffset(p.x, q.x, o.x, k);
    BetweenOffset(p.y, q.y, o.y, k);
  }

  lemma GapNorm(dist: Metric, p: Point, q: Point, v: Point)
    requires Euclidean(dist) && v == Gap(p, q)
    ensures Norm(v.x, v.y, dist(p, q))
  {
  }

  lemma BetweenIsMixed(dist: Metric, p: Point, q: Point, s: Point, o: Point, j: real, k: real, a: Point, b: Point,
                       c: Point)
    requires Euclidean(dist) && a == Gap(p, o) && b == Gap(q, o) && c == Gap(s, o)
    requires c.x == j * a.x + k * b.x && c.y == j * a.y + k * b.y
    ensures Mixed(j, k, dist(p, o), dist(q, o), dist(s, o))
  {
    GapNorm(dist, p, o, a);
    GapNorm(dist, q, o, b);
    GapNorm(dist, s, o, c);
    assert MixedBy(j, k, dist(p, o), dist(q, o), dist(s, o), a, b, c);
  }

  /** The distance to a fixed point `o` is convex along a segment: `s` is the
      point a share `k` of the way from `p` to `q`. */
  lemma DistConvex(dist: Metric, p: Point, q: Point, k: real, s: Point, o: Point)
    requires Euclidean(dist) && 0.0 <= k <= 1.0
    requires s.x == p.x + k * (q.x - p.x) && s.y == p.y + k * (q.y - p.y)
    ensures dist(s, o) <= (1.0 - k) * dist(p, o) + k * dist(q, o)
  {
    GapOfBetween(p, q, k, s, o);
    BetweenIsMixed(dist, p, q, s, o, 1.0 - k, k, Gap(p, o), Gap(q, o), Gap(s, o));
    MixedConvex(1.0 - k, k, dist(p, o), dist(q, o), dist(s, o));
  }

  /** Distance from a point to itself. */
  lemma DistSelf(dist: Metric, p: Point)
    requires Euclidean(dist)
    ensures dist(p, p) == 0.0
  {
    var d := dist(p, p);
    DistIsNorm(dist, p, p, 0.0, 0.0);
    SquaresOrder(d, 0.0);
  }
}
