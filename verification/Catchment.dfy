/**
 Catchments of a level: every loaded bus at or below the level is hosted by its
 nearest member, found by searching a coarse grid ring by ring. The search is
 proved to find exactly the member a full scan would.
 */
module Catchment {
  import opened Options
  import opened Geometry
  import opened Sums

  datatype Site = Site(island: nat, tier: nat, load: real)

  /** A grid of `cols` by `rows` square cells; outer points fall in border cells. */
  datatype Grid = Grid(x0: real, y0: real, cell: real, cols: nat, rows: nat) {
    predicate Valid() {
      cell > 0.0 && cols > 0 && rows > 0
    }

    function Column(p: Point): (c: nat)
      requires Valid()
      ensures c < cols
    {
      Clamp(((p.x - x0) / cell).Floor, cols)
    }

    function Row(p: Point): (r: nat)
      requires Valid()
      ensures r < rows
    {
      Clamp(((p.y - y0) / cell).Floor, rows)
    }
  }

  function Clamp(i: int, n: nat): (c: nat)
    requires n > 0
    ensures c < n
  {
    if i < 0 then 0 else if i >= n then n - 1 else i
  }

  /** Points whose clamped cells are more than `k` apart are more than `k` cells apart. */
  lemma ClampedGap(u: real, v: real, origin: real, cell: real, n: nat, k: nat)
    requires cell > 0.0 && n > 0
    requires Clamp(((u - origin) / cell).Floor, n) >= Clamp(((v - origin) / cell).Floor, n) + k + 1
    ensures u - v > k as real * cell
  {
    var q, r := (u - origin) / cell, (v - origin) / cell;
    FloorGap(q, r, k);
    ScaleGap(q, r, cell, k as real);
    Undivide(u - origin, cell);
    Undivide(v - origin, cell);
  }

  lemma FloorGap(q: real, r: real, k: nat)
    requires q.Floor >= r.Floor + k + 1
    ensures q - r > k as real
  {
  }

  lemma ScaleGap(q: real, r: real, cell: real, k: real)
    requires q - r > k && cell > 0.0
    ensures q * cell - r * cell > k * cell
  {
    var gap := q - r - k;
    ProductSign(gap, cell);
    assert gap * cell == q * cell - r * cell - k * cell;
  }

  lemma Undivide(x: real, c: real)
    requires c > 0.0
    ensures x / c * c == x
  {
  }

  /** Cells more than `ring` apart on one axis: coordinates more than `ring` cells apart. */
  lemma AxisApart(u: real, v: real, origin: real, cell: real, n: nat, ring: nat, i: nat, j: nat)
    requires cell > 0.0 && n > 0
    requires i == Clamp(((u - origin) / cell).Floor, n) && j == Clamp(((v - origin) / cell).Floor, n)
    requires Apart(i, j) > ring
    ensures u - v > ring as real * cell || v - u > ring as real * cell
  {
    if i > j {
      ClampedGap(u, v, origin, cell, n, ring);
    } else {
      ClampedGap(v, u, origin, cell, n, ring);
    }
  }

  // ------------------------------------------------------------ the search

  /** The members of a level: positions, and the cell each is filed under in a
      grid of `cols` by `rows`. */
  datatype Search = Search(dist: Metric, at: seq<Point>, col: seq<nat>, row: seq<nat>, cols: nat, rows: nat) {
    ghost predicate Valid() {
      && |col| == |row| == |at| && cols > 0 && rows > 0
      && (forall l | 0 <= l < |at| :: col[l] < cols && row[l] < rows)
    }

    /** The cells are those of `g`. */
    ghost predicate FiledIn(g: Grid) {
      && Valid() && g.Valid() && cols == g.cols && rows == g.rows && Euclidean(dist)
      && (forall l | 0 <= l < |at| :: col[l] == g.Column(at[l]) && row[l] == g.Row(at[l]))
    }

    /** Chebyshev distance between the cells of member `l` and of the query. */
    ghost function RingOf(q: Query, l: nat): nat
      requires Valid() && l < |at|
    {
      var dc, dr := Apart(col[l], q.c), Apart(row[l], q.r);
      if dc < dr then dr else dc
    }

    /** `l` is at least as near as `m`, lower index on ties. */
    ghost predicate NoFarther(p: Point, l: nat, m: nat) {
      l < |at| && m < |at| && (dist(at[l], p) < dist(at[m], p) || (dist(at[l], p) == dist(at[m], p) && l <= m))
    }

    /** What a full scan of the members would choose. */
    ghost predicate Nearest(p: Point, l: nat) {
      l < |at| && forall m: nat | m < |at| :: NoFarther(p, l, m)
    }
  }

  /** A point to be hosted, and the cell it falls in. */
  datatype Query = Query(p: Point, c: nat, r: nat)

  function Apart(a: nat, b: nat): nat {
    if a < b then b - a else a - b
  }

  /** Nearest is one member, whatever way it is found. */
  lemma NearestIsUnique(s: Search, p: Point, l: nat, m: nat)
    requires s.Nearest(p, l) && s.Nearest(p, m)
    ensures l == m
  {
    assert s.NoFarther(p, l, m) && s.NoFarther(p, m, l);
  }

  /** A member more than `ring` cells off is farther than `ring` cells. */
  lemma RingBoundsDistance(s: Search, g: Grid, q: Query, l: nat, ring: nat)
    requires s.FiledIn(g) && q.c == g.Column(q.p) && q.r == g.Row(q.p)
    requires l < |s.at| && s.RingOf(q, l) > ring
    ensures s.dist(s.at[l], q.p) > ring as real * g.cell
  {
    if Apart(s.col[l], q.c) > ring {
      ColumnsApart(s.dist, g, s.at[l], q.p, ring);
    } else {
      RowsApart(s.dist, g, s.at[l], q.p, ring);
    }
  }

  lemma ColumnsApart(dist: Metric, g: Grid, m: Point, p: Point, ring: nat)
    requires Euclidean(dist) && g.Valid() && Apart(g.Column(m), g.Column(p)) > ring
    ensures dist(m, p) > ring as real * g.cell
  {
    AxisApart(m.x, p.x, g.x0, g.cell, g.cols, ring, g.Column(m), g.Column(p));
    FarOnAxis(dist, m, p, ring as real * g.cell);
  }

  lemma RowsApart(dist: Metric, g: Grid, m: Point, p: Point, ring: nat)
    requires Euclidean(dist) && g.Valid() && Apart(g.Row(m), g.Row(p)) > ring
    ensures dist(m, p) > ring as real * g.cell
  {
    AxisApart(m.y, p.y, g.y0, g.cell, g.rows, ring, g.Row(m), g.Row(p));
    FarOnAxis(dist, m, p, ring as real * g.cell);
  }

  lemma FarOnAxis(dist: Metric, m: Point, p: Point, reach: real)
    requires Euclidean(dist)
    requires m.x - p.x > reach || p.x - m.x > reach || m.y - p.y > reach || p.y - m.y > reach
    ensures dist(m, p) > reach
  {
    DistBoundsCoordinates(dist, m, p);
  }

  /** Member `l` has been examined once all rings before `ring`, and of that
      ring the cells before column `cc` of row `rr`, have been. */
  ghost predicate Examined(s: Search, q: Query, ring: nat, rr: nat, cc: nat, l: nat)
    requires s.Valid() && l < |s.at|
  {
    || s.RingOf(q, l) < ring
    || (s.RingOf(q, l) == ring && (s.row[l] < rr || (s.row[l] == rr && s.col[l] < cc)))
  }

  datatype Found = Found(d: real, l: nat)

  ghost predicate Beats(s: Search, p: Point, best: Option<Found>, m: nat) {
    best.Some? && s.NoFarther(p, best.value.l, m)
  }

  /** `best` is the nearest of the examined members. */
  ghost predicate BestSoFar(s: Search, q: Query, ring: nat, rr: nat, cc: nat, best: Option<Found>)
    requires s.Valid()
  {
    && (best.Some? ==> best.value.l < |s.at| && best.value.d == s.dist(s.at[best.value.l], q.p))
    && (forall m: nat | m < |s.at| && Examined(s, q, ring, rr, cc, m) :: Beats(s, q.p, best, m))
  }

  /** Moving the frontier past cells that hold nothing new. */
  lemma NothingNew(s: Search, q: Query, ring: nat, rr: nat, cc: nat, ring': nat, rr': nat, cc': nat,
                   best: Option<Found>)
    requires s.Valid() && BestSoFar(s, q, ring, rr, cc, best)
    requires forall m: nat | m < |s.at| && Examined(s, q, ring', rr', cc', m) :: Examined(s, q, ring, rr, cc, m)
    ensures BestSoFar(s, q, ring', rr', cc', best)
  {
  }

  type Buckets = map<(nat, nat), seq<nat>>

  function Bucket(grid: Buckets, c: nat, r: nat): seq<nat> {
    if (c, r) in grid then grid[(c, r)] else []
  }

  /** The first `n` members are filed, each under its cell. */
  ghost predicate Filed(s: Search, grid: Buckets, n: nat)
    requires s.Valid() && n <= |s.at|
  {
    && (forall c: nat, r: nat, i: nat | i < |Bucket(grid, c, r)| ::
          Bucket(grid, c, r)[i] < n && InCell(s, Bucket(grid, c, r)[i], c, r))
    && (forall l: nat | l < n :: l in Bucket(grid, s.col[l], s.row[l]))
  }

  ghost predicate InCell(s: Search, l: nat, c: nat, r: nat) {
    l < |s.col| && l < |s.row| && s.col[l] == c && s.row[l] == r
  }

  method FileMembers(s: Search) returns (grid: Buckets)
    requires s.Valid()
    ensures Filed(s, grid, |s.at|)
  {
    grid := map[];
    for l := 0 to |s.at|
      invariant Filed(s, grid, l)
    {
      var c, r := s.col[l], s.row[l];
      FileOne(s, grid, l);
      grid := grid[(c, r) := Bucket(grid, c, r) + [l]];
    }
  }

  lemma FileOne(s: Search, grid: Buckets, l: nat)
    requires s.Valid() && l < |s.at| && Filed(s, grid, l)
    ensures Filed(s, grid[(s.col[l], s.row[l]) := Bucket(grid, s.col[l], s.row[l]) + [l]], l + 1)
  {
    var c0, r0 := s.col[l], s.row[l];
    var next := grid[(c0, r0) := Bucket(grid, c0, r0) + [l]];
    assert Bucket(next, c0, r0) == Bucket(grid, c0, r0) + [l];
    forall c: nat, r: nat, i: nat | i < |Bucket(next, c, r)|
      ensures Bucket(next, c, r)[i] < l + 1 && InCell(s, Bucket(next, c, r)[i], c, r)
    {
      if c == c0 && r == r0 && i == |Bucket(grid, c, r)| {
        assert Bucket(next, c, r)[i] == l;
      } else {
        assert Bucket(next, c, r)[i] == Bucket(grid, c, r)[i];
      }
    }
    forall m: nat | m < l + 1
      ensures m in Bucket(next, s.col[m], s.row[m])
    {
      assert m == l || m in Bucket(grid, s.col[m], s.row[m]);
    }
  }

  /** Compare the members of one cell. */
  method ExamineCell(s: Search, grid: Buckets, q: Query, ring: nat, rr: nat, cc: nat, best0: Option<Found>)
    returns (best: Option<Found>)
    requires s.Valid() && Filed(s, grid, |s.at|) && BestSoFar(s, q, ring, rr, cc, best0)
    ensures BestSoFar(s, q, ring, rr, cc + 1, best)
  {
    best := best0;
    var list := Bucket(grid, cc, rr);
    for k := 0 to |list|
      invariant BestSoFar(s, q, ring, rr, cc, best)
      invariant forall i | 0 <= i < k :: Beats(s, q.p, best, list[i])
    {
      var l := list[k];
      assert InCell(s, l, cc, rr);
      var d := s.dist(s.at[l], q.p);
      if best.None? || d < best.value.d || (d == best.value.d && l < best.value.l) {
        best := Some(Found(d, l));
      }
    }
    CellDone(s, grid, q, ring, rr, cc, best);
  }

  lemma CellDone(s: Search, grid: Buckets, q: Query, ring: nat, rr: nat, cc: nat, best: Option<Found>)
    requires s.Valid() && Filed(s, grid, |s.at|) && BestSoFar(s, q, ring, rr, cc, best)
    requires forall i | 0 <= i < |Bucket(grid, cc, rr)| :: Beats(s, q.p, best, Bucket(grid, cc, rr)[i])
    ensures BestSoFar(s, q, ring, rr, cc + 1, best)
  {
    forall m: nat | m < |s.at| && Examined(s, q, ring, rr, cc + 1, m)
      ensures Beats(s, q.p, best, m)
    {
      if Examined(s, q, ring, rr, cc, m) {
      } else {
        assert m in Bucket(grid, s.col[m], s.row[m]);
        var i :| 0 <= i < |Bucket(grid, cc, rr)| && Bucket(grid, cc, rr)[i] == m;
      }
    }
  }

  /** Examine row `rr` of the ring, between the ring's outermost columns. */
  method ExamineRow(s: Search, grid: Buckets, q: Query, ring: nat, rr: nat, best0: Option<Found>)
    returns (best: Option<Found>)
    requires s.Valid() && Filed(s, grid, |s.at|) && BestSoFar(s, q, ring, rr, 0, best0) && q.c < s.cols
    ensures BestSoFar(s, q, ring, rr + 1, 0, best)
  {
    var lo: nat := if q.c >= ring then q.c - ring else 0;
    var hi: nat := if q.c + ring < s.cols then q.c + ring else s.cols - 1;
    best := best0;
    NothingNew(s, q, ring, rr, 0, ring, rr, lo, best);
    var cc := lo;
    while cc <= hi
      invariant lo <= cc <= hi + 1 && BestSoFar(s, q, ring, rr, cc, best)
    {
      if Apart(rr, q.r) != ring && Apart(cc, q.c) != ring {
        NothingNew(s, q, ring, rr, cc, ring, rr, cc + 1, best);
      } else {
        best := ExamineCell(s, grid, q, ring, rr, cc, best);
      }
      cc := cc + 1;
    }
    NothingNew(s, q, ring, rr, cc, ring, rr + 1, 0, best);
  }

  /** Examine one ring, row by row. */
  method ExamineRing(s: Search, grid: Buckets, q: Query, ring: nat, best0: Option<Found>) returns (best: Option<Found>)
    requires s.Valid() && Filed(s, grid, |s.at|) && BestSoFar(s, q, ring, 0, 0, best0) && q.c < s.cols && q.r < s.rows
    ensures BestSoFar(s, q, ring + 1, 0, 0, best)
  {
    var lo: nat := if q.r >= ring then q.r - ring else 0;
    var hi: nat := if q.r + ring < s.rows then q.r + ring else s.rows - 1;
    best := best0;
    NothingNew(s, q, ring, 0, 0, ring, lo, 0, best);
    var rr := lo;
    while rr <= hi
      invariant lo <= rr <= hi + 1 && BestSoFar(s, q, ring, rr, 0, best)
    {
      best := ExamineRow(s, grid, q, ring, rr, best);
      rr := rr + 1;
    }
    NothingNew(s, q, ring, rr, 0, ring + 1, 0, 0, best);
  }

  /** A hit within `ring` cells beats everything outside the rings examined. */
  lemma HitEndsSearch(s: Search, g: Grid, q: Query, ring: nat, best: Found)
    requires s.FiledIn(g) && q.c == g.Column(q.p) && q.r == g.Row(q.p)
    requires BestSoFar(s, q, ring + 1, 0, 0, Some(best)) && best.d <= ring as real * g.cell
    ensures s.Nearest(q.p, best.l)
  {
    forall m: nat | m < |s.at|
      ensures s.NoFarther(q.p, best.l, m)
    {
      if s.RingOf(q, m) > ring {
        RingBoundsDistance(s, g, q, m, ring);
      } else {
        assert Examined(s, q, ring + 1, 0, 0, m);
      }
    }
  }

  lemma AllExamined(s: Search, q: Query, ring: nat, best: Option<Found>)
    requires s.Valid() && BestSoFar(s, q, ring, 0, 0, best) && |s.at| > 0
    requires q.c < s.cols <= ring && q.r < s.rows <= ring
    ensures best.Some? && s.Nearest(q.p, best.value.l)
  {
    assert Examined(s, q, ring, 0, 0, 0);
    assert Beats(s, q.p, best, 0);
    forall m: nat | m < |s.at|
      ensures s.NoFarther(q.p, best.value.l, m)
    {
      assert Examined(s, q, ring, 0, 0, m);
      assert Beats(s, q.p, best, m);
    }
  }

  /** Search outwards until a hit lies within the rings examined, or the grid
      is exhausted: the member a full scan would choose. */
  method RingSearch(s: Search, g: Grid, grid: Buckets, q: Query) returns (best: Option<Found>)
    requires s.FiledIn(g) && Filed(s, grid, |s.at|) && |s.at| > 0
    requires q.c == g.Column(q.p) && q.r == g.Row(q.p)
    ensures best.Some? && s.Nearest(q.p, best.value.l)
  {
    best := None;
    var ring := 0;
    var last := if s.cols < s.rows then s.rows else s.cols;
    while ring <= last
      invariant ring <= last + 1 && BestSoFar(s, q, ring, 0, 0, best)
    {
      best := ExamineRing(s, grid, q, ring, best);
      if best.Some? && best.value.d <= ring as real * g.cell {
        HitEndsSearch(s, g, q, ring, best.value);
        return;
      }
      ring := ring + 1;
    }
    AllExamined(s, q, ring, best);
  }

  // ------------------------------------------------------------ catchment loads

  const MAX_CELLS := 4096

  function Ceil(x: real): int {
    -((-x).Floor)
  }

  /** A grid over the members: cells of twice their mean spacing, capped in number. */
  method LayGrid(sqrt: real -> real, at: seq<Point>) returns (grid: Grid)
    requires |at| > 0
    ensures grid.Valid()
  {
    var x0, y0, x1, y1 := at[0].x, at[0].y, at[0].x, at[0].y;
    for i := 0 to |at|
      invariant x0 <= x1 && y0 <= y1
    {
      x0 := if at[i].x < x0 then at[i].x else x0;
      y0 := if at[i].y < y0 then at[i].y else y0;
      x1 := if at[i].x > x1 then at[i].x else x1;
      y1 := if at[i].y > y1 then at[i].y else y1;
    }
    var area := (x1 - x0) * (y1 - y0);
    var side := sqrt((if area > 1.0 then area else 1.0) / |at| as real);
    var cell := (if side > 1.0 then side else 1.0) * 2.0;
    var cols, rows := Ceil((x1 - x0) / cell) + 1, Ceil((y1 - y0) / cell) + 1;
    assert (x1 - x0) / cell >= 0.0 && (y1 - y0) / cell >= 0.0;
    grid := Grid(x0, y0, cell, if cols < MAX_CELLS then cols else MAX_CELLS, if rows < MAX_CELLS then rows
                 else MAX_CELLS);
  }

  /** A bus whose load some member of the level must carry. */
  ghost predicate Eligible(b: Site, island: nat, tier: nat) {
    b.island == island && b.tier >= tier && b.load > 0.0
  }

  /** `to` sends every eligible bus, and no other, to its nearest member. */
  ghost predicate FullScan(dist: Metric, buses: seq<Site>, points: seq<Point>, members: seq<nat>, tier: nat,
                           to: seq<Option<nat>>)
    requires |points| >= |buses| && (forall l | 0 <= l < |members| :: members[l] < |buses|)
  {
    && |to| == |buses|
    && forall i | 0 <= i < |buses| ::
         if |members| > 0 && Eligible(buses[i], buses[members[0]].island, tier)
         then to[i].Some? && MemberNearest(dist, points, members, i, to[i].value)
         else to[i].None?
  }

  /** Member `l` is nearest to bus `i`, lowest index on ties: the definition, with no grid. */
  ghost predicate MemberNearest(dist: Metric, points: seq<Point>, members: seq<nat>, i: nat, l: nat)
    requires i < |points| && (forall l | 0 <= l < |members| :: members[l] < |points|)
  {
    l < |members| && forall m | 0 <= m < |members| ::
      var (d, e) := (dist(points[members[l]], points[i]), dist(points[members[m]], points[i]));
      d < e || (d == e && l <= m)
  }

  ghost function LoadsOf(buses: seq<Site>): seq<real> {
    seq(|buses|, i requires 0 <= i < |buses| => buses[i].load)
  }

  /** The load each member of a level serves: exactly the full-scan assignment,
      and so, in all, the eligible load. */
  method CatchmentLoads(dist: Metric, sqrt: real -> real, buses: seq<Site>, members: seq<nat>, points: seq<Point>,
                        tier: nat)
    returns (host: seq<real>, ghost to: seq<Option<nat>>)
    requires Euclidean(dist) && |points| >= |buses| && (forall l | 0 <= l < |members| :: members[l] < |buses|)
    ensures |host| == |members| && FullScan(dist, buses, points, members, tier, to)
    ensures Holds(host, LoadsOf(buses), to, |buses|)
  {
    host := seq(|members|, _ => 0.0);
    if |members| == 0 {
      to := seq(|buses|, _ => None);
      NothingPlaced(LoadsOf(buses), to, |buses|);
      return;
    }
    var island := buses[members[0]].island;
    var at := seq(|members|, l requires 0 <= l < |members| => points[members[l]]);
    var frame := LayGrid(sqrt, at);
    var s := Search(dist, at, seq(|at|, l requires 0 <= l < |at| => frame.Column(at[l])),
                    seq(|at|, l requires 0 <= l < |at| => frame.Row(at[l])), frame.cols, frame.rows);
    var grid := FileMembers(s);
    to := seq(|buses|, _ => None);
    HoldsNothing(|members|, LoadsOf(buses), to);
    for i := 0 to |buses|
      invariant |host| == |members| && |to| == |buses| && Holds(host, LoadsOf(buses), to, i)
      invariant forall j | i <= j < |buses| :: to[j].None?
      invariant forall j | 0 <= j < i ::
          if Eligible(buses[j], island, tier) then to[j].Some?
                                                   && MemberNearest(dist, points, members, j, to[j].value)
          else to[j].None?
    {
      var skipped := buses[i].island != island || buses[i].tier < tier || buses[i].load <= 0.0;
      host, to := HostOne(dist, buses, members, points, !skipped, s, frame, grid, i, host, to);
    }
  }

  /** Host one bus, if it is eligible. */
  method HostOne(dist: Metric, buses: seq<Site>, members: seq<nat>, points: seq<Point>, eligible: bool, s: Search,
                 frame: Grid, grid: Buckets,
                 i: nat, host0: seq<real>, ghost to0: seq<Option<nat>>)
    returns (host: seq<real>, ghost to: seq<Option<nat>>)
    requires s.FiledIn(frame) && Filed(s, grid, |s.at|) && s.dist == dist
    requires i < |buses| <= |points| && (forall l | 0 <= l < |members| :: members[l] < |points|)
    requires |s.at| == |members| > 0 && (forall m | 0 <= m < |members| :: s.at[m] == points[members[m]])
    requires |host0| == |members| && Holds(host0, LoadsOf(buses), to0, i) && to0[i].None?
    ensures |host| == |members| && |to| == |to0| && Holds(host, LoadsOf(buses), to, i + 1)
    ensures forall j | 0 <= j < |to| && j != i :: to[j] == to0[j]
    ensures if eligible then to[i].Some? && MemberNearest(dist, points, members, i, to[i].value) else to[i].None?
  {
    host, to := host0, to0;
    if eligible {
      var best := RingSearch(s, frame, grid, Query(points[i], frame.Column(points[i]), frame.Row(points[i])));
      var l := best.value.l;
      NearestAsMember(s, points, members, i, l);
      Redirect(host, LoadsOf(buses), to, i, Some(l));
      to := to[i := Some(l)];
      HoldsMore(host, LoadsOf(buses), to, i);
      host := host[l := host[l] + buses[i].load];
    } else {
      HoldsMore(host, LoadsOf(buses), to, i);
    }
  }

  lemma NearestAsMember(s: Search, points: seq<Point>, members: seq<nat>, i: nat, l: nat)
    requires i < |points| && (forall l | 0 <= l < |members| :: members[l] < |points|) && |s.at| == |members|
    requires forall m | 0 <= m < |members| :: s.at[m] == points[members[m]]
    requires s.Nearest(points[i], l)
    ensures MemberNearest(s.dist, points, members, i, l)
  {
    forall m | 0 <= m < |members|
      ensures var (d, e) := (s.dist(points[members[l]], points[i]), s.dist(points[members[m]], points[i]));
              d < e || (d == e && l <= m)
    {
      assert s.NoFarther(points[i], l, m);
    }
  }

  /** Deposits so far do not depend on where later amounts go. */
  lemma {:induction false} EarlierDeposits(amount: seq<real>, to: seq<Option<nat>>, i: nat, x: Option<nat>, s: nat,
                                           k: nat)
    requires k <= i < |amount| == |to|
    ensures Deposited(amount, to[i := x], s, k) == Deposited(amount, to, s, k)
    ensures Placed(amount, to[i := x], k) == Placed(amount, to, k)
  {
    if k > 0 {
      EarlierDeposits(amount, to, i, x, s, k - 1);
    }
  }

  lemma Redirect(out: seq<real>, amount: seq<real>, to: seq<Option<nat>>, i: nat, x: Option<nat>)
    requires Holds(out, amount, to, i) && i < |amount|
    ensures Holds(out, amount, to[i := x], i)
  {
    forall s: nat | s < |out|
      ensures Deposited(amount, to[i := x], s, i) == Deposited(amount, to, s, i)
    {
      EarlierDeposits(amount, to, i, x, s, i);
    }
    EarlierDeposits(amount, to, i, x, 0, i);
  }

  lemma {:induction false} NothingPlaced(amount: seq<real>, to: seq<Option<nat>>, k: nat)
    requires k <= |amount| == |to| && (forall j | 0 <= j < |to| :: to[j].None?)
    ensures Holds([], amount, to, k)
  {
    if k > 0 {
      NothingPlaced(amount, to, k - 1);
    }
  }
}
