/**
 The split of every place's demand among the points near it. Every place counts
 once, however many points surround it.
 */
module PlaceDemand {
  import opened Geometry
  import opened Sums

  datatype City = City(at: Point, weight: real)

  type Cell = (int, int)
  type Buckets = map<Cell, seq<nat>>

  /** Great-circle distance in kilometres, never negative, and the grid cell of a point. */
  datatype Map = Map(km: Metric, cell: Point -> Cell) {
    ghost predicate Valid() {
      forall p, q :: km(p, q) >= 0.0
    }
  }

  ghost predicate Distinct(list: seq<nat>) {
    forall i, j | 0 <= i < j < |list| :: list[i] != list[j]
  }

  ghost predicate BucketOk(m: Map, points: seq<Point>, buckets: Buckets, n: nat, c: Cell)
    requires c in buckets && n <= |points|
  {
    Distinct(buckets[c]) && forall k: nat :: k in buckets[c] <==> k < n && m.cell(points[k]) == c
  }

  /** The first `n` points are filed, each in its own cell. */
  ghost predicate Filed(m: Map, points: seq<Point>, buckets: Buckets, n: nat) {
    && n <= |points| && (forall c | c in buckets :: BucketOk(m, points, buckets, n, c))
    && (forall k: nat | k < n :: m.cell(points[k]) in buckets)
  }

  lemma FileOne(m: Map, points: seq<Point>, buckets: Buckets, k: nat, c: Cell)
    requires Filed(m, points, buckets, k) && k < |points| && c == m.cell(points[k])
    ensures Filed(m, points, buckets[c := (if c in buckets then buckets[c] else []) + [k]], k + 1)
  {
  }

  method FilePoints(m: Map, points: seq<Point>) returns (buckets: Buckets)
    ensures Filed(m, points, buckets, |points|)
  {
    buckets := map[];
    for k := 0 to |points|
      invariant Filed(m, points, buckets, k)
    {
      var c := m.cell(points[k]);
      FileOne(m, points, buckets, k, c);
      buckets := buckets[c := (if c in buckets then buckets[c] else []) + [k]];
    }
  }

  /** Points near a place, each with its weight `1 / (1 + d)`. */
  type Near = seq<(nat, real)>

  ghost predicate Listed(near: Near, k: nat) {
    exists i :: 0 <= i < |near| && near[i].0 == k
  }

  ghost predicate EntryOk(m: Map, points: seq<Point>, at: Point, radius: real, e: (nat, real)) {
    e.0 < |points| && 0.0 <= m.km(at, points[e.0]) <= radius && e.1 == 1.0 / (1.0 + m.km(at, points[e.0]))
  }

  /** `near` lists exactly the candidates `s` within the radius, each once. */
  ghost predicate NearOf(m: Map, points: seq<Point>, at: Point, radius: real, near: Near, s: set<nat>) {
    && (forall i, j | 0 <= i < j < |near| :: near[i].0 != near[j].0)
    && (forall i | 0 <= i < |near| :: near[i].0 in s && EntryOk(m, points, at, radius, near[i]))
    && (forall k | k in s && k < |points| && m.km(at, points[k]) <= radius :: Listed(near, k))
  }

  lemma NearMore(m: Map, points: seq<Point>, at: Point, radius: real, near: Near, s: set<nat>, k: nat)
    requires m.Valid() && NearOf(m, points, at, radius, near, s) && k !in s && k < |points|
    ensures m.km(at, points[k]) > radius ==> NearOf(m, points, at, radius, near, s + {k})
    ensures m.km(at, points[k]) <= radius
            ==> NearOf(m, points, at, radius, near + [(k, 1.0 / (1.0 + m.km(at, points[k])))], s + {k})
  {
    var more := near + [(k, 1.0 / (1.0 + m.km(at, points[k])))];
    forall j | j in s && j < |points| && m.km(at, points[j]) <= radius
      ensures Listed(more, j)
    {
      var i :| 0 <= i < |near| && near[i].0 == j;
      assert more[i].0 == j;
    }
    assert more[|near|].0 == k;
  }

  /** The points of one cell. */
  ghost function PointsIn(m: Map, points: seq<Point>, c: Cell): set<nat> {
    set k: nat | k < |points| && m.cell(points[k]) == c
  }

  /** Add the points of one more cell that are within the radius. */
  method NearInCell(m: Map, points: seq<Point>, buckets: Buckets, at: Point, radius: real, c: Cell, near0: Near,
                    ghost s: set<nat>) returns (near: Near)
    requires m.Valid() && Filed(m, points, buckets, |points|) && s !! PointsIn(m, points, c)
             && NearOf(m, points, at, radius, near0, s)
    ensures NearOf(m, points, at, radius, near, s + PointsIn(m, points, c))
  {
    near := near0;
    if c in buckets {
      assert BucketOk(m, points, buckets, |points|, c);
      ghost var added: set<nat> := {};
      for i := 0 to |buckets[c]|
        invariant added == set k | k in buckets[c][..i]
        invariant NearOf(m, points, at, radius, near, s + added)
      {
        var k := buckets[c][i];
        assert k in buckets[c] && k in PointsIn(m, points, c) && k !in added;
        NearMore(m, points, at, radius, near, s + added, k);
        var d := m.km(at, points[k]);
        if d <= radius {
          near := near + [(k, 1.0 / (1.0 + d))];
        }
        assert buckets[c][..i + 1] == buckets[c][..i] + [k];
        assert s + (added + {k}) == (s + added) + {k};
        added := added + {k};
      }
      assert buckets[c][..|buckets[c]|] == buckets[c];
      assert added == PointsIn(m, points, c);
    } else {
      assert PointsIn(m, points, c) == {};
      assert s + {} == s;
    }
  }

  /** Cell `e` is in the rows before `dx`, or in row `dx` before `dy`, of the nine around `c`. */
  ghost predicate InBlock(c: Cell, e: Cell, dx: int, dy: int) {
    -1 <= e.0 - c.0 <= 1 && -1 <= e.1 - c.1 <= 1 && (e.0 - c.0 < dx || (e.0 - c.0 == dx && e.1 - c.1 < dy))
  }

  ghost function BlockPoints(m: Map, points: seq<Point>, c: Cell, dx: int, dy: int): set<nat> {
    set k: nat | k < |points| && InBlock(c, m.cell(points[k]), dx, dy)
  }

  /** The points in the nine cells around a place. */
  ghost function Around(m: Map, points: seq<Point>, at: Point): set<nat> {
    set k: nat | k < |points| && -1 <= m.cell(points[k]).0 - m.cell(at).0 <= 1
                 && -1 <= m.cell(points[k]).1 - m.cell(at).1 <= 1
  }

  lemma AroundIsBlock(m: Map, points: seq<Point>, at: Point)
    ensures Around(m, points, at) == BlockPoints(m, points, m.cell(at), 2, -1)
  {
  }

  lemma NextCell(m: Map, points: seq<Point>, c: Cell, dx: int, dy: int)
    requires -1 <= dx <= 1 && -1 <= dy <= 1
    ensures BlockPoints(m, points, c, dx, dy) !! PointsIn(m, points, (c.0 + dx, c.1 + dy))
    ensures BlockPoints(m, points, c, dx, dy) + PointsIn(m, points, (c.0 + dx, c.1 + dy))
         == BlockPoints(m, points, c, dx, dy + 1)
  {
  }

  lemma NextRow(m: Map, points: seq<Point>, c: Cell, dx: int)
    requires -1 <= dx <= 1
    ensures BlockPoints(m, points, c, dx, 2) == BlockPoints(m, points, c, dx + 1, -1)
  {
  }

  /** The points in the nine cells around a place that are within the radius. */
  method NearPoints(m: Map, points: seq<Point>, buckets: Buckets, at: Point, radius: real) returns (near: Near)
    requires m.Valid() && Filed(m, points, buckets, |points|)
    ensures NearOf(m, points, at, radius, near, Around(m, points, at))
  {
    var c := m.cell(at);
    near := [];
    for dx := -1 to 2
      invariant NearOf(m, points, at, radius, near, BlockPoints(m, points, c, dx, -1))
    {
      for dy := -1 to 2
        invariant NearOf(m, points, at, radius, near, BlockPoints(m, points, c, dx, dy))
      {
        NextCell(m, points, c, dx, dy);
        near := NearInCell(m, points, buckets, at, radius, (c.0 + dx, c.1 + dy), near,
                           BlockPoints(m, points, c, dx, dy));
      }
      NextRow(m, points, c, dx);
    }
    AroundIsBlock(m, points, at);
  }

  /** `k` is the point nearest to `at`, lowest index on ties. */
  ghost predicate Closest(m: Map, points: seq<Point>, at: Point, k: nat) {
    k < |points| && forall j | 0 <= j < |points| ::
      m.km(at, points[k]) < m.km(at, points[j]) || (m.km(at, points[k]) == m.km(at, points[j]) && k <= j)
  }

  method ClosestPoint(m: Map, points: seq<Point>, at: Point) returns (k: nat)
    requires |points| > 0
    ensures Closest(m, points, at, k)
  {
    k := 0;
    for j := 1 to |points|
      invariant k < j && forall i | 0 <= i < j ::
                  m.km(at, points[k]) < m.km(at, points[i]) || (m.km(at, points[k]) == m.km(at, points[i]) && k <= i)
    {
      if m.km(at, points[j]) < m.km(at, points[k]) {
        k := j;
      }
    }
  }

  ghost function Weights(near: Near): seq<real> {
    seq(|near|, i requires 0 <= i < |near| => near[i].1)
  }

  method TotalWeight(near: Near) returns (total: real)
    ensures total == Sum(Weights(near))
  {
    total := 0.0;
    for i := 0 to |near|
      invariant total == Sum(Weights(near)[..i])
    {
      SumPrefix(Weights(near), i);
      total := total + near[i].1;
    }
    assert Weights(near)[..|near|] == Weights(near);
  }

  lemma {:induction false} PositiveSum(s: seq<real>)
    requires forall i | 0 <= i < |s| :: s[i] > 0.0
    ensures Sum(s) >= 0.0 && (s != [] ==> Sum(s) > 0.0)
  {
    if s != [] {
      PositiveSum(s[..|s| - 1]);
    }
  }

  /** The part `w` of `total` takes of a weight. */
  ghost function Share(weight: real, w: real, total: real): real
    requires total > 0.0
  {
    weight * w / total
  }

  lemma Shares(weight: real, a: real, b: real, total: real)
    requires total > 0.0
    ensures Share(weight, a, total) + Share(weight, b, total) == Share(weight, a + b, total)
    ensures Share(weight, total, total) == weight && Share(weight, 0.0, total) == 0.0
    ensures weight >= 0.0 && a >= 0.0 ==> Share(weight, a, total) >= 0.0
  {
    var x, y := weight * a, weight * b;
    assert x / total + y / total == (x + y) / total;
    assert weight * (a + b) == x + y;
  }

  /** A place's demand lands on the near points by weight, or all on the closest
      point when none is near; no other point changes. */
  ghost predicate Landed(m: Map, points: seq<Point>, c: City, near: Near, was: seq<real>, out: seq<real>, i: nat) {
    && |out| == |was| == |points| && i <= |near| && (forall j | 0 <= j < |near| :: near[j].0 < |points|)
    && (forall k: nat | k < |out| && !Listed(near[..i], k) :: out[k] == was[k])
    && (forall j: nat | j < i :: LandedAt(c, near, was, out, j))
  }

  ghost predicate LandedAt(c: City, near: Near, was: seq<real>, out: seq<real>, j: nat)
    requires j < |near| && near[j].0 < |out| == |was|
  {
    Sum(Weights(near)) > 0.0 && out[near[j].0] == was[near[j].0] + Share(c.weight, near[j].1, Sum(Weights(near)))
  }

  lemma ListedStays(near: Near, i: nat, k: nat)
    requires i < |near|
    ensures Listed(near[..i], k) ==> Listed(near[..i + 1], k)
    ensures Listed(near[..i + 1], near[i].0)
  {
  }

  lemma LandOne(m: Map, points: seq<Point>, c: City, near: Near, was: seq<real>, out: seq<real>, i: nat)
    requires Landed(m, points, c, near, was, out, i) && i < |near| && Sum(Weights(near)) > 0.0
    requires forall p, q | 0 <= p < q < |near| :: near[p].0 != near[q].0
    ensures Landed(m, points, c, near, was,
                   out[near[i].0 := out[near[i].0] + Share(c.weight, near[i].1, Sum(Weights(near)))], i + 1)
  {
    var k := near[i].0;
    var next := out[k := out[k] + Share(c.weight, near[i].1, Sum(Weights(near)))];
    assert !Listed(near[..i], k);
    ListedStays(near, i, k);
    forall x: nat | x < |out| && !Listed(near[..i + 1], x)
      ensures next[x] == was[x]
    {
      ListedStays(near, i, x);
    }
    forall j: nat | j < i + 1
      ensures LandedAt(c, near, was, next, j)
    {
      assert j < i ==> LandedAt(c, near, was, out, j);
    }
  }

  /** What the first `i` near points get of a place's demand. */
  ghost function Portion(weight: real, near: Near, total: real, i: nat): real
    requires i <= |near| && total > 0.0
  {
    if i == 0 then 0.0 else Portion(weight, near, total, i - 1) + Share(weight, near[i - 1].1, total)
  }

  lemma {:induction false} PortionIsShare(weight: real, near: Near, total: real, i: nat)
    requires i <= |near| && total > 0.0
    ensures Portion(weight, near, total, i) == Share(weight, Sum(Weights(near)[..i]), total)
  {
    Shares(weight, 0.0, 0.0, total);
    if i > 0 {
      PortionIsShare(weight, near, total, i - 1);
      SumPrefix(Weights(near), i - 1);
      Shares(weight, Sum(Weights(near)[..i - 1]), near[i - 1].1, total);
    }
  }

  lemma WholePortion(weight: real, near: Near, total: real)
    requires total == Sum(Weights(near)) > 0.0
    ensures Portion(weight, near, total, |near|) == weight
  {
    PortionIsShare(weight, near, total, |near|);
    assert Weights(near)[..|near|] == Weights(near);
    Shares(weight, 0.0, 0.0, total);
  }

  /** The first `i` near points have their shares. */
  ghost predicate Sharing(m: Map, points: seq<Point>, c: City, near: Near, was: seq<real>, out: seq<real>, i: nat) {
    && Landed(m, points, c, near, was, out, i) && Sum(Weights(near)) > 0.0
    && Sum(out) == Sum(was) + Portion(c.weight, near, Sum(Weights(near)), i)
  }

  lemma ShareOne(m: Map, points: seq<Point>, c: City, near: Near, was: seq<real>, out: seq<real>, i: nat, x: real)
    requires Sharing(m, points, c, near, was, out, i) && i < |near|
             && x == Share(c.weight, near[i].1, Sum(Weights(near)))
    requires forall p, q | 0 <= p < q < |near| :: near[p].0 != near[q].0
    ensures near[i].0 < |out| && Sharing(m, points, c, near, was, out[near[i].0 := out[near[i].0] + x], i + 1)
  {
    LandOne(m, points, c, near, was, out, i);
    SumUpdate(out, near[i].0, out[near[i].0] + x);
  }

  lemma SharingDone(m: Map, points: seq<Point>, c: City, near: Near, was: seq<real>, out: seq<real>)
    requires Sharing(m, points, c, near, was, out, |near|)
    ensures Landed(m, points, c, near, was, out, |near|) && Sum(out) == Sum(was) + c.weight
  {
    WholePortion(c.weight, near, Sum(Weights(near)));
  }

  /** Demand split among near points by weight, all of it. */
  method Distribute(m: Map, points: seq<Point>, c: City, near: Near, was: seq<real>) returns (out: seq<real>)
    requires |was| == |points| && |near| > 0 && (forall i | 0 <= i < |near| :: near[i].0 < |points| && near[i].1 > 0.0)
    requires forall p, q | 0 <= p < q < |near| :: near[p].0 != near[q].0
    ensures Landed(m, points, c, near, was, out, |near|) && Sum(out) == Sum(was) + c.weight
  {
    var total := TotalWeight(near);
    PositiveSum(Weights(near));
    out := was;
    for i := 0 to |near|
      invariant Sharing(m, points, c, near, was, out, i)
    {
      var x := c.weight * near[i].1 / total;
      ShareOne(m, points, c, near, was, out, i, x);
      out := out[near[i].0 := out[near[i].0] + x];
    }
    SharingDone(m, points, c, near, was, out);
  }

  /** Where one place's demand lands. */
  ghost predicate Given(m: Map, points: seq<Point>, c: City, radius: real, was: seq<real>, out: seq<real>, near: Near) {
    && |out| == |was| == |points| && Sum(out) == Sum(was) + c.weight
    && NearOf(m, points, c.at, radius, near, Around(m, points, c.at))
    && (if near == [] then exists k: nat :: Closest(m, points, c.at, k) && out == was[k := was[k] + c.weight]
        else Landed(m, points, c, near, was, out, |near|))
  }

  lemma WeightsPositive(m: Map, points: seq<Point>, at: Point, radius: real, near: Near, s: set<nat>)
    requires NearOf(m, points, at, radius, near, s)
    ensures forall i | 0 <= i < |near| :: near[i].0 < |points| && near[i].1 > 0.0
  {
  }

  /** One place's demand, all of it, among the points near it or to the closest. */
  method GiveOne(m: Map, points: seq<Point>, buckets: Buckets, c: City, radius: real, was: seq<real>)
    returns (out: seq<real>, ghost near: Near)
    requires m.Valid() && Filed(m, points, buckets, |points|) && |was| == |points| > 0
    ensures Given(m, points, c, radius, was, out, near)
  {
    var list := NearPoints(m, points, buckets, c.at, radius);
    near := list;
    if |list| == 0 {
      var k := ClosestPoint(m, points, c.at);
      SumUpdate(was, k, was[k] + c.weight);
      out := was[k := was[k] + c.weight];
    } else {
      WeightsPositive(m, points, c.at, radius, list, Around(m, points, c.at));
      out := Distribute(m, points, c, list, was);
    }
  }

  ghost function CityWeights(cities: seq<City>): seq<real> {
    seq(|cities|, i requires 0 <= i < |cities| => cities[i].weight)
  }

  /** The running totals from place to place, each step landing one place's demand. */
  ghost predicate Steps(m: Map, points: seq<Point>, cities: seq<City>, radius: real, runs: seq<seq<real>>,
                        nears: seq<Near>, n: nat) {
    && n <= |cities| && |runs| == n + 1 && |nears| == n
    && (forall i: nat | i < n :: Given(m, points, cities[i], radius, runs[i], runs[i + 1], nears[i]))
  }

  /** Every place counts once: its demand lands near it, and the points together
      get what the places have. */
  method DemandPartition(m: Map, points: seq<Point>, cities: seq<City>, radius: real)
    returns (out: seq<real>, ghost runs: seq<seq<real>>, ghost nears: seq<Near>)
    requires m.Valid()
    ensures |out| == |points|
    ensures points != [] ==> Sum(out) == Sum(CityWeights(cities))
    ensures points != [] ==> Steps(m, points, cities, radius, runs, nears, |cities|)
                             && runs[0] == seq(|points|, _ => 0.0) && runs[|cities|] == out
  {
    out := seq(|points|, _ => 0.0);
    SumOfZeros(out);
    runs, nears := [out], [];
    if |cities| == 0 || |points| == 0 {
      return;
    }
    var buckets := FilePoints(m, points);
    for i := 0 to |cities|
      invariant |out| == |points| && Sum(out) == Sum(CityWeights(cities)[..i])
      invariant Steps(m, points, cities, radius, runs, nears, i) && runs[0] == seq(|points|, _ => 0.0) && runs[i] == out
    {
      SumPrefix(CityWeights(cities), i);
      ghost var near;
      ghost var was := out;
      out, near := GiveOne(m, points, buckets, cities[i], radius, out);
      StepsMore(m, points, cities, radius, runs, nears, i, out, near);
      runs, nears := runs + [out], nears + [near];
    }
    assert CityWeights(cities)[..|cities|] == CityWeights(cities);
  }

  lemma StepsMore(m: Map, points: seq<Point>, cities: seq<City>, radius: real, runs: seq<seq<real>>, nears: seq<Near>,
                  n: nat, out: seq<real>, near: Near)
    requires Steps(m, points, cities, radius, runs, nears, n) && n < |cities|
             && Given(m, points, cities[n], radius, runs[n], out, near)
    ensures Steps(m, points, cities, radius, runs + [out], nears + [near], n + 1)
  {
  }
}
