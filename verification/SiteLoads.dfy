/**
 The loads of a hierarchical network's buses: the blend with nearest-bus demand,
 and the settling of a site's load on its lowest-level bus.
 */
module SiteLoads {
  import opened Options
  import opened Geometry
  import opened Sums
  import opened PlaceDemand

  // ------------------------------------------------------------ blending in nearest-bus demand

  /** A bus's load, reactive load and population weight. */
  datatype Amounts = Amounts(mw: real, mvar: real, weight: real) {
    function Plus(a: Amounts): Amounts { Amounts(mw + a.mw, mvar + a.mvar, weight + a.weight) }
  }

  const NOTHING := Amounts(0.0, 0.0, 0.0)

  /** `hosts` is false for converters and taps. */
  datatype Bus = Bus(at: Point, hosts: bool, site: nat, tier: nat, amounts: Amounts)

  ghost function Loads(buses: seq<Bus>): seq<real> {
    seq(|buses|, i requires 0 <= i < |buses| => buses[i].amounts.mw)
  }

  ghost predicate AnyHost(buses: seq<Bus>) {
    exists i :: 0 <= i < |buses| && buses[i].hosts
  }

  /** The hosting bus nearest to a point, lowest index on ties; none if no bus hosts. */
  ghost predicate NearestHost(dist: Metric, buses: seq<Bus>, p: Point, host: Option<nat>) {
    match host
    case None => !AnyHost(buses)
    case Some(k) =>
      && k < |buses| && buses[k].hosts
      && forall i | 0 <= i < |buses| && buses[i].hosts ::
           dist(buses[k].at, p) < dist(buses[i].at, p) || (dist(buses[k].at, p) == dist(buses[i].at, p) && k <= i)
  }

  ghost predicate NearestSoFar(dist: Metric, buses: seq<Bus>, p: Point, n: nat, host: Option<nat>) {
    n <= |buses| && NearestHost(dist, buses[..n], p, host)
  }

  method FindHost(dist: Metric, buses: array<Bus>, p: Point) returns (host: Option<nat>)
    ensures NearestHost(dist, buses[..], p, host)
  {
    host := None;
    for i := 0 to buses.Length
      invariant NearestSoFar(dist, buses[..], p, i, host)
    {
      assert buses[..][..i + 1] == buses[..][..i] + [buses[i]];
      if buses[i].hosts && (host.None? || dist(buses[i].at, p) < dist(buses[host.value].at, p)) {
        host := Some(i);
      }
    }
    assert buses[..][..buses.Length] == buses[..];
  }

  ghost function Positive(x: real): real {
    if x > 0.0 then x else 0.0
  }

  ghost function PositiveWeights(cities: seq<City>): seq<real> {
    seq(|cities|, i requires 0 <= i < |cities| => Positive(cities[i].weight))
  }

  method PositiveTotal(cities: seq<City>) returns (total: real)
    ensures total == Sum(PositiveWeights(cities))
  {
    total := 0.0;
    for i := 0 to |cities|
      invariant total == Sum(PositiveWeights(cities)[..i])
    {
      SumPrefix(PositiveWeights(cities), i);
      total := total + (if cities[i].weight > 0.0 then cities[i].weight else 0.0);
    }
    assert PositiveWeights(cities)[..|cities|] == PositiveWeights(cities);
  }

  /** What each place brings to its nearest bus. */
  ghost function Brought(cities: seq<City>, peak: real, total: real): seq<real>
    requires total > 0.0
  {
    seq(|cities|, i requires 0 <= i < |cities| => Share(peak, Positive(cities[i].weight), total))
  }

  /** `to` names every place's nearest hosting bus. */
  ghost predicate ToNearest(dist: Metric, buses: seq<Bus>, cities: seq<City>, to: seq<Option<nat>>) {
    |to| == |cities| && forall c | 0 <= c < |to| :: NearestHost(dist, buses, cities[c].at, to[c])
  }

  /** Every place's share of the peak, at the bus nearest to it. */
  method NearestLoads(dist: Metric, buses: array<Bus>, cities: seq<City>, peak: real, total: real,
                      ghost to: seq<Option<nat>>) returns (nearest: seq<real>)
    requires total > 0.0 && ToNearest(dist, buses[..], cities, to)
    ensures |nearest| == buses.Length && Holds(nearest, Brought(cities, peak, total), to, |cities|)
  {
    nearest := seq(buses.Length, _ => 0.0);
    HoldsNothing(buses.Length, Brought(cities, peak, total), to);
    for c := 0 to |cities|
      invariant |nearest| == buses.Length && Holds(nearest, Brought(cities, peak, total), to, c)
    {
      var host := FindHost(dist, buses, cities[c].at);
      SameHost(dist, buses[..], cities[c].at, host, to[c]);
      HoldsMore(nearest, Brought(cities, peak, total), to, c);
      if host.Some? {
        var x := peak * (if cities[c].weight > 0.0 then cities[c].weight else 0.0) / total;
        nearest := nearest[host.value := nearest[host.value] + x];
      }
    }
  }

  lemma SameHost(dist: Metric, buses: seq<Bus>, p: Point, a: Option<nat>, b: Option<nat>)
    requires NearestHost(dist, buses, p, a) && NearestHost(dist, buses, p, b)
    ensures a == b
  {
  }

  lemma {:induction false} AllBrought(cities: seq<City>, peak: real, total: real, to: seq<Option<nat>>, n: nat)
    requires total > 0.0 && n <= |cities| == |to|
    ensures (forall c | 0 <= c < |to| :: to[c].Some?) ==>
              Placed(Brought(cities, peak, total), to, n) == Share(peak, Sum(PositiveWeights(cities)[..n]), total)
    ensures (forall c | 0 <= c < |to| :: to[c].None?) ==> Placed(Brought(cities, peak, total), to, n) == 0.0
  {
    Shares(peak, 0.0, 0.0, total);
    if n > 0 {
      AllBrought(cities, peak, total, to, n - 1);
      SumPrefix(PositiveWeights(cities), n - 1);
      Shares(peak, Sum(PositiveWeights(cities)[..n - 1]), Positive(cities[n - 1].weight), total);
    }
  }

  /** The nearest-bus loads add up to the peak, unless no bus hosts load. */
  lemma NearestTotal(dist: Metric, buses: seq<Bus>, cities: seq<City>, peak: real, total: real, to: seq<Option<nat>>,
                     nearest: seq<real>)
    requires total == Sum(PositiveWeights(cities)) > 0.0 && ToNearest(dist, buses, cities, to)
    requires Holds(nearest, Brought(cities, peak, total), to, |cities|)
    ensures Sum(nearest) == if AnyHost(buses) then peak else 0.0
  {
    AllBrought(cities, peak, total, to, |cities|);
    assert PositiveWeights(cities)[..|cities|] == PositiveWeights(cities);
    Shares(peak, 0.0, 0.0, total);
    forall c | 0 <= c < |to|
      ensures to[c].Some? <==> AnyHost(buses)
    {
      assert NearestHost(dist, buses, cities[c].at, to[c]);
    }
  }

  ghost function Clamped(share: real): real {
    if share < 0.0 then 0.0 else if share > 1.0 then 1.0 else share
  }

  ghost function Mix(share: real, a: real, b: real): real {
    (1.0 - share) * a + share * b
  }

  /** The program leaves the loads alone. */
  ghost predicate Unblended(buses: seq<Bus>, share: real, cities: seq<City>) {
    Clamped(share) <= 0.0 || Sum(PositiveWeights(cities)) <= 0.0 || buses == []
  }

  /** Every bus keeps one part of its load and takes the other from the places nearest it. */
  ghost predicate Blended(was: seq<Bus>, buses: seq<Bus>, share: real, nearest: seq<real>, n: nat) {
    && |buses| == |was| == |nearest| && n <= |was|
    && (forall i | 0 <= i < |was| ::
          buses[i] == if i < n then was[i].(amounts := was[i].amounts.(mw := Mix(share, was[i].amounts.mw, nearest[i])))
          else was[i])
  }

  lemma {:induction false} MixedSum(s: seq<real>, a: seq<real>, b: seq<real>, share: real)
    requires |s| == |a| == |b| && forall i | 0 <= i < |s| :: s[i] == Mix(share, a[i], b[i])
    ensures Sum(s) == Mix(share, Sum(a), Sum(b))
  {
    if s != [] {
      var n := |s| - 1;
      MixedSum(s[..n], a[..n], b[..n], share);
      MixAdds(share, Sum(a[..n]), Sum(b[..n]), a[n], b[n]);
    }
  }

  lemma MixAdds(share: real, a: real, b: real, x: real, y: real)
    ensures Mix(share, a, b) + Mix(share, x, y) == Mix(share, a + x, b + y)
  {
  }

  /** Blend nearest-bus demand into the loads. The total becomes the same mix of
      the old total and the peak, or loses that part when no bus hosts load: a
      total equal to the peak stays so exactly if nothing is blended, some bus
      hosts load, or the peak is zero. */
  method BlendPlaceLoads(dist: Metric, buses: array<Bus>, nearestShare: real, peak: real, cities: seq<City>)
    returns (ghost to: seq<Option<nat>>, ghost nearest: seq<real>)
    modifies buses
    ensures Unblended(old(buses[..]), nearestShare, cities) ==> buses[..] == old(buses[..])
    ensures !Unblended(old(buses[..]), nearestShare, cities) ==>
              && ToNearest(dist, old(buses[..]), cities, to)
              && Holds(nearest, Brought(cities, peak, Sum(PositiveWeights(cities))), to, |cities|)
              && Blended(old(buses[..]), buses[..], Clamped(nearestShare), nearest, buses.Length)
              && Sum(Loads(buses[..])) == Mix(Clamped(nearestShare), Sum(Loads(old(buses[..]))),
                                              if AnyHost(old(buses[..])) then peak else 0.0)
    ensures Sum(Loads(old(buses[..]))) == peak ==>
              (Sum(Loads(buses[..])) == peak <==> Unblended(old(buses[..]), nearestShare, cities)
                                                  || AnyHost(old(buses[..])) || peak == 0.0)
  {
    var share := if nearestShare < 0.0 then 0.0 else if nearestShare > 1.0 then 1.0 else nearestShare;
    var total := PositiveTotal(cities);
    to, nearest := [], [];
    if share <= 0.0 || total <= 0.0 || buses.Length == 0 {
      return;
    }
    ghost var was := buses[..];
    to := Hosts(dist, was, cities);
    var near := NearestLoads(dist, buses, cities, peak, total, to);
    nearest := near;
    BlendAll(buses, share, near);
    NearestTotal(dist, was, cities, peak, total, to, near);
    MixedSum(Loads(buses[..]), Loads(was), near, share);
    MixKeeps(share, peak);
  }

  method BlendAll(buses: array<Bus>, share: real, near: seq<real>)
    requires |near| == buses.Length
    modifies buses
    ensures Blended(old(buses[..]), buses[..], share, near, buses.Length)
  {
    for i := 0 to buses.Length
      invariant Blended(old(buses[..]), buses[..], share, near, i)
    {
      var b := buses[i];
      buses[i] := b.(amounts := b.amounts.(mw := (1.0 - share) * b.amounts.mw + share * near[i]));
    }
  }

  /** A peak mixed with itself stays; mixed with nothing it does not, unless it is zero. */
  lemma MixKeeps(share: real, peak: real)
    requires share > 0.0
    ensures Mix(share, peak, peak) == peak && (Mix(share, peak, 0.0) == peak <==> peak == 0.0)
  {
    assert Mix(share, peak, 0.0) == peak - share * peak;
    assert share * peak == 0.0 ==> peak == 0.0;
  }

  lemma HostExists(dist: Metric, buses: seq<Bus>, p: Point, n: nat) returns (host: Option<nat>)
    requires n <= |buses|
    ensures NearestHost(dist, buses[..n], p, host)
  {
    if n == 0 {
      host := None;
    } else {
      host := HostExists(dist, buses, p, n - 1);
      assert buses[..n] == buses[..n - 1] + [buses[n - 1]];
      if buses[n - 1].hosts && (host.None? || dist(buses[n - 1].at, p) < dist(buses[host.value].at, p)) {
        host := Some(n - 1);
      }
    }
  }

  lemma Hosts(dist: Metric, buses: seq<Bus>, cities: seq<City>) returns (to: seq<Option<nat>>)
    ensures ToNearest(dist, buses, cities, to)
  {
    to := [];
    for c := 0 to |cities|
      invariant ToNearest(dist, buses, cities[..c], to)
    {
      var host := HostExists(dist, buses, cities[c].at, |buses|);
      assert buses[..|buses|] == buses;
      assert cities[..c + 1] == cities[..c] + [cities[c]];
      to := to + [host];
    }
    assert cities[..|cities|] == cities;
  }

  // ------------------------------------------------------------ settling on the lowest bus of a site

  /** `i` is the lowest-level bus of its site, the first of equals. */
  ghost predicate IsLowest(buses: seq<Bus>, i: nat) {
    i < |buses| && forall j | 0 <= j < |buses| && buses[j].site == buses[i].site ::
      buses[j].tier < buses[i].tier || (buses[j].tier == buses[i].tier && i <= j)
  }

  /** What the first `k` buses at a site have together. */
  ghost function SiteTotal(buses: seq<Bus>, site: nat, k: nat): Amounts
    requires k <= |buses|
  {
    if k == 0 then NOTHING
    else if buses[k - 1].site == site then SiteTotal(buses, site, k - 1).Plus(buses[k - 1].amounts)
    else SiteTotal(buses, site, k - 1)
  }

  ghost function Everything(buses: seq<Bus>): Amounts {
    if buses == [] then NOTHING else Everything(buses[..|buses| - 1]).Plus(buses[|buses| - 1].amounts)
  }

  /** `low` knows the lowest bus at the site of `i` among the first `n`. */
  ghost predicate LowKnown(buses: seq<Bus>, low: map<nat, nat>, n: nat, i: nat)
    requires i < n <= |buses|
  {
    buses[i].site in low && low[buses[i].site] < n && buses[low[buses[i].site]].site == buses[i].site
    && IsLowest(buses[..n], low[buses[i].site])
  }

  ghost predicate SiteSeen(buses: seq<Bus>, n: nat, site: nat)
    requires n <= |buses|
  {
    exists k :: 0 <= k < n && buses[k].site == site
  }

  /** `low` maps exactly the sites among the first `n` buses, to their lowest bus there. */
  ghost predicate MapsLowest(buses: seq<Bus>, low: map<nat, nat>, n: nat) {
    n <= |buses| && (forall i: nat | i < n :: LowKnown(buses, low, n, i))
    && (forall s | s in low :: SiteSeen(buses, n, s))
  }

  method LowestBuses(buses: array<Bus>) returns (low: map<nat, nat>)
    ensures MapsLowest(buses[..], low, buses.Length)
  {
    low := map[];
    for i := 0 to buses.Length
      invariant MapsLowest(buses[..], low, i)
    {
      var site := buses[i].site;
      SeenIsKnown(buses[..], low, i, site);
      LowestMore(buses[..], low, i);
      if site !in low || buses[i].tier > buses[low[site]].tier {
        low := low[site := i];
      }
    }
  }

  lemma SeenIsKnown(buses: seq<Bus>, low: map<nat, nat>, n: nat, site: nat)
    requires MapsLowest(buses, low, n)
    ensures site in low ==> low[site] < n && buses[low[site]].site == site && IsLowest(buses[..n], low[site])
  {
    if site in low {
      assert SiteSeen(buses, n, site);
      var k: nat :| k < n && buses[k].site == site;
      assert LowKnown(buses, low, n, k);
    }
  }

  lemma LowestOfMore(buses: seq<Bus>, i: nat, low: nat)
    requires i < |buses| && IsLowest(buses[..i], low)
    ensures buses[low].site != buses[i].site || buses[i].tier <= buses[low].tier ==> IsLowest(buses[..i + 1], low)
    ensures buses[low].site == buses[i].site && buses[i].tier > buses[low].tier ==> IsLowest(buses[..i + 1], i)
  {
  }

  lemma LowestMore(buses: seq<Bus>, low: map<nat, nat>, i: nat)
    requires MapsLowest(buses, low, i) && i < |buses|
    requires var s := buses[i].site; s in low ==> low[s] < i && buses[low[s]].site == s && IsLowest(buses[..i], low[s])
    ensures var s := buses[i].site;
            MapsLowest(buses, if s !in low || buses[i].tier > buses[low[s]].tier then low[s := i] else low, i + 1)
  {
    var s := buses[i].site;
    var next := if s !in low || buses[i].tier > buses[low[s]].tier then low[s := i] else low;
    var n := i + 1;
    forall j: nat | j < n
      ensures LowKnown(buses, next, n, j)
    {
      if j < i {
        assert LowKnown(buses, low, i, j);
        LowestOfMore(buses, i, low[buses[j].site]);
      } else if s in low {
        LowestOfMore(buses, i, low[s]);
      } else {
        FirstAtSite(buses, low, i);
      }
    }
    forall t | t in next
      ensures SiteSeen(buses, n, t)
    {
      if t in low {
        assert SiteSeen(buses, i, t);
      }
    }
  }

  lemma FirstAtSite(buses: seq<Bus>, low: map<nat, nat>, i: nat)
    requires MapsLowest(buses, low, i) && i < |buses| && buses[i].site !in low
    ensures IsLowest(buses[..i + 1], i)
  {
    forall j: nat | j < i
      ensures buses[j].site != buses[i].site
    {
      assert LowKnown(buses, low, i, j);
    }
  }

  /** What the first `k` buses at the site of `j`, other than `j`, have together. */
  ghost function Others(buses: seq<Bus>, j: nat, k: nat): Amounts
    requires k <= |buses| && j < |buses|
  {
    if k == 0 then NOTHING
    else if buses[k - 1].site == buses[j].site && k - 1 != j then Others(buses, j, k - 1).Plus(buses[k - 1].amounts)
    else Others(buses, j, k - 1)
  }

  lemma {:induction false} OthersAndOwn(buses: seq<Bus>, j: nat, k: nat)
    requires k <= |buses| && j < |buses|
    ensures SiteTotal(buses, buses[j].site, k) == if j < k then buses[j].amounts.Plus(Others(buses, j, k))
                                                  else Others(buses, j, k)
  {
    if k > 0 {
      OthersAndOwn(buses, j, k - 1);
    }
  }

  /** The first `i` buses have handed their load to the lowest of their site. */
  ghost predicate Settling(was: seq<Bus>, buses: seq<Bus>, i: nat) {
    |buses| == |was| && i <= |was| && forall j: nat | j < |was| :: SettlingAt(was, buses, i, j)
  }

  ghost predicate SettlingAt(was: seq<Bus>, buses: seq<Bus>, i: nat, j: nat)
    requires j < |was| == |buses| && i <= |was|
  {
    buses[j] == was[j].(amounts := if IsLowest(was, j) then was[j].amounts.Plus(Others(was, j, i))
    else if j < i then NOTHING else was[j].amounts)
  }

  /** Bus `i` hands what it carries to bus `low`. */
  ghost function HandedOver(buses: seq<Bus>, i: nat, low: nat): seq<Bus>
    requires i < |buses| && low < |buses|
  {
    var given := buses[low := buses[low].(amounts := buses[low].amounts.Plus(buses[i].amounts))];
    given[i := given[i].(amounts := NOTHING)]
  }

  lemma SettleStep(was: seq<Bus>, buses: seq<Bus>, i: nat, low: nat)
    requires Settling(was, buses, i) && i < |was| && low < |was| && IsLowest(was, low) && was[low].site == was[i].site
    ensures low == i ==> Settling(was, buses, i + 1)
    ensures low != i ==> Settling(was, HandedOver(buses, i, low), i + 1)
  {
    var next := if low == i then buses else HandedOver(buses, i, low);
    assert SettlingAt(was, buses, i, i) && SettlingAt(was, buses, i, low);
    assert IsLowest(was, i) ==> i == low;
    var k := i + 1;
    forall j: nat | j < |was|
      ensures SettlingAt(was, next, k, j)
    {
      assert SettlingAt(was, buses, i, j);
      assert IsLowest(was, j) && was[j].site == was[i].site ==> j == low;
    }
  }

  lemma {:induction false} EverythingUpdate(buses: seq<Bus>, i: nat, a: Amounts)
    requires i < |buses|
    ensures Everything(buses[i := buses[i].(amounts := a)]).Plus(buses[i].amounts) == Everything(buses).Plus(a)
  {
    var n := |buses| - 1;
    var next := buses[i := buses[i].(amounts := a)];
    if i == n {
      assert next[..n] == buses[..n];
    } else {
      assert next[..n] == buses[..n][i := buses[i].(amounts := a)];
      EverythingUpdate(buses[..n], i, a);
    }
  }

  lemma HandingOverKeeps(buses: seq<Bus>, i: nat, low: nat)
    requires i < |buses| && low < |buses| && i != low
    ensures Everything(HandedOver(buses, i, low)) == Everything(buses)
  {
    var given := buses[low := buses[low].(amounts := buses[low].amounts.Plus(buses[i].amounts))];
    EverythingUpdate(buses, low, buses[low].amounts.Plus(buses[i].amounts));
    EverythingUpdate(given, i, NOTHING);
    Cancels(Everything(buses), Everything(given), Everything(HandedOver(buses, i, low)), buses[low].amounts,
            buses[i].amounts);
  }

  lemma Cancels(before: Amounts, between: Amounts, after: Amounts, kept: Amounts, moved: Amounts)
    requires between.Plus(kept) == before.Plus(kept.Plus(moved)) && after.Plus(moved) == between.Plus(NOTHING)
    ensures after == before
  {
  }

  /** Every site's load ends on its lowest-level bus, all of it, and nowhere else. */
  ghost predicate Settled(was: seq<Bus>, buses: seq<Bus>) {
    |buses| == |was| && forall i: nat | i < |was| ::
      buses[i] == was[i].(amounts := if IsLowest(was, i) then SiteTotal(was, was[i].site, |was|) else NOTHING)
  }

  lemma SettlingDone(was: seq<Bus>, buses: seq<Bus>)
    requires Settling(was, buses, |was|)
    ensures Settled(was, buses)
  {
    forall i: nat | i < |was|
      ensures buses[i] == was[i].(amounts := if IsLowest(was, i) then SiteTotal(was, was[i].site, |was|) else NOTHING)
    {
      assert SettlingAt(was, buses, |was|, i);
      OthersAndOwn(was, i, |was|);
    }
  }

  /** Move the load of every bus onto the lowest-level bus of its site. */
  method SettleSiteLoads(buses: array<Bus>)
    modifies buses
    ensures Settled(old(buses[..]), buses[..])
    ensures Everything(buses[..]) == Everything(old(buses[..]))
  {
    var lowest := LowestBuses(buses);
    ghost var was := buses[..];
    assert was[..|was|] == was;
    for i := 0 to buses.Length
      invariant Settling(was, buses[..], i) && Everything(buses[..]) == Everything(was)
    {
      assert SettlingAt(was, buses[..], i, i);
      assert LowKnown(was, lowest, |was|, i);
      var low := lowest[buses[i].site];
      SettleStep(was, buses[..], i, low);
      if low != i {
        HandingOverKeeps(buses[..], i, low);
        buses[low] := buses[low].(amounts := buses[low].amounts.Plus(buses[i].amounts));
        buses[i] := buses[i].(amounts := NOTHING);
      }
    }
    SettlingDone(was, buses[..]);
  }
}
