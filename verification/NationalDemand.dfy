/**
 Sizing of demand. Under the national basis every place draws the peak per head
 of its subdivision or country; the weights add up to the peaks reported, and
 regions that share no place never claim more than the national peak together.
 */
module NationalDemand {
  import opened Options
  import opened Sums

  const AREA_COVERAGE := 0.95
  const DEFAULT_PEAK_FACTOR := 1.3
  const UNMEASURED_PEAK_FACTOR := 1.55

  datatype City = City(population: real, country: string, subdivision: Option<string>, weight: real)

  datatype Entry = Entry(averageMw: real, population: real)
  datatype SubEntry = SubEntry(averageMw: real, factor: Option<real>)

  /** The demand tables, by canonical country code and by subdivision code, with
      the populations their listed places add up to. */
  datatype Tables = Tables(countries: map<string, Entry>, listed: map<string, real>, km2: map<string, real>,
                           worldMw: real,
                           subdivisions: map<string, SubEntry>, subListed: map<string, real>) {
    ghost predicate Valid() {
      && (forall c | c in countries :: countries[c].averageMw >= 0.0 && countries[c].population > 0.0)
      && (forall c | c in km2 :: km2[c] > 0.0)
      && (forall c | c in subdivisions :: subdivisions[c].averageMw >= 0.0
                                          && (subdivisions[c].factor.Some? ==> subdivisions[c].factor.value >= 0.0))
    }
  }

  datatype Group = Country(code: string) | Subdivision(code: string)

  /** A place draws on its subdivision's demand if that has an entry, else on its country's. */
  function GroupOf(t: Tables, c: City): Group {
    if c.subdivision.Some? && c.subdivision.value in t.subdivisions then Subdivision(c.subdivision.value)
    else Country(c.country)
  }

  function Min(a: real, b: real): real { if a < b then a else b }
  function Times(a: real, b: real): real { a * b }
  function Over(a: real, b: real): real requires b != 0.0 { a / b }

  // ------------------------------------------------------------ one group

  /** A stated factor overrides the measured one. */
  function SubFactor(e: SubEntry, factor: real): real {
    if factor - DEFAULT_PEAK_FACTOR > 0.000000000001 || DEFAULT_PEAK_FACTOR - factor > 0.000000000001 then factor
    else if e.factor.Some? then e.factor.value
    else UNMEASURED_PEAK_FACTOR
  }

  function SubPeak(t: Tables, code: string, factor: real): real
    requires code in t.subdivisions
  {
    Times(t.subdivisions[code].averageMw, SubFactor(t.subdivisions[code], factor))
  }

  function NationalPeak(t: Tables, code: string, factor: real): real
    requires code in t.countries
  {
    Times(t.countries[code].averageMw, factor)
  }

  /** A country with demand and listed people. */
  predicate Known(t: Tables, code: string) {
    code in t.countries && code in t.listed
  }

  predicate Counted(t: Tables, code: string, pop: real)
    requires Known(t, code)
  {
    t.listed[code] > 0.0 && pop > 0.0
  }

  /** The share of the unlisted rest: by area, never beyond the share of people held. */
  function UnlistedShare(t: Tables, covered: map<string, real>, code: string, held: real): real
    requires code in t.km2 ==> t.km2[code] > 0.0
  {
    var area := if code in covered then covered[code] else 0.0;
    Min(if code in t.km2 then Min(held, Over(Over(area, t.km2[code]), AREA_COVERAGE)) else held, 1.0)
  }

  /** A country's peak in a region that holds `pop` of its listed people. */
  function CountryPeak(t: Tables, covered: map<string, real>, factor: real, code: string, pop: real): real
    requires t.Valid() && Known(t, code) && Counted(t, code, pop)
  {
    var national := NationalPeak(t, code, factor);
    var explained := Min(Over(t.listed[code], t.countries[code].population), 1.0);
    var held := Min(Over(pop, t.listed[code]), 1.0);
    Times(Times(national, explained), held)
    + Times(Times(national, 1.0 - explained), UnlistedShare(t, covered, code, held))
  }

  /** A group's peak in a region that holds `pop` of its people. */
  function Peak(t: Tables, covered: map<string, real>, factor: real, g: Group, pop: real): real
    requires t.Valid() && (g.Subdivision? ==> g.code in t.subdivisions)
  {
    match g
    case Subdivision(code) => Times(pop, Intensity(t, covered, factor, g, pop))
    case Country(code) =>
      if !Known(t, code) then Times(pop, Times(t.worldMw, factor))
      else if !Counted(t, code, pop) then 0.0
      else CountryPeak(t, covered, factor, code, pop)
  }

  /** The peak per person of a group's places. */
  function Intensity(t: Tables, covered: map<string, real>, factor: real, g: Group, pop: real): real
    requires t.Valid() && (g.Subdivision? ==> g.code in t.subdivisions)
  {
    match g
    case Subdivision(code) =>
      if code in t.subListed && t.subListed[code] > 0.0 then Over(SubPeak(t, code, factor), t.subListed[code])
      else 0.0
    case Country(code) =>
      if !Known(t, code) then Times(t.worldMw, factor)
      else if !Counted(t, code, pop) then 0.0
      else Over(CountryPeak(t, covered, factor, code, pop), pop)
  }

  /** Drawn at its intensity, a group's people draw its peak. */
  lemma {:induction false} PeakIsDrawn(t: Tables, covered: map<string, real>, factor: real, g: Group, pop: real)
    requires t.Valid() && (g.Subdivision? ==> g.code in t.subdivisions)
    ensures Times(pop, Intensity(t, covered, factor, g, pop)) == Peak(t, covered, factor, g, pop)
  {
    if g.Country? && Known(t, g.code) && Counted(t, g.code, pop) {
      Undo(CountryPeak(t, covered, factor, g.code, pop), pop);
    }
  }

  lemma Undo(x: real, y: real)
    requires y != 0.0
    ensures Times(y, Over(x, y)) == x
  {
  }

  // ------------------------------------------------------------ what a peak is

  /** `x` is `a` over `b`, but at most one. */
  ghost predicate UpToOne(x: real, a: real, b: real) {
    if a >= b then x == 1.0 else x * b == a
  }

  /** The least of three. */
  ghost predicate IsLeast(x: real, a: real, b: real, c: real) {
    x <= a && x <= b && x <= c && (x == a || x == b || x == c)
  }

  /** A country's peak: the part its listed people explain, by the share of them held;
      and the rest by the share of its area covered (of which 95 percent count as all),
      but never beyond the share of people held. */
  ghost predicate IsCountryPeak(t: Tables, covered: map<string, real>, factor: real, code: string, pop: real,
                                explained: real, held: real, rest: real, x: real)
    requires code in t.countries && code in t.listed
  {
    var (entry, area) := (t.countries[code], if code in covered then covered[code] else 0.0);
    && UpToOne(explained, t.listed[code], entry.population) && UpToOne(held, pop, t.listed[code])
    && (code in t.km2 && t.km2[code] > 0.0 ==> IsLeast(rest, held, area / t.km2[code] / 0.95, 1.0))
    && (code !in t.km2 ==> rest == held)
    && IsSplit(entry.averageMw * factor, explained, held, rest, x)
  }

  /** The part explained of a peak by one share, and the rest by another. */
  ghost predicate IsSplit(peak: real, explained: real, held: real, rest: real, x: real) {
    x == peak * explained * held + peak * (1.0 - explained) * rest
  }

  /** The factor of a subdivision: a stated one (other than the default 1.3), else the
      one measured, else 1.55. */
  ghost predicate IsFactor(e: SubEntry, factor: real, f: real) {
    if -0.000000000001 <= factor - 1.3 <= 0.000000000001 then f == if e.factor.Some? then e.factor.value else 1.55
    else f == factor
  }

  /** The share `pop` of the people listed takes of the peak. */
  ghost predicate IsSubPeak(average: real, f: real, listed: real, pop: real, x: real) {
    x * listed == pop * (average * f)
  }

  /** A group's peak: the subdivision's by the share of its listed people held; the
      country's; or the world's average where a country has no entry. */
  ghost predicate IsPeak(t: Tables, covered: map<string, real>, factor: real, g: Group, pop: real, x: real)
    requires g.Subdivision? ==> g.code in t.subdivisions
  {
    match g
    case Subdivision(code) =>
      if code in t.subListed && t.subListed[code] > 0.0
      then exists f: real :: IsFactor(t.subdivisions[code], factor, f)
                             && IsSubPeak(t.subdivisions[code].averageMw, f, t.subListed[code], pop, x)
      else x == 0.0
    case Country(code) =>
      if code !in t.countries || code !in t.listed then x == pop * (t.worldMw * factor)
      else if t.listed[code] <= 0.0 || pop <= 0.0 then x == 0.0
      else exists explained: real, held: real, rest: real ::
             IsCountryPeak(t, covered, factor, code, pop, explained, held, rest, x)
  }

  lemma MinUpToOne(a: real, b: real)
    requires b > 0.0
    ensures UpToOne(Min(Over(a, b), 1.0), a, b)
  {
    var q := a / b;
    assert q * b == a;
    if a >= b {
      assert (q - 1.0) * b >= 0.0;
    } else {
      assert (1.0 - q) * b > 0.0;
    }
  }

  lemma SubPeakIs(average: real, f: real, listed: real, pop: real)
    requires listed > 0.0
    ensures IsSubPeak(average, f, listed, pop, Times(pop, Over(Times(average, f), listed)))
  {
    var peak := average * f;
    var q := peak / listed;
    assert q * listed == peak;
    assert (pop * q) * listed == pop * (q * listed);
  }

  lemma SubdivisionPeakIs(t: Tables, covered: map<string, real>, factor: real, g: Group, pop: real)
    requires t.Valid() && g.Subdivision? && g.code in t.subdivisions
    ensures IsPeak(t, covered, factor, g, pop, Peak(t, covered, factor, g, pop))
  {
    var e, f := t.subdivisions[g.code], SubFactor(t.subdivisions[g.code], factor);
    assert IsFactor(e, factor, f);
    if g.code in t.subListed && t.subListed[g.code] > 0.0 {
      SubPeakIs(e.averageMw, f, t.subListed[g.code], pop);
    }
  }

  lemma UnlistedIs(t: Tables, covered: map<string, real>, code: string, held: real)
    requires t.Valid() && held <= 1.0
    ensures var (rest, area) := (UnlistedShare(t, covered, code, held), if code in covered then covered[code] else 0.0);
            && (code in t.km2 ==> IsLeast(rest, held, area / t.km2[code] / 0.95, 1.0))
            && (code !in t.km2 ==> rest == held)
  {
  }

  lemma SplitIs(peak: real, explained: real, held: real, rest: real)
    ensures IsSplit(peak, explained, held, rest,
                    Times(Times(peak, explained), held) + Times(Times(peak, 1.0 - explained), rest))
  {
  }

  lemma CountryPeakFrom(t: Tables, covered: map<string, real>, factor: real, code: string, pop: real,
                        explained: real, held: real, rest: real, x: real)
    requires t.Valid() && code in t.countries && code in t.listed && UpToOne(held, pop, t.listed[code])
    requires UpToOne(explained, t.listed[code], t.countries[code].population)
    requires held <= 1.0 && rest == UnlistedShare(t, covered, code, held)
    requires IsSplit(NationalPeak(t, code, factor), explained, held, rest, x)
    ensures IsCountryPeak(t, covered, factor, code, pop, explained, held, rest, x)
  {
    UnlistedIs(t, covered, code, held);
  }

  lemma CountryPeakIs(t: Tables, covered: map<string, real>, factor: real, code: string, pop: real)
    requires t.Valid() && Known(t, code) && Counted(t, code, pop)
    ensures exists explained: real, held: real, rest: real ::
              IsCountryPeak(t, covered, factor, code, pop, explained, held, rest,
                            CountryPeak(t, covered, factor, code, pop))
  {
    var explained := Min(Over(t.listed[code], t.countries[code].population), 1.0);
    var held := Min(Over(pop, t.listed[code]), 1.0);
    var rest, x := UnlistedShare(t, covered, code, held), CountryPeak(t, covered, factor, code, pop);
    MinUpToOne(t.listed[code], t.countries[code].population);
    MinUpToOne(pop, t.listed[code]);
    SplitIs(NationalPeak(t, code, factor), explained, held, rest);
    CountryPeakFrom(t, covered, factor, code, pop, explained, held, rest, x);
  }

  lemma PeakIs(t: Tables, covered: map<string, real>, factor: real, g: Group, pop: real)
    requires t.Valid() && (g.Subdivision? ==> g.code in t.subdivisions)
    ensures IsPeak(t, covered, factor, g, pop, Peak(t, covered, factor, g, pop))
  {
    match g
    case Subdivision(code) => SubdivisionPeakIs(t, covered, factor, g, pop);
    case Country(code) =>
      if code in t.countries && code in t.listed && t.listed[code] > 0.0 && pop > 0.0 {
        CountryPeakIs(t, covered, factor, code, pop);
      }
  }

  // ------------------------------------------------------------ the groups of a region

  function Populations(cities: seq<City>): seq<real> {
    seq(|cities|, i requires 0 <= i < |cities| => cities[i].population)
  }

  ghost function Weights(cities: seq<City>): seq<real> {
    seq(|cities|, i requires 0 <= i < |cities| => cities[i].weight)
  }

  ghost predicate Distinct(groups: seq<Group>) {
    forall i, j | 0 <= i < j < |groups| :: groups[i] != groups[j]
  }

  /** The groups of the first `n` cities, each once. */
  ghost predicate GroupsOf(t: Tables, cities: seq<City>, groups: seq<Group>, n: nat) {
    && n <= |cities| && Distinct(groups)
    && (forall i | 0 <= i < n :: GroupOf(t, cities[i]) in groups)
    && (forall g | g in groups :: exists i :: 0 <= i < n && GroupOf(t, cities[i]) == g)
  }

  method FindGroups(t: Tables, cities: array<City>) returns (groups: seq<Group>)
    ensures GroupsOf(t, cities[..], groups, cities.Length)
  {
    groups := [];
    for i := 0 to cities.Length
      invariant GroupsOf(t, cities[..], groups, i)
    {
      var g := GroupOf(t, cities[i]);
      if g !in groups {
        groups := groups + [g];
      }
    }
  }

  /** City `i` belongs to group `to[i]`. */
  ghost predicate Belongs(t: Tables, cities: seq<City>, groups: seq<Group>, to: seq<Option<nat>>) {
    |to| == |cities| && forall i | 0 <= i < |to| :: to[i].Some? && to[i].value < |groups|
                                                    && groups[to[i].value] == GroupOf(t, cities[i])
  }

  method IndexOf(groups: seq<Group>, g: Group) returns (k: nat)
    requires g in groups
    ensures k < |groups| && groups[k] == g
  {
    k := 0;
    while groups[k] != g
      invariant k < |groups| && g in groups[k..]
      decreases |groups| - k
    {
      k := k + 1;
    }
  }

  method Assign(t: Tables, cities: array<City>, groups: seq<Group>) returns (to: seq<Option<nat>>)
    requires GroupsOf(t, cities[..], groups, cities.Length)
    ensures Belongs(t, cities[..], groups, to)
  {
    to := [];
    for i := 0 to cities.Length
      invariant |to| == i && forall j | 0 <= j < i :: to[j].Some? && to[j].value < |groups|
                                                      && groups[to[j].value] == GroupOf(t, cities[j])
    {
      assert cities[..][i] == cities[i];
      var k := IndexOf(groups, GroupOf(t, cities[i]));
      to := to + [Some(k)];
    }
  }

  /** People per group. */
  method GroupPopulations(cities: array<City>, n: nat, to: seq<Option<nat>>) returns (pops: seq<real>)
    requires |to| == cities.Length && forall i | 0 <= i < |to| :: to[i].Some? && to[i].value < n
    ensures |pops| == n && Holds(pops, Populations(cities[..]), to, |to|)
  {
    pops := seq(n, _ => 0.0);
    HoldsNothing(n, Populations(cities[..]), to);
    for i := 0 to cities.Length
      invariant |pops| == n && Holds(pops, Populations(cities[..]), to, i)
    {
      HoldsMore(pops, Populations(cities[..]), to, i);
      var k := to[i].value;
      pops := pops[k := pops[k] + cities[i].population];
    }
  }

  // ------------------------------------------------------------ regrouping

  /** Deposits drawn at their place's rate. */
  ghost function Drawn(amount: seq<real>, to: seq<Option<nat>>, rate: seq<real>, n: nat, k: nat): seq<real>
    requires k <= |amount| == |to| && n == |rate|
  {
    seq(n, s requires 0 <= s < n => Times(Deposited(amount, to, s, k), rate[s]))
  }

  lemma TimesAdds(a: real, b: real, c: real)
    ensures Times(a + b, c) == Times(a, c) + Times(b, c) && Times(0.0, c) == 0.0
  {
  }

  /** Drawing deposit by deposit or place by place comes to the same. */
  lemma {:induction false} Regroup(amount: seq<real>, to: seq<Option<nat>>, rate: seq<real>, drawn: seq<real>, k: nat)
    requires k <= |amount| == |to| == |drawn|
    requires forall i | 0 <= i < |to| :: to[i].Some? && to[i].value < |rate|
                                         && drawn[i] == Times(amount[i], rate[to[i].value])
    ensures Sum(drawn[..k]) == Sum(Drawn(amount, to, rate, |rate|, k))
  {
    if k == 0 {
      forall s | 0 <= s < |rate|
        ensures Drawn(amount, to, rate, |rate|, 0)[s] == 0.0
      {
        TimesAdds(0.0, 0.0, rate[s]);
      }
      SumOfZeros(Drawn(amount, to, rate, |rate|, 0));
    } else {
      Regroup(amount, to, rate, drawn, k - 1);
      SumPrefix(drawn, k - 1);
      RegroupOne(amount, to, rate, k - 1);
    }
  }

  lemma RegroupOne(amount: seq<real>, to: seq<Option<nat>>, rate: seq<real>, k: nat)
    requires k < |amount| == |to| && to[k].Some? && to[k].value < |rate|
    ensures Sum(Drawn(amount, to, rate, |rate|, k + 1))
         == Sum(Drawn(amount, to, rate, |rate|, k)) + Times(amount[k], rate[to[k].value])
  {
    var was, now, s := Drawn(amount, to, rate, |rate|, k), Drawn(amount, to, rate, |rate|, k + 1), to[k].value;
    TimesAdds(Deposited(amount, to, s, k), amount[k], rate[s]);
    SumUpdate(was, s, now[s]);
    assert was[s := now[s]] == now;
  }

  // ------------------------------------------------------------ sizing

  datatype Spec = TotalMw(mw: real) | Population(perCapitaKw: Option<real>, factor: real)

  /** A group's people in the region and its peak there. */
  datatype Share = Share(group: Group, population: real, peak: real)

  datatype Sizing = Sizing(peak: real, shares: seq<Share>)

  ghost function Peaks(shares: seq<Share>): seq<real> {
    seq(|shares|, i requires 0 <= i < |shares| => shares[i].peak)
  }

  /** The shares of the first `n` groups, and what a person of each draws. */
  ghost predicate Shared(t: Tables, covered: map<string, real>, factor: real, groups: seq<Group>, pops: seq<real>,
                         shares: seq<Share>, rate: seq<real>, n: nat)
    requires t.Valid() && |groups| == |pops| && (forall g | g in groups :: g.Subdivision? ==> g.code in t.subdivisions)
  {
    && n <= |groups| && |shares| == |rate| == n
    && (forall k | 0 <= k < n :: shares[k] == Share(groups[k], pops[k], Peak(t, covered, factor, groups[k], pops[k])))
    && (forall k | 0 <= k < n :: rate[k] == Intensity(t, covered, factor, groups[k], pops[k]))
  }

  method ShareOut(t: Tables, covered: map<string, real>, factor: real, groups: seq<Group>, pops: seq<real>)
    returns (shares: seq<Share>, rate: seq<real>)
    requires t.Valid() && |groups| == |pops| && (forall g | g in groups :: g.Subdivision? ==> g.code in t.subdivisions)
    ensures Shared(t, covered, factor, groups, pops, shares, rate, |groups|)
  {
    shares, rate := [], [];
    for k := 0 to |groups|
      invariant Shared(t, covered, factor, groups, pops, shares, rate, k)
    {
      assert groups[k] in groups;
      shares := shares + [Share(groups[k], pops[k], Peak(t, covered, factor, groups[k], pops[k]))];
      rate := rate + [Intensity(t, covered, factor, groups[k], pops[k])];
    }
  }

  /** The first `n` cities have their weights, the others are as they were. */
  ghost predicate Weighted(was: seq<City>, cities: seq<City>, rate: seq<real>, to: seq<Option<nat>>, n: nat) {
    && |cities| == |was| == |to| && n <= |was| && (forall i | 0 <= i < |to| :: to[i].Some? && to[i].value < |rate|)
    && (forall i | 0 <= i < |was| ::
          cities[i] == if i < n then was[i].(weight := Times(was[i].population, rate[to[i].value])) else was[i])
  }

  /** The weights add up to the peaks: every group's people draw exactly its peak. */
  lemma {:induction false} WeightsAddUp(t: Tables, covered: map<string, real>, factor: real, was: seq<City>,
                                        cities: seq<City>, groups: seq<Group>, pops: seq<real>,
                                        shares: seq<Share>, rate: seq<real>, to: seq<Option<nat>>)
    requires t.Valid() && |groups| == |pops| && (forall g | g in groups :: g.Subdivision? ==> g.code in t.subdivisions)
    requires Shared(t, covered, factor, groups, pops, shares, rate, |groups|) && Weighted(was, cities, rate, to, |was|)
    requires Holds(pops, Populations(was), to, |to|)
    ensures Sum(Weights(cities)) == Sum(Peaks(shares))
  {
    var n := |was|;
    Regroup(Populations(was), to, rate, Weights(cities), n);
    assert Weights(cities)[..n] == Weights(cities);
    forall k | 0 <= k < |groups|
      ensures Drawn(Populations(was), to, rate, |rate|, n)[k] == shares[k].peak
    {
      assert groups[k] in groups;
      PeakIsDrawn(t, covered, factor, groups[k], pops[k]);
    }
    assert Drawn(Populations(was), to, rate, |rate|, n) == Peaks(shares);
  }

  method WeightSum(cities: array<City>) returns (total: real)
    ensures total == Sum(Weights(cities[..]))
  {
    total := 0.0;
    for i := 0 to cities.Length
      invariant total == Sum(Weights(cities[..])[..i])
    {
      SumPrefix(Weights(cities[..]), i);
      total := total + cities[i].weight;
    }
    assert Weights(cities[..])[..cities.Length] == Weights(cities[..]);
  }

  /** What a share reports: the group's people among the cities, and its peak. */
  ghost predicate ShareOk(t: Tables, covered: map<string, real>, factor: real, cities: seq<City>,
                          to: seq<Option<nat>>, k: nat, s: Share)
    requires t.Valid() && |to| == |cities|
  {
    && (s.group.Subdivision? ==> s.group.code in t.subdivisions)
    && s.population == Deposited(Populations(cities), to, k, |to|)
    && s.peak == Peak(t, covered, factor, s.group, s.population)
    && IsPeak(t, covered, factor, s.group, s.population, s.peak)
  }

  /** National sizing: the weights are set group by group, and add up. */
  ghost predicate Sized(t: Tables, covered: map<string, real>, factor: real, was: seq<City>, cities: seq<City>,
                        z: Sizing, groups: seq<Group>, to: seq<Option<nat>>)
    requires t.Valid()
  {
    && GroupsOf(t, was, groups, |was|) && Belongs(t, was, groups, to) && |z.shares| == |groups|
    && (forall k | 0 <= k < |groups| :: z.shares[k].group == groups[k]
                                        && ShareOk(t, covered, factor, was, to, k, z.shares[k]))
    && |cities| == |was| && (forall i | 0 <= i < |was| ::
                               Draws(t, covered, factor, was[i], cities[i], z.shares[to[i].value]))
    && z.peak == Sum(Weights(cities)) == Sum(Peaks(z.shares))
  }

  /** A place draws its people times the peak per person of its group's share; nothing else about it changes. */
  ghost predicate Draws(t: Tables, covered: map<string, real>, factor: real, was: City, city: City, s: Share)
    requires t.Valid()
  {
    && (s.group.Subdivision? ==> s.group.code in t.subdivisions)
    && city == was.(weight := Times(was.population, Intensity(t, covered, factor, s.group, s.population)))
  }

  lemma GroupCodes(t: Tables, cities: seq<City>, groups: seq<Group>)
    requires GroupsOf(t, cities, groups, |cities|)
    ensures forall g | g in groups :: g.Subdivision? ==> g.code in t.subdivisions
  {
  }

  lemma AllDraw(t: Tables, covered: map<string, real>, factor: real, was: seq<City>, cities: seq<City>,
                groups: seq<Group>, pops: seq<real>,
                shares: seq<Share>, rate: seq<real>, to: seq<Option<nat>>)
    requires t.Valid() && |groups| == |pops| && (forall g | g in groups :: g.Subdivision? ==> g.code in t.subdivisions)
    requires Shared(t, covered, factor, groups, pops, shares, rate, |groups|) && Weighted(was, cities, rate, to, |was|)
    ensures forall i | 0 <= i < |was| :: Draws(t, covered, factor, was[i], cities[i], shares[to[i].value])
  {
    forall i | 0 <= i < |was|
      ensures Draws(t, covered, factor, was[i], cities[i], shares[to[i].value])
    {
      assert groups[to[i].value] in groups;
    }
  }

  method SizeNational(t: Tables, covered: map<string, real>, factor: real, cities: array<City>)
    returns (z: Sizing, ghost groups: seq<Group>, ghost to: seq<Option<nat>>)
    requires t.Valid()
    modifies cities
    ensures Sized(t, covered, factor, old(cities[..]), cities[..], z, groups, to)
    ensures forall i | 0 <= i < cities.Length :: cities[i].(weight := 0.0) == old(cities[i]).(weight := 0.0)
  {
    ghost var was := cities[..];
    var found := FindGroups(t, cities);
    GroupCodes(t, was, found);
    var at := Assign(t, cities, found);
    groups, to := found, at;
    var pops := GroupPopulations(cities, |found|, at);
    var shares, rate := ShareOut(t, covered, factor, found, pops);
    for i := 0 to cities.Length
      invariant Weighted(was, cities[..], rate, at, i)
    {
      cities[i] := cities[i].(weight := Times(cities[i].population, rate[at[i].value]));
    }
    WeightsAddUp(t, covered, factor, was, cities[..], found, pops, shares, rate, at);
    AllDraw(t, covered, factor, was, cities[..], found, pops, shares, rate, at);
    forall k | 0 <= k < |found|
      ensures IsPeak(t, covered, factor, shares[k].group, shares[k].population, shares[k].peak)
    {
      assert found[k] in found;
      PeakIs(t, covered, factor, found[k], pops[k]);
    }
    var peak := WeightSum(cities);
    z := Sizing(peak, shares);
  }

  /** Size demand. A stated total leaves the weights alone; a stated draw per head
      gives every place its people's; else the tables decide. */
  method SizeDemand(spec: Spec, t: Tables, covered: map<string, real>, cities: array<City>)
    returns (z: Sizing, ghost groups: seq<Group>, ghost to: seq<Option<nat>>)
    requires t.Valid()
    modifies cities
    ensures spec.TotalMw? ==> cities[..] == old(cities[..]) && z == Sizing(spec.mw, [])
    ensures spec.Population? ==> z.peak == Sum(Weights(cities[..]))
    ensures spec.Population? && spec.perCapitaKw.Some? ==>
              z.shares == [] && forall i | 0 <= i < cities.Length ::
                cities[i] == old(cities[i]).(weight := cities[i].weight)
                && 1000.0 * cities[i].weight == old(cities[i]).population * spec.perCapitaKw.value * spec.factor
    ensures spec.Population? && spec.perCapitaKw.None? ==>
              Sized(t, covered, spec.factor, old(cities[..]), cities[..], z, groups, to)
  {
    groups, to := [], [];
    match spec {
      case TotalMw(mw) => z := Sizing(mw, []);
      case Population(None, factor) => z, groups, to := SizeNational(t, covered, factor, cities);
      case Population(Some(kw), factor) =>
        for i := 0 to cities.Length
          invariant forall j | 0 <= j < i ::
              cities[j] == old(cities[j]).(weight := PerHead(old(cities[j]).population, kw, factor))
          invariant forall j | i <= j < cities.Length :: cities[j] == old(cities[j])
        {
          cities[i] := cities[i].(weight := PerHead(cities[i].population, kw, factor));
        }
        var peak := WeightSum(cities);
        z := Sizing(peak, []);
    }
  }

  function PerHead(population: real, kw: real, factor: real): real {
    population * kw * factor / 1000.0
  }

  // ------------------------------------------------------------ regions that share no place

  lemma TimesOrder(x: real, a: real, b: real)
    requires x >= 0.0 && a <= b
    ensures Times(x, a) <= Times(x, b)
  {
    assert x * (b - a) >= 0.0;
  }

  lemma TimesSplit(x: real, e: real, h: real)
    ensures Times(Times(x, e), h) + Times(Times(x, 1.0 - e), h) == Times(x, h)
  {
    var y := x * e;
    assert x * (1.0 - e) == x - y;
    assert (x - y) * h == x * h - y * h;
  }

  lemma OverPositive(x: real, y: real)
    requires x >= 0.0 && y > 0.0
    ensures Over(x, y) >= 0.0
  {
  }

  /** A region never takes more of a country's peak than its share of the listed people. */
  lemma {:induction false} PeakWithinShare(t: Tables, covered: map<string, real>, factor: real, code: string, pop: real)
    requires t.Valid() && Known(t, code) && t.listed[code] > 0.0 && pop >= 0.0 && factor >= 0.0
    ensures Peak(t, covered, factor, Country(code), pop)
         <= Times(NationalPeak(t, code, factor), Over(pop, t.listed[code]))
  {
    var national, total := NationalPeak(t, code, factor), t.listed[code];
    TimesOrder(t.countries[code].averageMw, 0.0, factor);
    TimesAdds(0.0, 0.0, t.countries[code].averageMw);
    assert national >= 0.0;
    OverPositive(pop, total);
    if Counted(t, code, pop) {
      var explained := Min(Over(total, t.countries[code].population), 1.0);
      var held := Min(Over(pop, total), 1.0);
      OverPositive(total, t.countries[code].population);
      var rest := Times(national, 1.0 - explained);
      TimesOrder(national, 0.0, 1.0 - explained);
      TimesOrder(rest, UnlistedShare(t, covered, code, held), held);
      TimesSplit(national, explained, held);
      TimesOrder(national, held, Over(pop, total));
    } else {
      TimesOrder(national, 0.0, Over(pop, total));
    }
  }

  /** The people of a group in region `r`, when every place is in at most one region. */
  ghost function Holding(t: Tables, places: seq<City>, region: seq<Option<nat>>, g: Group): seq<Option<nat>>
    requires |places| == |region|
  {
    seq(|places|, i requires 0 <= i < |places| => if GroupOf(t, places[i]) == g then region[i] else None)
  }

  /** The peaks of a group over the first `n` regions. */
  ghost function RegionPeaks(t: Tables, covered: nat -> map<string, real>, factor: real, places: seq<City>,
                             region: seq<Option<nat>>, g: Group, n: nat): seq<real>
    requires t.Valid() && |places| == |region| && (g.Subdivision? ==> g.code in t.subdivisions)
  {
    seq(n, r requires 0 <= r < n => Peak(t, covered(r), factor, g,
                                         Deposited(Populations(places), Holding(t, places, region, g), r, |places|)))
  }

  ghost function Deposits(amount: seq<real>, to: seq<Option<nat>>, n: nat): seq<real>
    requires |amount| == |to|
  {
    seq(n, r requires 0 <= r < n => Deposited(amount, to, r, |amount|))
  }

  /** Deposits at different places never exceed what was deposited. */
  lemma {:induction false} DepositsWithin(amount: seq<real>, to: seq<Option<nat>>, n: nat, k: nat)
    requires k <= |amount| == |to| && (forall i | 0 <= i < |amount| :: amount[i] >= 0.0)
    ensures Sum(seq(n, r requires 0 <= r < n => Deposited(amount, to, r, k))) <= Placed(amount, to, k)
  {
    var now := seq(n, r requires 0 <= r < n => Deposited(amount, to, r, k));
    if k == 0 {
      SumOfZeros(now);
    } else {
      DepositsWithin(amount, to, n, k - 1);
      var was := seq(n, r requires 0 <= r < n => Deposited(amount, to, r, k - 1));
      if to[k - 1].Some? && to[k - 1].value < n {
        var s := to[k - 1].value;
        SumUpdate(was, s, now[s]);
        assert was[s := now[s]] == now;
      } else {
        assert was == now;
      }
    }
  }

  /** The people listed for a country. */
  ghost function Listed(places: seq<City>, code: string, k: nat): real
    requires k <= |places|
  {
    if k == 0 then 0.0 else Listed(places, code, k - 1) + if places[k - 1].country == code
    then places[k - 1].population else 0.0
  }

  lemma {:induction false} PlacedWithinListed(t: Tables, places: seq<City>, region: seq<Option<nat>>, code: string,
                                              k: nat)
    requires k <= |places| == |region| && (forall i | 0 <= i < |places| :: places[i].population >= 0.0)
    ensures Placed(Populations(places), Holding(t, places, region, Country(code)), k) <= Listed(places, code, k)
  {
    if k > 0 {
      PlacedWithinListed(t, places, region, code, k - 1);
    }
  }

  /** Sums of values each within its share of a whole. */
  lemma {:induction false} SharesWithin(peaks: seq<real>, pops: seq<real>, whole: real, total: real)
    requires |peaks| == |pops| && total > 0.0 && forall i | 0 <= i < |pops| ::
               peaks[i] <= Times(whole, Over(pops[i], total))
    ensures Sum(peaks) <= Times(whole, Over(Sum(pops), total))
  {
    if peaks == [] {
      TimesAdds(0.0, 0.0, whole);
      assert Over(0.0, total) == 0.0;
    } else {
      var n := |peaks| - 1;
      SharesWithin(peaks[..n], pops[..n], whole, total);
      OverAdds(whole, Sum(pops[..n]), pops[n], total);
    }
  }

  lemma OverAdds(whole: real, a: real, b: real, total: real)
    requires total > 0.0
    ensures Times(whole, Over(a, total)) + Times(whole, Over(b, total)) == Times(whole, Over(a + b, total))
  {
    var x, y := a / total, b / total;
    assert (a + b) / total == x + y;
    assert whole * (x + y) == whole * x + whole * y;
  }

  lemma AtMostWhole(whole: real, a: real, total: real)
    requires whole >= 0.0 && total > 0.0 && a <= total
    ensures Times(whole, Over(a, total)) <= whole
  {
    var x := a / total;
    assert x * total == a;
    assert x <= 1.0;
    TimesOrder(whole, x, 1.0);
  }

  /** Regions that share no place together take at most a country's national peak. */
  lemma {:induction false} RegionsWithinNational(t: Tables, covered: nat -> map<string, real>, factor: real,
                                                 places: seq<City>, region: seq<Option<nat>>, code: string, n: nat)
    requires t.Valid() && Known(t, code) && factor >= 0.0 && |places| == |region|
    requires (forall i | 0 <= i < |places| :: places[i].population >= 0.0)
             && t.listed[code] == Listed(places, code, |places|) > 0.0
    ensures Sum(RegionPeaks(t, covered, factor, places, region, Country(code), n)) <= NationalPeak(t, code, factor)
  {
    var g, national, total := Country(code), NationalPeak(t, code, factor), t.listed[code];
    var to := Holding(t, places, region, g);
    var peaks, pops := RegionPeaks(t, covered, factor, places, region, g, n), Deposits(Populations(places), to, n);
    forall r | 0 <= r < n
      ensures peaks[r] <= Times(national, Over(pops[r], total))
    {
      DepositedAtLeast(Populations(places), to, |places|, |places|);
      PeakWithinShare(t, covered(r), factor, code, pops[r]);
    }
    SharesWithin(peaks, pops, national, total);
    DepositsWithin(Populations(places), to, n, |places|);
    PlacedWithinListed(t, places, region, code, |places|);
    TimesOrder(t.countries[code].averageMw, 0.0, factor);
    TimesAdds(0.0, 0.0, t.countries[code].averageMw);
    AtMostWhole(national, Sum(pops), total);
  }

  ghost function SubListed(places: seq<City>, code: string, k: nat): real
    requires k <= |places|
  {
    if k == 0 then 0.0 else SubListed(places, code, k - 1) + if places[k - 1].subdivision == Some(code)
    then places[k - 1].population else 0.0
  }

  lemma {:induction false} PlacedWithinSubListed(t: Tables, places: seq<City>, region: seq<Option<nat>>, code: string,
                                                 k: nat)
    requires k <= |places| == |region| && (forall i | 0 <= i < |places| :: places[i].population >= 0.0)
    ensures Placed(Populations(places), Holding(t, places, region, Subdivision(code)), k) <= SubListed(places, code, k)
  {
    if k > 0 {
      PlacedWithinSubListed(t, places, region, code, k - 1);
    }
  }

  lemma Swap(a: real, b: real, c: real)
    requires c != 0.0
    ensures Times(a, Over(b, c)) == Times(b, Over(a, c))
  {
    assert a * b / c == b * a / c;
  }

  lemma {:induction false} SubPeakIsShare(t: Tables, covered: map<string, real>, factor: real, code: string, pop: real)
    requires t.Valid() && code in t.subdivisions && code in t.subListed && t.subListed[code] > 0.0
    ensures Peak(t, covered, factor, Subdivision(code), pop)
         == Times(SubPeak(t, code, factor), Over(pop, t.subListed[code]))
  {
    Swap(pop, SubPeak(t, code, factor), t.subListed[code]);
  }

  /** Regions that share no place together take at most a subdivision's own peak. */
  lemma {:induction false} RegionsWithinSubdivision(t: Tables, covered: nat -> map<string, real>, factor: real,
                                                    places: seq<City>, region: seq<Option<nat>>, code: string, n: nat)
    requires t.Valid() && code in t.subdivisions && code in t.subListed && factor >= 0.0 && |places| == |region|
    requires (forall i | 0 <= i < |places| :: places[i].population >= 0.0)
             && t.subListed[code] == SubListed(places, code, |places|) > 0.0
    ensures Sum(RegionPeaks(t, covered, factor, places, region, Subdivision(code), n)) <= SubPeak(t, code, factor)
  {
    var g, whole, total := Subdivision(code), SubPeak(t, code, factor), t.subListed[code];
    var to := Holding(t, places, region, g);
    var peaks, pops := RegionPeaks(t, covered, factor, places, region, g, n), Deposits(Populations(places), to, n);
    forall r | 0 <= r < n
      ensures peaks[r] <= Times(whole, Over(pops[r], total))
    {
      SubPeakIsShare(t, covered(r), factor, code, pops[r]);
    }
    SharesWithin(peaks, pops, whole, total);
    DepositsWithin(Populations(places), to, n, |places|);
    PlacedWithinSubListed(t, places, region, code, |places|);
    TimesOrder(t.subdivisions[code].averageMw, 0.0, SubFactor(t.subdivisions[code], factor));
    TimesAdds(0.0, 0.0, t.subdivisions[code].averageMw);
    AtMostWhole(whole, Sum(pops), total);
  }

  // ------------------------------------------------------------ a region's own list

  /** The places of region `r` among the first `n`. */
  ghost function InRegion(places: seq<City>, region: seq<Option<nat>>, r: nat, n: nat): seq<City>
    requires n <= |places| == |region|
  {
    if n == 0 then []
    else if region[n - 1] == Some(r) then InRegion(places, region, r, n - 1) + [places[n - 1]]
    else InRegion(places, region, r, n - 1)
  }

  ghost function GroupPeople(t: Tables, cities: seq<City>, g: Group): real {
    if cities == [] then 0.0
    else GroupPeople(t, cities[..|cities| - 1], g) + if GroupOf(t, cities[|cities| - 1]) == g
         then cities[|cities| - 1].population else 0.0
  }

  lemma {:induction false} ShareCountsPeople(t: Tables, cities: seq<City>, groups: seq<Group>, to: seq<Option<nat>>,
                                             s: nat, k: nat)
    requires Distinct(groups) && Belongs(t, cities, groups, to) && s < |groups| && k <= |cities|
    ensures Deposited(Populations(cities), to, s, k) == GroupPeople(t, cities[..k], groups[s])
  {
    if k > 0 {
      ShareCountsPeople(t, cities, groups, to, s, k - 1);
      assert cities[..k][..k - 1] == cities[..k - 1];
    }
  }

  lemma {:induction false} RegionPeople(t: Tables, places: seq<City>, region: seq<Option<nat>>, r: nat, g: Group,
                                        n: nat)
    requires n <= |places| == |region|
    ensures GroupPeople(t, InRegion(places, region, r, n), g)
         == Deposited(Populations(places), Holding(t, places, region, g), r, n)
  {
    if n > 0 {
      var k := n - 1;
      RegionPeople(t, places, region, r, g, k);
      RegionStep(t, places, region, r, g, k);
      DepositedMore(t, places, region, g, r, k);
    }
  }

  lemma RegionStep(t: Tables, places: seq<City>, region: seq<Option<nat>>, r: nat, g: Group, k: nat)
    requires k < |places| == |region|
    ensures GroupPeople(t, InRegion(places, region, r, k + 1), g)
         == GroupPeople(t, InRegion(places, region, r, k), g)
            + People(region[k] == Some(r) && GroupOf(t, places[k]) == g, places[k])
  {
    PeopleMore(t, InRegion(places, region, r, k), places[k], g);
  }

  function People(counts: bool, c: City): real {
    if counts then c.population else 0.0
  }

  lemma DepositedMore(t: Tables, places: seq<City>, region: seq<Option<nat>>, g: Group, r: nat, k: nat)
    requires k < |places| == |region|
    ensures Deposited(Populations(places), Holding(t, places, region, g), r, k + 1)
         == Deposited(Populations(places), Holding(t, places, region, g), r, k)
            + People(region[k] == Some(r) && GroupOf(t, places[k]) == g, places[k])
  {
  }

  lemma PeopleMore(t: Tables, cities: seq<City>, c: City, g: Group)
    ensures GroupPeople(t, cities + [c], g) == GroupPeople(t, cities, g) + People(GroupOf(t, c) == g, c)
  {
    assert (cities + [c])[..|cities|] == cities;
  }

  /** What sizing reports for a group of a region is that group's entry in the
      peaks that the national bound adds up. */
  lemma {:induction false} ReportedIsRegional(t: Tables, covered: nat -> map<string, real>, factor: real,
                                              places: seq<City>, region: seq<Option<nat>>, r: nat, n: nat,
                                              cities: seq<City>, z: Sizing, groups: seq<Group>,
                                              to: seq<Option<nat>>, k: nat)
    requires t.Valid() && |places| == |region| && r < n
    requires Sized(t, covered(r), factor, InRegion(places, region, r, |places|), cities, z, groups, to) && k < |groups|
    ensures (groups[k].Subdivision? ==> groups[k].code in t.subdivisions)
    ensures z.shares[k].peak == RegionPeaks(t, covered, factor, places, region, groups[k], n)[r]
  {
    var mine := InRegion(places, region, r, |places|);
    assert ShareOk(t, covered(r), factor, mine, to, k, z.shares[k]);
    ShareCountsPeople(t, mine, groups, to, k, |mine|);
    assert mine[..|mine|] == mine;
    RegionPeople(t, places, region, r, groups[k], |places|);
  }
}
