/**
 Voltage regulation at the step-down secondaries of a hierarchical network. On
 a mapped network regulated buses are added, farthest first, until every loaded
 bus below the bulk levels is within its reach of one.
 */
module Regulation {
  import opened Options
  import opened ShortestPaths
  import opened Pockets
  import opened Roads
  import opened Sums

  const SITE_TRANSFORMER_KM := 0.3
  const BULK_KV := 200.0
  const Q_SHARE := 0.5
  const MIN_BANK_MVAR := 5.0

  datatype Bus = Bus(kv: real, load: real)
  datatype Condenser = Condenser(bus: nat, q: real)

  /** A region's buses and corridors, and the reach of a 66 kV feeder. */
  datatype Region = Region(buses: seq<Bus>, corridors: Graph, reachKm: real) {
    ghost predicate Valid() {
      && corridors.Valid() && |buses| == corridors.n && reachKm > 0.0
      && (forall b | b in buses :: b.kv > 0.0 && b.load >= 0.0)
    }

    /** Reach scales with the bus's voltage. */
    ghost function Reach(i: nat): real
      requires i < |buses|
    {
      reachKm * buses[i].kv / 66.0
    }

    /** A bus the reach is promised to: loaded, and below the bulk levels. */
    ghost predicate Promised(i: nat)
      requires i < |buses|
    {
      buses[i].load > 0.0 && buses[i].kv < 200.0
    }

    ghost predicate OutOfReach(dist: Dists, i: nat)
      requires i < |buses| && i < |dist|
    {
      Promised(i) && dist[i].Some? && dist[i].value > Reach(i)
    }

    /** The lower bus of a site transformer (a corridor of 0.3 km between two voltages)
        below the bulk levels. */
    ghost predicate IsSecondary(c: Arc, i: nat)
      requires c.a < |buses| && c.b < |buses|
    {
      && 0.299999999 < c.w < 0.300000001
      && ((i == c.a && buses[c.a].kv < buses[c.b].kv) || (i == c.b && buses[c.b].kv < buses[c.a].kv))
      && buses[i].kv < 200.0
    }
  }

  ghost predicate Distinct(s: seq<nat>) {
    forall i, j | 0 <= i < j < |s| :: s[i] != s[j]
  }

  ghost function AsSet(s: seq<nat>): set<nat> {
    set x | x in s
  }

  ghost predicate SecondaryAmong(r: Region, arcs: seq<Arc>, i: nat)
    requires forall c | c in arcs :: c.a < |r.buses| && c.b < |r.buses|
  {
    exists c :: c in arcs && r.IsSecondary(c, i)
  }

  lemma SecondaryMore(r: Region, arcs: seq<Arc>, c: Arc, i: nat)
    requires (forall d | d in arcs :: d.a < |r.buses| && d.b < |r.buses|) && c.a < |r.buses| && c.b < |r.buses|
    ensures SecondaryAmong(r, arcs + [c], i) <==> SecondaryAmong(r, arcs, i) || r.IsSecondary(c, i)
  {
    assert c in arcs + [c];
    if SecondaryAmong(r, arcs, i) {
      var d :| d in arcs && r.IsSecondary(d, i);
      assert d in arcs + [c];
    }
  }

  /** The regulated secondaries, ascending and without repeats. */
  method Secondaries(r: Region) returns (sources: seq<nat>)
    requires r.Valid()
    ensures Distinct(sources) && (forall s | s in sources :: s < |r.buses|)
    ensures forall i: nat ::
              i in sources <==> i < |r.buses| && exists c :: c in r.corridors.arcs && r.IsSecondary(c, i)
  {
    var found: set<nat> := {};
    for k := 0 to |r.corridors.arcs|
      invariant forall i: nat :: i in found <==> SecondaryAmong(r, r.corridors.arcs[..k], i)
    {
      var c := r.corridors.arcs[k];
      assert c in r.corridors.arcs;
      var x, y := r.buses[c.a].kv, r.buses[c.b].kv;
      var low := if x < y then c.a else c.b;
      assert r.corridors.arcs[..k + 1] == r.corridors.arcs[..k] + [c];
      var isSite := -0.000000001 < c.w - SITE_TRANSFORMER_KM < 0.000000001 && x != y && r.buses[low].kv < BULK_KV;
      forall i: nat
        ensures SecondaryAmong(r, r.corridors.arcs[..k] + [c], i)
           <==> SecondaryAmong(r, r.corridors.arcs[..k], i) || (isSite && i == low)
      {
        SecondaryMore(r, r.corridors.arcs[..k], c, i);
        assert r.IsSecondary(c, i) <==> isSite && i == low;
      }
      if isSite {
        found := found + {low};
      }
    }
    assert r.corridors.arcs[..|r.corridors.arcs|] == r.corridors.arcs;
    sources := [];
    for i := 0 to |r.buses|
      invariant Distinct(sources) && (forall s: nat :: s in sources <==> s < i && s in found)
    {
      if i in found {
        sources := sources + [i];
      }
    }
  }

  /** `i` is the out-of-reach bus with the largest distance relative to its reach,
      lowest index on ties. */
  ghost predicate FarthestAt(r: Region, dist: Dists, i: nat) {
    && |dist| == |r.buses| && i < |r.buses| && r.OutOfReach(dist, i)
    && forall j | 0 <= j < |r.buses| && r.OutOfReach(dist, j) ::
         var (x, y) := (Ratio(r, dist, j), Ratio(r, dist, i));
         x < y || (x == y && i <= j)
  }

  method Farthest(r: Region, dist: Dists) returns (pick: Option<nat>)
    requires r.Valid() && |dist| == |r.buses|
    ensures pick.None? <==> forall i | 0 <= i < |r.buses| :: !r.OutOfReach(dist, i)
    ensures pick.Some? ==> FarthestAt(r, dist, pick.value)
  {
    pick := None;
    var most := 0.0;
    for i := 0 to |r.buses|
      invariant pick.None? <==> forall j | 0 <= j < i :: !r.OutOfReach(dist, j)
      invariant pick.Some? ==> pick.value < i && r.OutOfReach(dist, pick.value) && most == Ratio(r, dist, pick.value)
      invariant pick.Some? ==> forall j | 0 <= j < i && r.OutOfReach(dist, j) ::
            var (x, y) := (Ratio(r, dist, j), Ratio(r, dist, pick.value));
            x < y || (x == y && pick.value <= j)
    {
      var b := r.buses[i];
      assert b in r.buses;
      var reach := r.reachKm * b.kv / 66.0;
      ReachPositive(r.reachKm, b.kv);
      assert reach == r.Reach(i);
      var out := b.load > 0.0 && b.kv < BULK_KV && dist[i].Some? && dist[i].value > reach;
      assert r.OutOfReach(dist, i) <==> out;
      if out {
        if pick.None? || dist[i].value / reach > most {
          pick, most := Some(i), dist[i].value / reach;
        }
      }
    }
  }

  /** Distance over reach. */
  ghost function Ratio(r: Region, dist: Dists, i: nat): real
    requires i < |r.buses| && i < |dist|
  {
    if dist[i].Some? && r.Reach(i) > 0.0 then dist[i].value / r.Reach(i) else 0.0
  }

  lemma ReachPositive(x: real, kv: real)
    requires x > 0.0 && kv > 0.0
    ensures x * kv / 66.0 > 0.0
  {
    assert x * kv > 0.0;
  }

  /** Every promised bus that some source reaches is within its own reach of one. */
  ghost predicate Covered(r: Region, dist: Dists)
    requires |dist| == |r.buses|
  {
    forall i: nat | i < |r.buses| && r.Promised(i) && dist[i].Some? :: AtMost(dist[i], r.Reach(i))
  }

  ghost function Free(n: nat, sources: seq<nat>): set<nat> {
    set u: nat | u < n && u !in sources
  }

  ghost predicate InRange(r: Region, sources: seq<nat>) {
    forall s | s in sources :: s < |r.buses|
  }

  /** Source `k` was the farthest bus out of reach of the sources before it. */
  ghost predicate NeededAt(r: Region, sources: seq<nat>, k: nat) {
    k < |sources| && exists dist: Dists :: Exact(r.corridors, AsSet(sources[..k]), dist)
                                           && FarthestAt(r, dist, sources[k])
  }

  /** So was every source from `n` on. */
  ghost predicate Needed(r: Region, sources: seq<nat>, n: nat) {
    forall k: nat | n <= k < |sources| :: NeededAt(r, sources, k)
  }

  lemma NeededMore(r: Region, sources: seq<nat>, n: nat, dist: Dists, i: nat)
    requires Needed(r, sources, n) && Exact(r.corridors, AsSet(sources), dist) && FarthestAt(r, dist, i)
    ensures Needed(r, sources + [i], n)
  {
    var more := sources + [i];
    forall k: nat | n <= k < |more|
      ensures NeededAt(r, more, k)
    {
      if k < |sources| {
        assert NeededAt(r, sources, k);
        assert more[..k] == sources[..k];
      } else {
        assert more[..k] == sources;
      }
    }
  }

  /** Sources beyond the first `k` are loaded buses below the bulk levels. */
  ghost predicate AddedPromised(r: Region, sources: seq<nat>, k: nat) {
    forall i | k <= i < |sources| :: sources[i] < |r.buses| && r.Promised(sources[i])
  }

  lemma NoneOutOfReach(r: Region, dist: Dists)
    requires |dist| == |r.buses| && (forall i | 0 <= i < |r.buses| :: !r.OutOfReach(dist, i))
    ensures Covered(r, dist)
  {
    forall i: nat | i < |r.buses| && r.Promised(i) && dist[i].Some?
      ensures AtMost(dist[i], r.Reach(i))
    {
      assert !r.OutOfReach(dist, i);
    }
  }

  /** The next bus to regulate, or proof that none is needed. */
  method NextSource(r: Region, sources: seq<nat>) returns (pick: Option<nat>, ghost dist: Dists)
    requires r.Valid() && InRange(r, sources)
    ensures Exact(r.corridors, AsSet(sources), dist) && (pick.None? ==> Covered(r, dist))
    ensures pick.Some? ==> FarthestAt(r, dist, pick.value)
    ensures pick.Some? ==> pick.value < |r.buses| && r.Promised(pick.value) && pick.value !in sources
                           && Free(|r.buses|, sources + [pick.value]) < Free(|r.buses|, sources)
  {
    var d, _ := DistanceToSources(r.corridors, sources);
    assert AsSet(sources) == set s | s in sources;
    dist := d;
    pick := Farthest(r, d);
    if pick.Some? {
      OutOfReachIsNew(r, sources, d, pick.value);
    } else {
      NoneOutOfReach(r, d);
    }
  }

  /** Regulate the farthest bus while one is out of reach. The loop ends because
      a bus out of reach is not a source, so each round adds a new one. */
  method ExtendReach(r: Region, initial: seq<nat>) returns (sources: seq<nat>, ghost reached: Dists)
    requires r.Valid() && Distinct(initial) && InRange(r, initial)
    ensures Distinct(sources) && InRange(r, sources)
    ensures initial <= sources && AddedPromised(r, sources, |initial|) && Needed(r, sources, |initial|)
    ensures Exact(r.corridors, AsSet(sources), reached) && Covered(r, reached)
  {
    sources := initial;
    while true
      invariant Distinct(sources) && InRange(r, sources) && Needed(r, sources, |initial|)
      invariant initial <= sources && AddedPromised(r, sources, |initial|)
      decreases Free(|r.buses|, sources)
    {
      var farthest;
      farthest, reached := NextSource(r, sources);
      if farthest.None? {
        return;
      }
      NeededMore(r, sources, |initial|, reached, farthest.value);
      sources := sources + [farthest.value];
    }
  }

  lemma OutOfReachIsNew(r: Region, sources: seq<nat>, dist: Dists, i: nat)
    requires r.Valid() && i < |r.buses| && Exact(r.corridors, AsSet(sources), dist) && r.OutOfReach(dist, i)
    ensures i !in sources
    ensures Free(|r.buses|, sources + [i]) < Free(|r.buses|, sources)
  {
    assert r.buses[i] in r.buses;
    assert PathFrom(r.corridors, AsSet(sources), At(i)) ==> AtMost(dist[i], At(i).Cost());
    assert i in Free(|r.buses|, sources) && i !in Free(|r.buses|, sources + [i]);
  }

  // ------------------------------------------------------------ condensers

  function Loads(r: Region): seq<real> {
    seq(|r.buses|, i requires 0 <= i < |r.buses| => r.buses[i].load)
  }

  /** Every reached bus's load goes to its recorded source, and nothing is lost. */
  method ServeNearest(r: Region, from: Origins) returns (served: seq<real>)
    requires r.Valid() && |from| == |r.buses| && (forall i | 0 <= i < |from| && from[i].Some? ::
                                                    from[i].value < |r.buses|)
    ensures |served| == |r.buses| && Holds(served, Loads(r), from, |r.buses|)
  {
    served := seq(|r.buses|, _ => 0.0);
    HoldsNothing(|r.buses|, Loads(r), from);
    for i := 0 to |r.buses|
      invariant |served| == |r.buses| && Holds(served, Loads(r), from, i)
    {
      HoldsMore(served, Loads(r), from, i);
      if from[i].Some? {
        var s := from[i].value;
        served := served[s := served[s] + r.buses[i].load];
      }
    }
  }

  /** `c` is a condenser at the end of a corridor walk no longer than the reach of `i`. */
  ghost predicate WithinReachOf(r: Region, c: Condenser, i: nat, p: Path)
    requires i < |r.buses|
  {
    IsPath(r.corridors, p) && p.Start() == c.bus && p.v == i && p.Cost() <= r.Reach(i)
  }

  ghost predicate Regulated(r: Region, out: seq<Condenser>, i: nat)
    requires i < |r.buses|
  {
    exists c, p :: c in out && WithinReachOf(r, c, i, p)
  }

  /** The condensers: one per source that serves load, sized to half of it and
      never below the smallest bank. */
  method SizeCondensers(sources: seq<nat>, served: seq<real>) returns (out: seq<Condenser>)
    requires forall s | s in sources :: s < |served|
    requires Distinct(sources)
    ensures forall c | c in out :: c.bus in sources && c.bus < |served| && served[c.bus] > 0.0
                                   && IsBank(served[c.bus], c.q)
    ensures forall s | s in sources && served[s] > 0.0 :: exists c :: c in out && c.bus == s
    ensures forall i, j | 0 <= i < j < |out| :: out[i].bus != out[j].bus
  {
    out := [];
    for k := 0 to |sources|
      invariant forall c | c in out :: c.bus in sources[..k] && c.bus < |served| && served[c.bus] > 0.0
                                       && IsBank(served[c.bus], c.q)
      invariant forall s | s in sources[..k] :: s < |served| && (served[s] > 0.0 ==> exists c :: c in out && c.bus == s)
      invariant forall i, j | 0 <= i < j < |out| :: out[i].bus != out[j].bus
    {
      var s := sources[k];
      assert s in sources && s !in sources[..k];
      assert sources[..k + 1] == sources[..k] + [s];
      if served[s] > 0.0 {
        var q := Q_SHARE * served[s];
        var c := Condenser(s, if q > MIN_BANK_MVAR then q else MIN_BANK_MVAR);
        assert forall i | 0 <= i < |out| :: out[i] in out;
        out := out + [c];
        assert c in out;
      }
    }
    assert sources[..|sources|] == sources;
  }

  /** One condenser at every source whose nearest buses carry load, sized to it. */
  ghost predicate SizedToNearest(r: Region, sources: seq<nat>, dist: Dists, from: Origins, out: seq<Condenser>) {
    && |from| == |r.buses| == |dist| && Exact(r.corridors, AsSet(sources), dist)
    && (forall v: nat | v < |r.buses| && dist[v].Some? :: exists p :: NearestWalk(r.corridors, dist, from, v, p))
    && (forall c | c in out :: c.bus in sources && Nearby(r, from, c.bus) > 0.0 && IsBank(Nearby(r, from, c.bus), c.q))
    && (forall s | s in sources && Nearby(r, from, s) > 0.0 :: exists c :: c in out && c.bus == s)
  }

  /** The load of the buses nearest to a source. */
  ghost function Nearby(r: Region, from: Origins, s: nat): real
    requires |from| == |r.buses|
  {
    Deposited(Loads(r), from, s, |r.buses|)
  }

  /** Half of the load, but not less than the smallest bank of 5 MVAr. */
  ghost predicate IsBank(load: real, q: real) {
    2.0 * q == if load > 10.0 then load else 10.0
  }

  /** Condensers at regulated buses, sized to the load nearest them. */
  method PlaceCondensers(r: Region, regulated: seq<nat>) returns (out: seq<Condenser>, ghost dist: Dists,
                                                                  ghost from: Origins)
    requires r.Valid() && InRange(r, regulated) && Distinct(regulated)
    ensures forall i, j | 0 <= i < j < |out| :: out[i].bus != out[j].bus
    ensures SizedToNearest(r, regulated, dist, from, out)
    ensures forall i | 0 <= i < |from| && from[i].Some? :: from[i].value in regulated
  {
    var far, nearest := DistanceToSources(r.corridors, regulated);
    dist, from := far, nearest;
    assert AsSet(regulated) == set s | s in regulated;
    var served := ServeNearest(r, nearest);
    out := SizeCondensers(regulated, served);
  }

  /** The buses to regulate: the secondaries, and on a mapped network enough more. */
  method RegulatedBuses(r: Region, mapped: bool) returns (regulated: seq<nat>, ghost initial: seq<nat>,
                                                          ghost reached: Dists)
    requires r.Valid()
    ensures InRange(r, regulated) && Distinct(regulated) && initial <= regulated && AllBelowBulk(r, regulated)
    ensures forall i: nat ::
              i in initial <==> i < |r.buses| && exists c :: c in r.corridors.arcs && r.IsSecondary(c, i)
    ensures mapped && initial != [] ==> Exact(r.corridors, AsSet(regulated), reached) && Covered(r, reached)
    ensures initial == [] ==> regulated == []
    ensures AddedPromised(r, regulated, |initial|) && Needed(r, regulated, |initial|)
            && (!mapped ==> regulated == initial)
  {
    regulated := Secondaries(r);
    initial, reached := regulated, [];
    SecondariesBelowBulk(r, regulated);
    if mapped && |regulated| > 0 {
      regulated, reached := ExtendReach(r, regulated);
      StillBelowBulk(r, initial, regulated);
    }
  }

  ghost predicate AllBelowBulk(r: Region, sources: seq<nat>) {
    forall s | s in sources :: s < |r.buses| && r.buses[s].kv < 200.0
  }

  lemma StillBelowBulk(r: Region, initial: seq<nat>, sources: seq<nat>)
    requires AllBelowBulk(r, initial) && initial <= sources && AddedPromised(r, sources, |initial|)
    ensures AllBelowBulk(r, sources)
  {
    forall i | 0 <= i < |sources|
      ensures sources[i] < |r.buses| && r.buses[sources[i]].kv < BULK_KV
    {
      if i < |initial| {
        assert sources[i] == initial[i] && initial[i] in initial;
      }
    }
  }

  /** On a mapped network every loaded bus below the bulk levels that a
      secondary reaches ends within its reach of a condenser. */
  method RegulateSecondaries(r: Region, mapped: bool) returns (out: seq<Condenser>, ghost sources: seq<nat>,
                                                               ghost dist: Dists, ghost from: Origins)
    requires r.Valid()
    ensures forall i, j | 0 <= i < j < |out| :: out[i].bus != out[j].bus
    ensures forall c | c in out :: c.bus < |r.buses| && r.buses[c.bus].kv < 200.0
    ensures forall i: nat | IsLowerBus(r, i) :: i in sources
    ensures !mapped ==> forall i: nat | i in sources :: IsLowerBus(r, i)
    ensures mapped ==> exists n: nat :: SecondariesFirst(r, sources, n) && Needed(r, sources, n)
    ensures (forall i: nat :: !IsLowerBus(r, i)) ==> sources == []
    ensures sources == [] ==> out == []
    ensures sources != [] ==> Distinct(sources) && SizedToNearest(r, sources, dist, from, out)
    ensures mapped ==> forall i: nat | i < |r.buses| && r.Promised(i) && FedFromSecondary(r, i) :: Regulated(r, out, i)
  {
    ghost var initial, reached;
    var regulated;
    regulated, initial, reached := RegulatedBuses(r, mapped);
    RegulatedAre(r, initial, regulated);
    sources, dist, from := regulated, [], [];
    if |regulated| == 0 {
      out := [];
      SecondariesBelowBulk(r, initial);
      return;
    }
    out, dist, from := PlaceCondensers(r, regulated);
    if mapped {
      ExactIsUnique(r.corridors, AsSet(sources), reached, dist);
      PromisesKept(r, initial, sources, dist, from, out);
    }
  }

  lemma SecondariesBelowBulk(r: Region, sources: seq<nat>)
    requires r.Valid()
    requires forall i: nat ::
               i in sources <==> i < |r.buses| && exists c :: c in r.corridors.arcs && r.IsSecondary(c, i)
    ensures AllBelowBulk(r, sources)
    ensures sources == [] ==> forall i: nat :: !FedFromSecondary(r, i)
  {
    forall i: nat | sources == []
      ensures !FedFromSecondary(r, i)
    {
      assert forall p | SecondaryWalk(r, p) :: p.Start() in sources;
    }
  }

  /** `i` is the lower bus of a site transformer below the bulk levels. */
  ghost predicate IsLowerBus(r: Region, i: nat)
    requires r.Valid()
  {
    i < |r.buses| && exists c :: c in r.corridors.arcs && r.IsSecondary(c, i)
  }

  /** The first `n` sources are exactly the secondaries. */
  ghost predicate SecondariesFirst(r: Region, sources: seq<nat>, n: nat)
    requires r.Valid()
  {
    n <= |sources| && forall i: nat :: i in sources[..n] <==> IsLowerBus(r, i)
  }

  /** The regulated buses are the secondaries and buses that reach was promised to. */
  lemma RegulatedAre(r: Region, initial: seq<nat>, sources: seq<nat>)
    requires r.Valid() && initial <= sources && AddedPromised(r, sources, |initial|)
    requires forall i: nat ::
               i in initial <==> i < |r.buses| && exists c :: c in r.corridors.arcs && r.IsSecondary(c, i)
    ensures forall i: nat | IsLowerBus(r, i) :: i in sources
    ensures forall i: nat | i in sources :: IsLowerBus(r, i) || (i < |r.buses| && r.Promised(i))
    ensures sources == initial ==> forall i: nat | i in sources :: IsLowerBus(r, i)
    ensures (forall i: nat :: !IsLowerBus(r, i)) ==> initial == []
    ensures SecondariesFirst(r, sources, |initial|)
  {
    assert sources[..|initial|] == initial;
    forall i: nat | IsLowerBus(r, i)
      ensures i in sources
    {
      assert i in initial;
      var k :| 0 <= k < |initial| && initial[k] == i;
      assert sources[k] == i;
    }
    forall i: nat | i in sources
      ensures IsLowerBus(r, i) || (i < |r.buses| && r.Promised(i))
    {
      var k :| 0 <= k < |sources| && sources[k] == i;
      if k < |initial| {
        assert initial[k] == i && i in initial;
      }
    }
    if initial != [] {
      assert initial[0] in initial;
      assert IsLowerBus(r, initial[0]);
    }
  }

  /** Some regulated secondary reaches `i` along corridors. */
  ghost predicate FedFromSecondary(r: Region, i: nat)
    requires r.Valid()
  {
    exists p :: SecondaryWalk(r, p) && p.v == i
  }

  ghost predicate SecondaryWalk(r: Region, p: Path)
    requires r.Valid()
  {
    IsPath(r.corridors, p) && p.Start() < |r.buses| && exists c :: c in r.corridors.arcs && r.IsSecondary(c, p.Start())
  }

  lemma PromisesKept(r: Region, initial: seq<nat>, sources: seq<nat>, dist: Dists, from: Origins, out: seq<Condenser>)
    requires r.Valid() && InRange(r, sources) && initial <= sources
    requires forall s: nat ::
               s in initial <==> s < |r.buses| && exists c :: c in r.corridors.arcs && r.IsSecondary(c, s)
    requires SizedToNearest(r, sources, dist, from, out) && Covered(r, dist)
    requires forall i | 0 <= i < |from| && from[i].Some? :: from[i].value in sources
    ensures forall i: nat | i < |r.buses| && r.Promised(i) && FedFromSecondary(r, i) :: Regulated(r, out, i)
  {
    forall i: nat | i < |r.buses| && r.Promised(i) && FedFromSecondary(r, i)
      ensures Regulated(r, out, i)
    {
      PromiseKept(r, initial, sources, dist, from, out, i);
    }
  }

  lemma PromiseKept(r: Region, initial: seq<nat>, sources: seq<nat>, dist: Dists, from: Origins, out: seq<Condenser>,
                    i: nat)
    requires r.Valid() && i < |r.buses| && r.Promised(i) && FedFromSecondary(r, i) && InRange(r, sources)
             && initial <= sources
    requires forall s: nat ::
               s in initial <==> s < |r.buses| && exists c :: c in r.corridors.arcs && r.IsSecondary(c, s)
    requires SizedToNearest(r, sources, dist, from, out) && Covered(r, dist)
    requires from[i].Some? ==> from[i].value in sources
    ensures Regulated(r, out, i)
  {
    var q :| SecondaryWalk(r, q) && q.v == i;
    assert q.Start() in initial;
    assert PathFrom(r.corridors, AsSet(sources), q);
    assert AtMost(dist[i], q.Cost());
    var p :| NearestWalk(r.corridors, dist, from, i, p);
    assert forall j | 0 <= j < |r.buses| :: r.buses[j] in r.buses;
    DepositedAtLeast(Loads(r), from, i, |r.buses|);
    var c :| c in out && c.bus == from[i].value;
    assert WithinReachOf(r, c, i, p);
  }
}
