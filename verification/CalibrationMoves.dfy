/**
 What the calibration search does, in terms of rows, classes and targets: which move
 it makes when, what a parameter does to the network, and what its objective and its
 final status mean.
 */
module CalibrationMoves {
  import opened Options
  import Geometry
  import opened Sums
  import opened Calibration

  // ------------------------------------------------------------ totals

  ghost function LoadsInService(net: Network): seq<real> {
    seq(|net.loads|, k requires 0 <= k < |net.loads| => if net.loads[k].inService then net.loads[k].p else 0.0)
  }

  ghost function CapacitiesInService(net: Network): seq<real> {
    seq(|net.gens|, k requires 0 <= k < |net.gens| => if net.gens[k].inService then net.gens[k].pmax else 0.0)
  }

  lemma {:induction false} TotalLoadIs(net: Network)
    ensures TotalLoad(net.loads) == Sum(LoadsInService(net))
    decreases |net.loads|
  {
    if net.loads != [] {
      var n := |net.loads| - 1;
      TotalLoadIs(net.(loads := net.loads[..n]));
      assert LoadsInService(net)[..n] == LoadsInService(net.(loads := net.loads[..n]));
    }
  }

  lemma {:induction false} TotalCapacityIs(net: Network)
    ensures TotalCapacity(net.gens) == Sum(CapacitiesInService(net))
    decreases |net.gens|
  {
    if net.gens != [] {
      var n := |net.gens| - 1;
      TotalCapacityIs(net.(gens := net.gens[..n]));
      assert CapacitiesInService(net)[..n] == CapacitiesInService(net.(gens := net.gens[..n]));
    }
  }

  // ------------------------------------------------------------ overloaded rows

  /** Row `k` is a named branch, solved and loaded above the target. */
  ghost predicate HotRow(branches: seq<Branch>, loading: seq<Option<real>>, target: real, k: nat) {
    && k < |branches| && k < |loading| && loading[k].Some? && loading[k].value > target
    && branches[k].uid.Some? && branches[k].uid.value != ""
  }

  ghost predicate Hot(branches: seq<Branch>, loading: seq<Option<real>>, target: real, u: string, k: nat) {
    HotRow(branches, loading, target, k) && branches[k].uid.value == u
  }

  ghost predicate AnyHot(branches: seq<Branch>, loading: seq<Option<real>>, target: real) {
    exists k: nat :: HotRow(branches, loading, target, k)
  }

  ghost function HotRows(branches: seq<Branch>, loading: seq<Option<real>>, target: real, u: string): set<nat> {
    set k: nat | k < |branches| && Hot(branches, loading, target, u, k)
  }

  ghost function NotchesOf(notches: map<string, nat>, u: string): nat {
    if u in notches then notches[u] else 0
  }

  lemma {:induction false} NotchesAdded(notches: map<string, nat>, branches: seq<Branch>, loading: seq<Option<real>>,
                                        target: real, u: string)
    ensures var q := Bumped(notches, Overloaded(branches, loading, target));
            && NotchesOf(q, u) == NotchesOf(notches, u) + |HotRows(branches, loading, target, u)|
            && (u in q <==> u in notches || HotRows(branches, loading, target, u) != {})
    ensures Overloaded(branches, loading, target) != [] <==> AnyHot(branches, loading, target)
  {
    if branches == [] {
      assert HotRows(branches, loading, target, u) == {};
    } else {
      var n := |branches| - 1;
      NotchesAdded(notches, branches[..n], loading, target, u);
      HotBefore(branches, loading, target, u);
      var prior, uids := Overloaded(branches[..n], loading, target), Overloaded(branches, loading, target);
      if uids != prior {
        assert uids[..|uids| - 1] == prior;
        assert HotRow(branches, loading, target, n);
      }
      SomeHot(branches, loading, target);
    }
  }

  lemma HotBefore(branches: seq<Branch>, loading: seq<Option<real>>, target: real, u: string)
    requires branches != []
    ensures var n := |branches| - 1;
            var (all, before) := (HotRows(branches, loading, target, u), HotRows(branches[..n], loading, target, u));
            if Hot(branches, loading, target, u, n) then all == before + {n} && n !in before else all == before
  {
    var n := |branches| - 1;
    forall k: nat | k < n
      ensures Hot(branches, loading, target, u, k) <==> Hot(branches[..n], loading, target, u, k)
    {
    }
  }

  lemma SomeHot(branches: seq<Branch>, loading: seq<Option<real>>, target: real)
    requires branches != []
    ensures var n := |branches| - 1;
            AnyHot(branches, loading, target) <==>
            AnyHot(branches[..n], loading, target) || HotRow(branches, loading, target, n)
  {
    var n := |branches| - 1;
    if k: nat :| HotRow(branches, loading, target, k) && k != n {
      assert HotRow(branches[..n], loading, target, k);
    }
    if k: nat :| HotRow(branches[..n], loading, target, k) {
      assert HotRow(branches, loading, target, k);
    }
  }

  // ------------------------------------------------------------ the least loaded class

  /** Row `k` is a solved branch of class `c`. */
  ghost predicate SolvedIn(s: Setup, loading: seq<Option<real>>, c: Class, k: nat) {
    k < |loading| && k < |s.classOf| && s.classOf[k] == c && loading[k].Some?
  }

  /** `m` is the highest loading of the class, zero if all are below. */
  ghost predicate PeaksAt(s: Setup, loading: seq<Option<real>>, c: Class, m: real) {
    && m >= 0.0 && (forall k: nat | SolvedIn(s, loading, c, k) :: loading[k].value <= m)
    && (m > 0.0 ==> exists k: nat :: SolvedIn(s, loading, c, k) && loading[k].value == m)
  }

  /** The class has a solved branch, and a scale above the least. */
  ghost predicate Loose(s: Setup, p: Params, loading: seq<Option<real>>, c: Class) {
    && (exists k: nat :: SolvedIn(s, loading, c, k))
    && (if c in p.rating then p.rating[c] > 0.800000000001 else true)
  }

  /** Of the loose classes the one whose peak is lowest, the first of equals. */
  ghost predicate LoosestAt(s: Setup, p: Params, loading: seq<Option<real>>, n: nat, i: nat)
    requires n <= |s.classes|
  {
    && i < n && Loose(s, p, loading, s.classes[i])
    && forall j: nat, x: real, y: real | j < n && Loose(s, p, loading, s.classes[j])
                                         && PeaksAt(s, loading, s.classes[i], x)
                                         && PeaksAt(s, loading, s.classes[j], y) ::
         x < y || (x == y && i <= j)
  }

  ghost predicate SolvedBelow(s: Setup, loading: seq<Option<real>>, c: Class, n: nat) {
    exists k: nat :: k < n && SolvedIn(s, loading, c, k)
  }

  lemma {:induction false} ClassPeakIs(s: Setup, loading: seq<Option<real>>, c: Class, n: nat)
    requires n <= |loading|
    ensures ClassPeak(s, loading, c, n).Some? <==> SolvedBelow(s, loading, c, n)
    ensures ClassPeak(s, loading, c, n).Some? ==> PeaksAt(s, loading[..n], c, ClassPeak(s, loading, c, n).value)
  {
    if n > 0 {
      var k := n - 1;
      ClassPeakIs(s, loading, c, k);
      PeakMore(s, loading, c, k);
    }
  }

  lemma PeakMore(s: Setup, loading: seq<Option<real>>, c: Class, n: nat)
    requires n < |loading|
    ensures SolvedBelow(s, loading, c, n + 1) <==> SolvedBelow(s, loading, c, n) || SolvedIn(s, loading, c, n)
    ensures !SolvedIn(s, loading, c, n) ==>
              forall m :: PeaksAt(s, loading[..n], c, m) ==> PeaksAt(s, loading[..n + 1], c, m)
    ensures SolvedIn(s, loading, c, n) ==>
              forall m :: PeaksAt(s, loading[..n], c, m) ==>
                            PeaksAt(s, loading[..n + 1], c, if loading[n].value > m then loading[n].value else m)
    ensures SolvedIn(s, loading, c, n) && !SolvedBelow(s, loading, c, n) ==> PeaksAt(s, loading[..n], c, 0.0)
  {
    var more, less := loading[..n + 1], loading[..n];
    assert forall k: nat | k < n :: SolvedIn(s, more, c, k) <==> SolvedIn(s, less, c, k);
    assert SolvedIn(s, more, c, n) <==> SolvedIn(s, loading, c, n);
    assert forall k: nat | SolvedIn(s, more, c, k) :: k < n || k == n;
    forall m | PeaksAt(s, less, c, m)
      ensures PeaksAt(s, more, c, if SolvedIn(s, loading, c, n) && loading[n].value > m then loading[n].value else m)
    {
      if m > 0.0 {
        var k: nat :| SolvedIn(s, less, c, k) && less[k].value == m;
        assert SolvedIn(s, more, c, k) && more[k].value == m;
      }
    }
    forall k: nat | SolvedIn(s, less, c, k)
      ensures SolvedIn(s, loading, c, k)
    {
    }
  }

  lemma OnePeak(s: Setup, loading: seq<Option<real>>, c: Class, x: real, y: real)
    requires PeaksAt(s, loading, c, x) && PeaksAt(s, loading, c, y)
    ensures x == y
  {
  }

  lemma PeakOf(s: Setup, p: Params, loading: seq<Option<real>>, c: Class) returns (peak: Option<real>)
    ensures peak == ClassPeak(s, loading, c, |loading|)
    ensures peak.Some? <==> exists k: nat :: SolvedIn(s, loading, c, k)
    ensures peak.Some? ==> forall x :: PeaksAt(s, loading, c, x) <==> x == peak.value
  {
    peak := ClassPeak(s, loading, c, |loading|);
    ClassPeakIs(s, loading, c, |loading|);
    assert loading[..|loading|] == loading;
    if k: nat :| SolvedIn(s, loading, c, k) {
      assert SolvedBelow(s, loading, c, |loading|);
    }
    if peak.Some? {
      forall x | PeaksAt(s, loading, c, x)
        ensures x == peak.value
      {
        OnePeak(s, loading, c, x, peak.value);
      }
    }
  }

  lemma {:induction false} LeastLoadedIs(s: Setup, p: Params, loading: seq<Option<real>>, n: nat) returns (i: nat)
    requires n <= |s.classes|
    ensures var c := LeastLoaded(s, p, loading, n);
            if c.Some? then LoosestAt(s, p, loading, n, i) && c.value == s.classes[i]
            else forall j: nat | j < n :: !Loose(s, p, loading, s.classes[j])
  {
    if n == 0 {
      return 0;
    }
    i := LeastLoadedIs(s, p, loading, n - 1);
    var c := s.classes[n - 1];
    var prior := LeastLoaded(s, p, loading, n - 1);
    var peak := PeakOf(s, p, loading, c);
    if Loose(s, p, loading, c) {
      if prior.None? {
        return n - 1;
      }
      var low := PeakOf(s, p, loading, prior.value);
      if peak.value < low.value {
        LowerLoosest(s, p, loading, n - 1, i, low.value, peak.value);
        return n - 1;
      }
    }
  }

  lemma LowerLoosest(s: Setup, p: Params, loading: seq<Option<real>>, n: nat, i: nat, x: real, y: real)
    requires n < |s.classes| && LoosestAt(s, p, loading, n, i) && Loose(s, p, loading, s.classes[n])
    requires PeaksAt(s, loading, s.classes[i], x) && PeaksAt(s, loading, s.classes[n], y) && y < x
    ensures LoosestAt(s, p, loading, n + 1, n)
  {
    forall j: nat, u: real, v: real | j < n + 1 && Loose(s, p, loading, s.classes[j])
                                      && PeaksAt(s, loading, s.classes[n], u) && PeaksAt(s, loading, s.classes[j], v)
      ensures u < v || (u == v && n <= j)
    {
      OnePeak(s, loading, s.classes[n], u, y);
      if j == n {
        OnePeak(s, loading, s.classes[n], u, v);
      }
    }
  }

  // ------------------------------------------------------------ the move made

  ghost function RowLoading(x: Option<real>): real {
    if x.Some? then x.value else 0.0
  }

  /** Nothing in an infeasible solve names a culprit: every rating goes up by a tenth,
      capped, as long as one can still move. */
  ghost predicate RaisesRatings(p: Params, q: Params, moved: bool) {
    && (moved <==> exists c :: c in p.rating && p.rating[c] < 1.499999999999)
    && q == p.(rating := q.rating) && q.rating.Keys == p.rating.Keys
    && (forall c | c in p.rating :: q.rating[c] == if !moved then p.rating[c] else
                                                   if 1.1 * p.rating[c] < 1.5 then 1.1 * p.rating[c] else 1.5)
  }

  /** One more notch on a name for every overloaded row that bears it. */
  ghost predicate AddsNotches(p: Params, q: Params, moved: bool, branches: seq<Branch>, loading: seq<Option<real>>,
                              target: real) {
    && (moved <==> AnyHot(branches, loading, target)) && q == p.(notches := q.notches)
    && (forall u :: NotchesOf(q.notches, u) == NotchesOf(p.notches, u) + |HotRows(branches, loading, target, u)|)
    && (forall u :: u in q.notches <==> u in p.notches || HotRows(branches, loading, target, u) != {})
  }

  /** Every capacity grows by what is wanted over what there is, capped; a move if that
      changes one by more than 1e-12. */
  ghost predicate RaisesCapacity(p: Params, q: Params, moved: bool, ratio: real) {
    && q == p.(capacity := q.capacity) && q.capacity.Keys == p.capacity.Keys
    && (forall f | f in p.capacity ::
          q.capacity[f] == if p.capacity[f] * ratio < 1.5 then p.capacity[f] * ratio else 1.5)
    && (moved <==> exists f :: f in p.capacity && (q.capacity[f] - p.capacity[f] > 0.000000000001
                                                   || p.capacity[f] - q.capacity[f] > 0.000000000001))
  }

  /** The loosest class, if any is loose, is tightened by a tenth, not below the least scale. */
  ghost predicate TightensLoosest(s: Setup, p: Params, q: Params, moved: bool, loading: seq<Option<real>>) {
    if moved then exists i: nat :: LoosestAt(s, p, loading, |s.classes|, i) && TightensClass(p, q, s.classes[i])
    else q == p && forall j: nat | j < |s.classes| :: !Loose(s, p, loading, s.classes[j])
  }

  ghost predicate TightensClass(p: Params, q: Params, c: Class) {
    var scale := if c in p.rating then p.rating[c] else 1.0;
    q == p.(rating := p.rating[c := if 0.9 * scale > 0.8 then 0.9 * scale else 0.8])
  }

  /** Capacity in service falls short of the load in service and its reserve. */
  ghost predicate ShortOfReserve(s: Setup, net: Network) {
    var (load, cap) := (Sum(LoadsInService(net)), Sum(CapacitiesInService(net)));
    load > 0.0 && cap < (1.0 + s.reserveMargin) * load - 0.000001
  }

  /** What is wanted over what there is. */
  ghost function WantedRatio(s: Setup, net: Network): real {
    var (load, cap) := (Sum(LoadsInService(net)), Sum(CapacitiesInService(net)));
    ((1.0 + s.reserveMargin) * load) / (if cap > 0.000000001 then cap else 0.000000001)
  }

  /** The move from `p` to `q` after `run`: relief if infeasible; else notches if a
      loading is above the target; else capacity if the reserve is short; else a
      tighter class if loadings are low; else none. */
  ghost predicate IsMove(s: Setup, p: Params, run: Run, net: Network, q: Params, moved: bool) {
    if !run.feasible then RaisesRatings(p, q, moved)
    else if RowLoading(run.maxLoading) > s.targets.loadingTarget + 0.000000001 then
      AddsNotches(p, q, moved, net.branches, run.loading, s.targets.loadingTarget)
    else if ShortOfReserve(s, net) then RaisesCapacity(p, q, moved, WantedRatio(s, net))
    else if RowLoading(run.p90) < s.targets.p90Min - 0.000000001 then TightensLoosest(s, p, q, moved, run.loading)
    else q == p && !moved
  }

  lemma NotchesAre(p: Params, branches: seq<Branch>, loading: seq<Option<real>>, target: real)
    ensures var r := NotchOverloaded(p, Overloaded(branches, loading, target));
            AddsNotches(p, r.params, r.moved, branches, loading, target)
  {
    var uids := Overloaded(branches, loading, target);
    NotchesAdded(p.notches, branches, loading, target, "");
    forall u
      ensures var q := NotchOverloaded(p, uids).params.notches;
              && NotchesOf(q, u) == NotchesOf(p.notches, u) + |HotRows(branches, loading, target, u)|
              && (u in q <==> u in p.notches || HotRows(branches, loading, target, u) != {})
    {
      NotchesAdded(p.notches, branches, loading, target, u);
    }
  }

  lemma TightenIs(s: Setup, p: Params, loading: seq<Option<real>>)
    ensures var r := TightenLeast(p, LeastLoaded(s, p, loading, |s.classes|));
            TightensLoosest(s, p, r.params, r.moved, loading)
  {
    var c := LeastLoaded(s, p, loading, |s.classes|);
    var i := LeastLoadedIs(s, p, loading, |s.classes|);
    if c.Some? {
      assert TightensClass(p, TightenLeast(p, c).params, s.classes[i]);
    }
  }

  lemma RaisedTo<K>(scales: map<K, real>, ratio: real)
    ensures Raised(scales, ratio).Keys == scales.Keys
    ensures forall f | f in scales ::
              Raised(scales, ratio)[f] == if scales[f] * ratio < 1.5 then scales[f] * ratio else 1.5
  {
  }

  lemma RatingsAre(p: Params)
    ensures RaisesRatings(p, RaiseRatings(p).params, RaiseRatings(p).moved)
  {
    RaisedTo(p.rating, INFEASIBLE_STEP);
  }

  lemma CapacityIs(p: Params, ratio: real)
    ensures RaisesCapacity(p, RaiseCapacity(p, ratio).params, RaiseCapacity(p, ratio).moved, ratio)
  {
    RaisedTo(p.capacity, ratio);
  }

  lemma RatioIs(s: Setup, net: Network)
    ensures Ratio(s, net) == WantedRatio(s, net) && (Short(s, net) <==> ShortOfReserve(s, net))
  {
    TotalLoadIs(net);
    TotalCapacityIs(net);
  }

  /** The calibrator's choice is that move. */
  lemma ChooseIsMove(s: Setup, p: Params, run: Run, net: Network)
    ensures IsMove(s, p, run, net, Choose(s, p, run, net).params, Choose(s, p, run, net).moved)
  {
    RatioIs(s, net);
    if !run.feasible {
      RatingsAre(p);
    } else if OrZero(run.maxLoading) > s.targets.loadingTarget + TOLERANCE {
      NotchesAre(p, net.branches, run.loading, s.targets.loadingTarget);
    } else if Short(s, net) {
      CapacityIs(p, Ratio(s, net));
    } else {
      TightenIs(s, p, run.loading);
    }
  }

  // ------------------------------------------------------------ what parameters do

  ghost function ScaleIn<K(!new)>(scales: map<K, real>, k: K): real {
    if k in scales then scales[k] else 1.0
  }

  /** What the parameters put on the network: ratings by class and notch, capacity and
      reactive limits by fuel with dispatch held below, loads by one factor; nothing
      else changes. */
  lemma AppliedIs(s: Setup, p: Params, net: Network)
    requires Fits(s, net)
    ensures var r := Applied(s, p, net);
            && |r.branches| == |net.branches| && |r.gens| == |net.gens| && |r.loads| == |net.loads|
            && (forall k | 0 <= k < |net.branches| && (net.branches[k].uid.None?
                                                       || net.branches[k].uid.value !in p.notches) ::
                  r.branches[k] == net.branches[k].(rate := s.rate[k] * ScaleIn(p.rating, s.classOf[k])))
            && (forall k | 0 <= k < |net.gens| ::
                  var (f, g, was) := (ScaleIn(p.capacity, s.fuelOf[k]), r.gens[k], net.gens[k]);
                  && g.pmax == s.pmax[k] * f && g.qmax == s.qmax[k] * f && g.qmin == s.qmin[k] * f
                  && g.inService == was.inService && g.pg <= g.pmax && (was.pg <= g.pmax ==> g.pg == was.pg)
                  && (was.pg > g.pmax ==> g.pg == g.pmax))
            && (forall k | 0 <= k < |net.loads| ::
                  r.loads[k] == net.loads[k].(p := s.load[k].0 * p.load, q := s.load[k].1 * p.load))
  {
    assert Pow(NOTCH_FACTOR, 0) == 1.0;
    forall k | 0 <= k < |net.gens|
      ensures GenScale(s, p, k) == ScaleIn(p.capacity, s.fuelOf[k])
    {
    }
  }

  /** One more notch on a branch raises its rating, and no other, by 15 percent. */
  lemma NotchRaises(s: Setup, p: Params, net: Network, u: string, k: nat)
    requires Fits(s, net) && k < |net.branches|
    ensures var q := p.(notches := p.notches[u := NotchesOf(p.notches, u) + 1]);
            var (was, now) := (Applied(s, p, net).branches[k].rate, Applied(s, q, net).branches[k].rate);
            now == if net.branches[k].uid == Some(u) then 1.15 * was else was
  {
    var base := s.rate[k] * ScaleOf(p.rating, s.classOf[k]);
    var n := NotchesOf(p.notches, u);
    assert Pow(NOTCH_FACTOR, n + 1) == NOTCH_FACTOR * Pow(NOTCH_FACTOR, n);
    Reorder(base, Pow(NOTCH_FACTOR, n));
  }

  lemma Reorder(x: real, y: real)
    ensures x * (1.15 * y) == 1.15 * (x * y)
  {
  }

  // ------------------------------------------------------------ the objective and the status

  ghost predicate IsSquareOver(x: real, over: real) {
    x == if over > 0.0 then over * over else 0.0
  }

  /** Each term is the square of what its target is missed by, and the objective their
      weighted sum; an infeasible run misses by one and has no loadings to judge. */
  lemma ObjectiveIs(s: Setup, net: Network, run: Run)
    ensures var t := Evaluate(s, net, run);
            var (load, cap) := (Sum(LoadsInService(net)), Sum(CapacitiesInService(net)));
            var b := run.bindingFraction;
            && t.avgDegree == s.avgDegree && t.hvShare == s.hvShare
            && t.infeasible == (if run.feasible then 0.0 else 1.0)
            && IsSquareOver(t.loadingExcess, RowLoading(run.maxLoading) - s.targets.loadingTarget)
            && IsSquareOver(t.underuse, if run.feasible then s.targets.p90Min - RowLoading(run.p90) else 0.0)
            && IsSquareOver(t.binding, if !run.feasible then 0.0 else if b < s.targets.bindingLo
                            then s.targets.bindingLo - b else b - s.targets.bindingHi)
            && IsSquareOver(t.reserve, if load > 0.0 then 1.0 + s.reserveMargin - cap / load else 0.0)
            && t.Objective() == 0.5 * t.avgDegree + 0.5 * t.hvShare + 10.0 * t.infeasible + 4.0 * t.loadingExcess
                                + t.underuse + 2.0 * t.binding + 2.0 * t.reserve
  {
    TotalLoadIs(net);
    TotalCapacityIs(net);
  }

  /** All that the parameters can move is where it should be. */
  ghost predicate MeetsTargets(s: Setup, net: Network, run: Run) {
    var (load, cap) := (Sum(LoadsInService(net)), Sum(CapacitiesInService(net)));
    && run.feasible && RowLoading(run.maxLoading) <= s.targets.loadingTarget
    && RowLoading(run.p90) >= s.targets.p90Min
    && s.targets.bindingLo <= run.bindingFraction <= s.targets.bindingHi
    && (load > 0.0 ==> cap >= (1.0 + s.reserveMargin) * load)
  }

  /** The objective is what the structure costs if and only if every target is met, and
      more otherwise. */
  lemma ObjectiveLeastIff(s: Setup, net: Network, run: Run)
    requires s.targets.bindingLo <= s.targets.bindingHi
    ensures var (least, all) := (0.5 * s.avgDegree + 0.5 * s.hvShare, Evaluate(s, net, run).Objective());
            all >= least && (all == least <==> MeetsTargets(s, net, run))
  {
    var t, b := Evaluate(s, net, run), run.bindingFraction;
    var load, cap := Sum(LoadsInService(net)), Sum(CapacitiesInService(net));
    ObjectiveIs(s, net, run);
    SquareOver(t.loadingExcess, RowLoading(run.maxLoading) - s.targets.loadingTarget);
    SquareOver(t.underuse, if run.feasible then s.targets.p90Min - RowLoading(run.p90) else 0.0);
    SquareOver(t.binding, if !run.feasible then 0.0 else if b < s.targets.bindingLo
               then s.targets.bindingLo - b else b - s.targets.bindingHi);
    SquareOver(t.reserve, if load > 0.0 then 1.0 + s.reserveMargin - cap / load else 0.0);
    if load > 0.0 {
      QuotientBound(cap, load, 1.0 + s.reserveMargin);
    }
  }

  lemma SquareOver(x: real, over: real)
    requires IsSquareOver(x, over)
    ensures x >= 0.0 && (x == 0.0 <==> over <= 0.0)
  {
    if over > 0.0 {
      Geometry.SquarePositive(over);
      assert Geometry.Sq(over) == over * over;
    }
  }

  lemma QuotientBound(cap: real, load: real, m: real)
    requires load > 0.0
    ensures m - cap / load <= 0.0 <==> cap >= m * load
  {
    var q := cap / load;
    assert q * load == cap;
    if m <= q {
      assert (q - m) * load >= 0.0;
    } else {
      assert (m - q) * load > 0.0;
    }
  }

  /** How a search ends: converged when the terms it can move are within tolerance,
      else infeasible, improved or unchanged. */
  lemma FinalStatusIs(s: Setup, c: State)
    requires s.enabled
    ensures var (small, st) := (Small(c.terms), FinalStatus(s, c));
            && (st == Converged <==> small)
            && (st == Infeasible <==> !small && !c.current.feasible)
            && (st == Improved <==> !small && c.current.feasible && c.initial - c.objective > 0.000000001)
            && (st == Unchanged <==> !small && c.current.feasible && c.initial - c.objective <= 0.000000001)
  {
  }

  ghost predicate Small(t: Terms) {
    && t.infeasible <= 0.000000001 && t.loadingExcess <= 0.000000001 && t.underuse <= 0.000000001
    && t.binding <= 0.000000001 && t.reserve <= 0.000000001
  }

  /** One iteration of an unfinished search: the move, the network moved, the re-solve
      judged by whether it lowers the objective, the record, what is kept, and when the
      search goes on. */
  lemma IterationIs(s: Setup, c: State, net: Network, opf: Network -> Solve)
    requires Fits(s, net) && !c.finished
    ensures var r := Iterated(s, c, net, opf);
            exists q, moved :: IsMove(s, c.params, c.current, net, q, moved)
                               && IterationMade(s, c, net, opf, q, moved, r)
  {
    var choice := Choose(s, c.params, c.current, net);
    ChooseIsMove(s, c.params, c.current, net);
    assert IterationMade(s, c, net, opf, choice.params, choice.moved, Iterated(s, c, net, opf));
  }

  ghost predicate IterationMade(s: Setup, c: State, net: Network, opf: Network -> Solve, q: Params, moved: bool,
                                r: Result)
    requires Fits(s, net)
  {
    && r.state.params == q && r.state.iteration == c.iteration + 1 && r.state.initial == c.initial
    && (!moved ==> r.net == net && r.state.finished && r.outcome == Outcome(true, false) && r.state.steps == c.steps
                   && r.state.current == c.current && r.state.terms == c.terms && r.state.objective == c.objective)
    && (moved ==>
          var tried := Applied(s, q, net);
          match opf(tried)
          case Failed => r.net == tried && r.outcome == SolveFailed
          case Solved(run) =>
            var t := Evaluate(s, tried, run);
            var better := c.objective - t.Objective() > 0.000000001;
            && r.outcome == Outcome(r.state.finished, better)
            && r.state.steps == c.steps + [StepRecord(c.iteration + 1, c.objective, t.Objective(), better)]
            && (better ==> r.net == tried && r.state.current == run && r.state.terms == t
                           && r.state.objective == t.Objective())
            && (!better ==> r.net == Applied(s, q, tried) && r.state.current == c.current && r.state.terms == c.terms
                            && r.state.objective == c.objective)
            && (r.state.finished <==> !better || c.iteration + 1 >= s.maxIterations || Small(t)))
  }
}
