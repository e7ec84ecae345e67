/**
 What the calibration search keeps over every run, and what a rejected step
 leaves behind.
 */
module CalibrationRuns {
  import opened Options
  import opened Calibration

  // ------------------------------------------------------------ bounds

  ghost predicate InBounds<K(!new)>(scales: map<K, real>) {
    forall k | k in scales :: SCALE_MIN <= scales[k] <= SCALE_MAX
  }

  ghost predicate ScalesOk(p: Params) {
    InBounds(p.rating) && InBounds(p.capacity)
  }

  /** Base capacities and those on the network are not negative. */
  ghost predicate CapacitiesOk(s: Setup, net: Network) {
    && Fits(s, net) && (forall k | 0 <= k < |s.pmax| :: s.pmax[k] >= 0.0)
    && (forall k | 0 <= k < |net.gens| :: net.gens[k].pmax >= 0.0)
  }

  lemma {:induction false} CapacityNotNegative(gens: seq<Gen>)
    requires forall k | 0 <= k < |gens| :: gens[k].pmax >= 0.0
    ensures TotalCapacity(gens) >= 0.0
  {
    if gens != [] {
      CapacityNotNegative(gens[..|gens| - 1]);
    }
  }

  lemma ScaledNotNegative(a: real, b: real)
    requires a >= 0.0 && b >= 0.0
    ensures a * b >= 0.0
  {
  }

  lemma AppliedKeepsCapacities(s: Setup, p: Params, net: Network)
    requires CapacitiesOk(s, net) && ScalesOk(p)
    ensures CapacitiesOk(s, Applied(s, p, net))
  {
  }

  lemma RatioAtLeastOne(want: real, cap: real)
    requires 0.0 <= cap < want - 0.000001
    ensures ReserveRatio(want, cap) >= 1.0
  {
    var d := if cap > TOLERANCE then cap else TOLERANCE;
    assert want / d >= 1.0 by {
      assert want >= d;
      DivideAtLeastOne(want, d);
    }
  }

  lemma DivideAtLeastOne(a: real, d: real)
    requires a >= d > 0.0
    ensures a / d >= 1.0
  {
    var q := a / d;
    assert q * d == a;
    if q < 1.0 {
      SmallerProduct(q, d);
    }
  }

  lemma SmallerProduct(q: real, d: real)
    requires q < 1.0 && d > 0.0
    ensures q * d < d
  {
    var r := 1.0 - q;
    assert r * d > 0.0;
    assert r * d == d - q * d;
  }

  /** Raising by a factor of one or more stays in bounds and lowers nothing. */
  lemma RaisedInBounds<K(!new)>(scales: map<K, real>, factor: real)
    requires InBounds(scales) && factor >= 1.0
    ensures InBounds(Raised(scales, factor)) && forall k | k in scales :: Raised(scales, factor)[k] >= scales[k]
  {
    forall k | k in scales
      ensures scales[k] <= Raised(scales, factor)[k] <= SCALE_MAX
    {
      CappedAtLeast(scales[k], factor);
    }
  }

  lemma CappedAtLeast(x: real, factor: real)
    requires 0.0 <= x <= SCALE_MAX && factor >= 1.0
    ensures x <= Capped(x * factor) <= SCALE_MAX
  {
    GrownProduct(x, factor);
  }

  lemma GrownProduct(x: real, factor: real)
    requires x >= 0.0 && factor >= 1.0
    ensures x * factor >= x
  {
    var g := factor - 1.0;
    ScaledNotNegative(x, g);
    assert x * g == x * factor - x;
  }

  ghost predicate NoLower(p: Params, q: Params) {
    p.capacity.Keys == q.capacity.Keys && forall f | f in p.capacity :: q.capacity[f] >= p.capacity[f]
  }

  lemma LeastLoadedCanTighten(s: Setup, p: Params, loading: seq<Option<real>>, n: nat)
    requires n <= |s.classes| && LeastLoaded(s, p, loading, n).Some?
    ensures ScaleOf(p.rating, LeastLoaded(s, p, loading, n).value) > SCALE_MIN + EPSILON
  {
  }

  ghost predicate GoodMove(p: Params, q: Params) {
    ScalesOk(q) && NoLower(p, q)
  }

  lemma RaiseRatingsGood(p: Params)
    requires ScalesOk(p)
    ensures GoodMove(p, RaiseRatings(p).params)
  {
  }

  lemma RaiseCapacityGood(p: Params, ratio: real)
    requires ScalesOk(p) && ratio >= 1.0
    ensures GoodMove(p, RaiseCapacity(p, ratio).params)
  {
    RaisedInBounds(p.capacity, ratio);
  }

  lemma TightenLeastGood(p: Params, c: Option<Class>)
    requires ScalesOk(p)
    ensures GoodMove(p, TightenLeast(p, c).params)
  {
  }

  lemma RatioOfNetwork(s: Setup, net: Network)
    requires CapacitiesOk(s, net) && Short(s, net)
    ensures Ratio(s, net) >= 1.0
  {
    CapacityNotNegative(net.gens);
    RatioAtLeastOne(Wanted(s, net), TotalCapacity(net.gens));
  }

  /** Every move keeps every scale in bounds, and never lowers a capacity. */
  lemma ChooseKeepsBounds(s: Setup, p: Params, run: Run, net: Network)
    requires ScalesOk(p) && CapacitiesOk(s, net)
    ensures GoodMove(p, Choose(s, p, run, net).params)
  {
    RaiseRatingsGood(p);
    if Short(s, net) {
      RatioOfNetwork(s, net);
      RaiseCapacityGood(p, Ratio(s, net));
    }
    TightenLeastGood(p, LeastLoaded(s, p, run.loading, |s.classes|));
  }

  // ------------------------------------------------------------ every move is a change

  lemma {:induction false} BumpedGrows(notches: map<string, nat>, uids: seq<string>, u: string)
    ensures u in notches ==> u in Bumped(notches, uids) && Bumped(notches, uids)[u] >= notches[u]
  {
    if uids != [] {
      BumpedGrows(notches, uids[..|uids| - 1], u);
    }
  }

  lemma BumpedChanges(notches: map<string, nat>, uids: seq<string>)
    requires uids != []
    ensures Bumped(notches, uids) != notches
  {
    var u := uids[|uids| - 1];
    BumpedGrows(notches, uids[..|uids| - 1], u);
    assert u in Bumped(notches, uids);
  }

  lemma RaiseRatingsChanges(p: Params)
    requires ScalesOk(p) && RaiseRatings(p).moved
    ensures RaiseRatings(p).params != p
  {
  }

  lemma RaiseCapacityChanges(p: Params, ratio: real)
    requires RaiseCapacity(p, ratio).moved
    ensures RaiseCapacity(p, ratio).params != p
  {
  }

  lemma TightenChanges(p: Params, c: Class)
    requires ScaleOf(p.rating, c) > SCALE_MIN + EPSILON
    ensures Tightened(p, c) != p
  {
  }

  /** A reported move is a real one: the parameters differ. */
  lemma MoveChanges(s: Setup, p: Params, run: Run, net: Network)
    requires ScalesOk(p) && Choose(s, p, run, net).moved
    ensures Choose(s, p, run, net).params != p
  {
    if !run.feasible {
      RaiseRatingsChanges(p);
    } else if OrZero(run.maxLoading) > s.targets.loadingTarget + TOLERANCE {
      BumpedChanges(p.notches, Overloaded(net.branches, run.loading, s.targets.loadingTarget));
    } else if Short(s, net) {
      RaiseCapacityChanges(p, Ratio(s, net));
    } else {
      LeastLoadedCanTighten(s, p, run.loading, |s.classes|);
      TightenChanges(p, LeastLoaded(s, p, run.loading, |s.classes|).value);
    }
  }

  // ------------------------------------------------------------ rejected steps

  /** Parameters of the last accepted point after an iteration. */
  ghost function AcceptedParams(s: Setup, c: State, net: Network, outcome: Outcome): Params {
    if outcome.Outcome? && outcome.accepted then Choose(s, c.params, c.current, net).params else c.params
  }

  /** The re-solve of the move is there and beats the objective by more than the tolerance. */
  ghost predicate Improves(s: Setup, c: State, net: Network, opf: Network -> Solve)
    requires Fits(s, net)
  {
    var tried := Applied(s, Choose(s, c.params, c.current, net).params, net);
    opf(tried).Solved? && Evaluate(s, tried, opf(tried).run).Objective() < c.objective - TOLERANCE
  }

  /** Capacity is short and some capacity scale can still move, so scales are
      written whether or not they move far enough to be reported. */
  ghost predicate Writes(s: Setup, p: Params, run: Run, net: Network) {
    && run.feasible && OrZero(run.maxLoading) <= s.targets.loadingTarget + TOLERANCE && Short(s, net)
    && Ratio(s, net) != 1.0 && exists f :: f in p.capacity && (Ratio(s, net) < 1.0 || p.capacity[f] < SCALE_MAX)
  }

  /** With capacities that are not negative the ratio always exceeds one, and the
      guard is: short of capacity, with some scale below the bound. */
  lemma WritesIffShort(s: Setup, p: Params, run: Run, net: Network)
    requires CapacitiesOk(s, net)
    ensures Writes(s, p, run, net) <==>
            && run.feasible && OrZero(run.maxLoading) <= s.targets.loadingTarget + TOLERANCE && Short(s, net)
            && exists f :: f in p.capacity && p.capacity[f] < SCALE_MAX
  {
    if Short(s, net) {
      CapacityNotNegative(net.gens);
      RatioAboveOne(Wanted(s, net), TotalCapacity(net.gens));
    }
  }

  lemma RatioAboveOne(want: real, cap: real)
    requires 0.0 <= cap < want - 0.000001
    ensures ReserveRatio(want, cap) > 1.0
  {
    var d := if cap > TOLERANCE then cap else TOLERANCE;
    var q := want / d;
    assert q * d == want;
    if q <= 1.0 {
      ScaledNotNegative(1.0 - q, d);
      assert (1.0 - q) * d == d - want;
    }
  }

  lemma ScaleMoves(x: real, ratio: real)
    requires SCALE_MIN <= x <= SCALE_MAX
    ensures Capped(x * ratio) == x <==> ratio == 1.0 || (ratio > 1.0 && x == SCALE_MAX)
  {
    var y, d := x * ratio, ratio - 1.0;
    assert x * d == y - x;
    if ratio > 1.0 {
      assert x * d > 0.0;
    } else if ratio < 1.0 {
      assert x * d < 0.0;
    }
  }

  lemma RaisedMoves(scales: map<Fuel, real>, ratio: real)
    requires InBounds(scales)
    ensures Raised(scales, ratio) == scales
       <==> ratio == 1.0 || forall f | f in scales :: ratio > 1.0 && scales[f] == SCALE_MAX
  {
    forall f | f in scales
      ensures Raised(scales, ratio)[f] == scales[f] <==> ratio == 1.0 || (ratio > 1.0 && scales[f] == SCALE_MAX)
    {
      ScaleMoves(scales[f], ratio);
    }
    assert Raised(scales, ratio) == scales <==> forall f | f in scales :: Raised(scales, ratio)[f] == scales[f];
  }

  /** Without a reported move, the parameters are written exactly if the guard holds. */
  lemma UnreportedWrite(s: Setup, p: Params, run: Run, net: Network)
    requires ScalesOk(p) && !Choose(s, p, run, net).moved
    ensures Choose(s, p, run, net).params != p <==> Writes(s, p, run, net)
  {
    if run.feasible && OrZero(run.maxLoading) <= s.targets.loadingTarget + TOLERANCE && Short(s, net) {
      RaisedMoves(p.capacity, Ratio(s, net));
      assert Choose(s, p, run, net).params == p.(capacity := Raised(p.capacity, Ratio(s, net)));
    }
  }

  /** The network is at the parameters `p`. */
  ghost predicate AtPoint(s: Setup, p: Params, net: Network) {
    Fits(s, net) && net == Applied(s, p, net)
  }

  lemma UndoneGen(s: Setup, p: Params, q: Params, g: Gen, k: nat)
    requires k < |s.fuelOf| == |s.pmax| == |s.qmax| == |s.qmin| && s.pmax[k] >= 0.0
    requires g == AppliedGen(s, p, g, k) && GenScale(s, q, k) >= GenScale(s, p, k)
    ensures AppliedGen(s, p, AppliedGen(s, q, g, k), k) == g
  {
  }

  /** Applying `p` again undoes `q`, as long as `q` lowered no capacity. */
  lemma UndoRestores(s: Setup, p: Params, q: Params, net: Network)
    requires AtPoint(s, p, net) && CapacitiesOk(s, net) && NoLower(p, q)
    ensures Applied(s, p, Applied(s, q, net)) == net
  {
    var back := Applied(s, p, Applied(s, q, net));
    forall k | 0 <= k < |net.gens|
      ensures back.gens[k] == net.gens[k]
    {
      assert Applied(s, p, net).gens[k] == AppliedGen(s, p, net.gens[k], k);
      UndoneGen(s, p, q, net.gens[k], k);
    }
    forall k | 0 <= k < |net.branches|
      ensures back.branches[k] == net.branches[k]
    {
      assert Applied(s, p, net).branches[k] == AppliedBranch(s, p, net.branches[k], k);
    }
    forall k | 0 <= k < |net.loads|
      ensures back.loads[k] == net.loads[k]
    {
      assert Applied(s, p, net).loads[k] == net.loads[k];
    }
  }

  lemma AppliedTwice(s: Setup, q: Params, net: Network)
    requires Fits(s, net)
    ensures AtPoint(s, q, Applied(s, q, net))
  {
    var once := Applied(s, q, net);
    var twice := Applied(s, q, once);
    assert forall k | 0 <= k < |net.gens| :: once.gens[k] == AppliedGen(s, q, net.gens[k], k)
                                             && twice.gens[k] == AppliedGen(s, q, once.gens[k], k);
    assert forall k | 0 <= k < |net.gens| :: twice.gens[k] == once.gens[k];
    assert forall k | 0 <= k < |net.branches| :: twice.branches[k] == once.branches[k];
    assert forall k | 0 <= k < |net.loads| :: twice.loads[k] == once.loads[k];
  }

  /** A rejected step leaves parameters and network at the rejected point, while
      the reported objective is still that of the last accepted one. */
  lemma RejectedStepStays(s: Setup, c: State, net: Network, opf: Network -> Solve)
    requires Fits(s, net) && !c.finished && ScalesOk(c.params) && Choose(s, c.params, c.current, net).moved
    requires !Improves(s, c, net, opf)
    ensures var r, q := Iterated(s, c, net, opf), Choose(s, c.params, c.current, net).params;
            r.state.params == q && q != c.params && AtPoint(s, q, r.net) && r.state.objective == c.objective
  {
    var q := Choose(s, c.params, c.current, net).params;
    MoveChanges(s, c.params, c.current, net);
    AppliedTwice(s, q, net);
    AppliedTwice(s, q, Applied(s, q, net));
  }

  /** The objective is that of the network at hand and the run it was solved by. */
  ghost predicate ObjectiveOf(s: Setup, c: State, net: Network) {
    c.objective == Evaluate(s, net, c.current).Objective()
  }

  /** The point an iteration ends on is the last accepted one: parameters and network. */
  ghost predicate AgreesWith(s: Setup, p: Params, c: State, net: Network) {
    c.params == p && AtPoint(s, p, net)
  }

  /** The iteration leaves parameters and network at the last accepted point: a
      move was undone (only the early snapshot does that) or improved the
      objective, and without a move no scale was written. */
  ghost predicate Lands(s: Setup, c: State, net: Network, opf: Network -> Solve, early: bool)
    requires Fits(s, net)
  {
    if Choose(s, c.params, c.current, net).moved then early || Improves(s, c, net, opf)
    else !Writes(s, c.params, c.current, net)
  }

  /** A completed iteration that starts at the accepted point with the objective of
      that point: it ends on the last accepted point if and only if it lands. With
      the early snapshot, and whenever it lands, the network is at that point and
      the objective is the network's. An unfinished search has landed. */
  lemma IterationLands(s: Setup, c: State, net: Network, opf: Network -> Solve, early: bool)
    requires AtPoint(s, c.params, net) && CapacitiesOk(s, net) && ScalesOk(c.params) && !c.finished
             && ObjectiveOf(s, c, net)
    requires IteratedWith(s, c, net, opf, early).outcome.Outcome?
    ensures var r := IteratedWith(s, c, net, opf, early);
            var p := AcceptedParams(s, c, net, r.outcome);
            && (AgreesWith(s, p, r.state, r.net) <==> Lands(s, c, net, opf, early))
            && (early || Lands(s, c, net, opf, early) ==> AtPoint(s, p, r.net) && ObjectiveOf(s, r.state, r.net))
            && (!r.state.finished ==> Lands(s, c, net, opf, early))
            && (early && !r.outcome.accepted ==> r.net == net)
  {
    var choice := Choose(s, c.params, c.current, net);
    if choice.moved {
      MoveChanges(s, c.params, c.current, net);
      ChooseKeepsBounds(s, c.params, c.current, net);
      UndoRestores(s, c.params, choice.params, net);
      AppliedTwice(s, choice.params, net);
    } else {
      UnreportedWrite(s, c.params, c.current, net);
    }
  }

  /** As the program orders it, the parameters an iteration ends on are those of
      the last accepted point if and only if the move improved the objective, or,
      without a move, no scale was written. So, from an agreeing start, are
      parameters and network together. */
  lemma ReportedIffImproved(s: Setup, c: State, net: Network, opf: Network -> Solve)
    requires Fits(s, net) && !c.finished && ScalesOk(c.params)
    ensures var r := Iterated(s, c, net, opf);
            r.state.params == AcceptedParams(s, c, net, r.outcome) <==> Lands(s, c, net, opf, false)
    ensures var r := Iterated(s, c, net, opf);
            AtPoint(s, c.params, net) && r.outcome.Outcome? ==>
              (AgreesWith(s, AcceptedParams(s, c, net, r.outcome), r.state, r.net) <==> Lands(s, c, net, opf, false))
  {
    var choice := Choose(s, c.params, c.current, net);
    AppliedTwice(s, choice.params, net);
    if choice.moved {
      MoveChanges(s, c.params, c.current, net);
    } else {
      UnreportedWrite(s, c.params, c.current, net);
    }
  }

  // ------------------------------------------------------------ the recorded steps

  ghost predicate StepOk(steps: seq<StepRecord>, initial: real, k: nat) {
    && k < |steps|
    && (steps[k].accepted <==> steps[k].after < steps[k].before - TOLERANCE)
    && (if k == 0 then steps[k].before == initial else steps[k - 1].accepted && steps[k].before == steps[k - 1].after)
  }

  /** The objective the records end on. */
  ghost function LastObjective(c: State): real {
    if c.steps == [] then c.initial else
    var last := c.steps[|c.steps| - 1];
    if last.accepted then last.after else last.before
  }

  /** Steps chain on the objective, only the last may be rejected, and an
      unfinished search has rejected none. */
  ghost predicate Recorded(c: State) {
    && (forall k: nat | k < |c.steps| :: StepOk(c.steps, c.initial, k))
    && c.objective == LastObjective(c)
    && (!c.finished && c.steps != [] ==> c.steps[|c.steps| - 1].accepted)
  }

  ghost predicate StateOk(s: Setup, c: State) {
    && ScalesOk(c.params) && Recorded(c)
    && (!c.finished ==> s.enabled)
    && (c.finished ==> c.status == FinalStatus(s, c) || c.steps == [])
  }

  lemma StartedOk(s: Setup, net: Network, first: Run)
    ensures StateOk(s, Started(s, net, first))
  {
  }

  lemma JudgedRecorded(s: Setup, c: State, undo: Params, tried: Network, run: Run)
    requires Fits(s, tried) && Recorded(c) && !c.finished
    ensures Recorded(Judged(s, c, undo, tried, run).state)
  {
    var r := Judged(s, c, undo, tried, run).state;
    assert |r.steps| == |c.steps| + 1 && r.initial == c.initial;
    forall k: nat | k < |r.steps|
      ensures StepOk(r.steps, r.initial, k)
    {
      if k < |c.steps| {
        assert StepOk(c.steps, c.initial, k);
        assert r.steps[k] == c.steps[k] && (k > 0 ==> r.steps[k - 1] == c.steps[k - 1]);
      } else {
        assert k > 0 ==> r.steps[k - 1] == c.steps[k - 1];
      }
    }
  }

  lemma IterateKeepsCapacities(s: Setup, c: State, net: Network, opf: Network -> Solve, early: bool)
    requires ScalesOk(c.params) && CapacitiesOk(s, net)
    ensures CapacitiesOk(s, IteratedWith(s, c, net, opf, early).net)
  {
    var q := Choose(s, c.params, c.current, net).params;
    ChooseKeepsBounds(s, c.params, c.current, net);
    AppliedKeepsCapacities(s, q, net);
    AppliedKeepsCapacities(s, if early then c.params else q, Applied(s, q, net));
  }

  lemma IterateKeepsOk(s: Setup, c: State, net: Network, opf: Network -> Solve, early: bool)
    requires StateOk(s, c) && CapacitiesOk(s, net)
    ensures StateOk(s, IteratedWith(s, c, net, opf, early).state)
  {
    if !c.finished {
      var choice := Choose(s, c.params, c.current, net);
      ChooseKeepsBounds(s, c.params, c.current, net);
      var next := c.(params := choice.params, iteration := c.iteration + 1);
      assert Recorded(next);
      if choice.moved {
        var tried := Applied(s, choice.params, net);
        match opf(tried)
        case Failed =>
        case Solved(run) => JudgedRecorded(s, next, if early then c.params else choice.params, tried, run);
      }
    }
  }

  /** A calibration: states, networks, and the answers to the re-solves; `early`
      says which snapshot a rejected step restores. */
  datatype Search = Search(early: bool, states: seq<State>, nets: seq<Network>, opfs: seq<Network -> Solve>)

  ghost predicate IterationAt(s: Setup, z: Search, i: nat) {
    && i + 1 < |z.states| && i + 1 < |z.nets| && i < |z.opfs| && Fits(s, z.nets[i])
    && var r := IteratedWith(s, z.states[i], z.nets[i], z.opfs[i], z.early);
    z.states[i + 1] == r.state && z.nets[i + 1] == r.net
  }

  /** Any number of iterations, with any answers to the re-solves. */
  ghost predicate Iterations(s: Setup, first: Run, z: Search) {
    && |z.states| == |z.nets| == |z.opfs| + 1 && z.states[0] == Started(s, z.nets[0], first)
    && (forall i: nat | i < |z.opfs| :: IterationAt(s, z, i))
  }

  /** ... of a network without negative capacity. */
  ghost predicate IsCalibration(s: Setup, first: Run, z: Search) {
    |z.nets| > 0 && CapacitiesOk(s, z.nets[0]) && Iterations(s, first, z)
  }

  /** Over every calibration: scales stay in bounds, records chain, only the last may be rejected. */
  lemma {:induction false} AlwaysOk(s: Setup, first: Run, z: Search, i: nat)
    requires IsCalibration(s, first, z) && i < |z.states|
    ensures StateOk(s, z.states[i]) && CapacitiesOk(s, z.nets[i])
  {
    if i == 0 {
      StartedOk(s, z.nets[0], first);
    } else {
      AlwaysOk(s, first, z, i - 1);
      assert IterationAt(s, z, i - 1);
      IterateKeepsOk(s, z.states[i - 1], z.nets[i - 1], z.opfs[i - 1], z.early);
      IterateKeepsCapacities(s, z.states[i - 1], z.nets[i - 1], z.opfs[i - 1], z.early);
    }
  }

  // ------------------------------------------------------------ what a whole search reports

  /** The base values are those of the network, whose generators keep their limits. */
  ghost predicate TakenFrom(s: Setup, net: Network) {
    && Fits(s, net)
    && (forall k | 0 <= k < |net.branches| :: s.rate[k] == net.branches[k].rate)
    && (forall k | 0 <= k < |net.gens| :: BaseGen(s, net.gens[k], k))
    && (forall k | 0 <= k < |net.loads| :: s.load[k] == (net.loads[k].p, net.loads[k].q))
  }

  ghost predicate BaseGen(s: Setup, g: Gen, k: nat)
    requires k < |s.pmax| == |s.qmax| == |s.qmin|
  {
    s.pmax[k] == g.pmax && s.qmax[k] == g.qmax && s.qmin[k] == g.qmin && g.pg <= g.pmax
  }

  /** So the search starts at the accepted point, with its objective. */
  lemma StartsAtPoint(s: Setup, net: Network, first: Run)
    requires TakenFrom(s, net)
    ensures AtPoint(s, Started(s, net, first).params, net) && ObjectiveOf(s, Started(s, net, first), net)
  {
    var p := Started(s, net, first).params;
    var at := Applied(s, p, net);
    assert forall k | 0 <= k < |net.gens| :: GenScale(s, p, k) == 1.0 && BaseGen(s, net.gens[k], k);
    assert forall k | 0 <= k < |net.gens| :: at.gens[k] == net.gens[k];
    assert Pow(NOTCH_FACTOR, 0) == 1.0;
    assert forall k | 0 <= k < |net.branches| :: at.branches[k] == net.branches[k];
    assert forall k | 0 <= k < |net.loads| :: at.loads[k] == net.loads[k];
  }

  /** A calibration of a network from its own base values, every re-solve of which answers. */
  ghost predicate IsSearch(s: Setup, first: Run, z: Search) {
    && IsCalibration(s, first, z) && TakenFrom(s, z.nets[0])
    && (forall i: nat | i < |z.opfs| :: Completes(s, z, i))
  }

  ghost predicate Completes(s: Setup, z: Search, i: nat) {
    && i < |z.states| && i < |z.nets| && i < |z.opfs| && Fits(s, z.nets[i])
    && IteratedWith(s, z.states[i], z.nets[i], z.opfs[i], z.early).outcome.Outcome?
  }

  /** The parameters of the last point accepted within the first `i` iterations. */
  ghost function LastAccepted(s: Setup, z: Search, i: nat): Params
    requires i < |z.states| && i < |z.nets| && i <= |z.opfs|
    requires forall j: nat | j < i :: Completes(s, z, j)
  {
    if i == 0 then z.states[0].params else
    assert Completes(s, z, i - 1);
    var r := IteratedWith(s, z.states[i - 1], z.nets[i - 1], z.opfs[i - 1], z.early);
    if r.outcome.accepted then Choose(s, z.states[i - 1].params, z.states[i - 1].current, z.nets[i - 1]).params
    else LastAccepted(s, z, i - 1)
  }

  /** Iteration `i` lands, or came after the end of the search. */
  ghost predicate LandsAt(s: Setup, z: Search, i: nat) {
    && i < |z.states| && i < |z.nets| && i < |z.opfs| && Fits(s, z.nets[i])
    && (z.states[i].finished || Lands(s, z.states[i], z.nets[i], z.opfs[i], z.early))
  }

  ghost predicate AllLand(s: Setup, z: Search, n: nat) {
    forall j: nat | j < n :: LandsAt(s, z, j)
  }

  /** After any number of iterations of any search, parameters and network are those
      of the last accepted point if and only if every iteration landed; then, and
      always with the early snapshot, the network is at that point and the objective
      is that of the network and the run it was solved by. */
  lemma {:induction false} ReportAgreesIff(s: Setup, first: Run, z: Search, i: nat)
    requires IsSearch(s, first, z) && i < |z.states|
    ensures forall j: nat | j < i :: Completes(s, z, j)
    ensures AgreesWith(s, LastAccepted(s, z, i), z.states[i], z.nets[i]) <==> AllLand(s, z, i)
    ensures z.early || AllLand(s, z, i) ==>
              AtPoint(s, LastAccepted(s, z, i), z.nets[i]) && ObjectiveOf(s, z.states[i], z.nets[i])
    ensures !z.states[i].finished ==> AllLand(s, z, i)
  {
    if i == 0 {
      StartsAtPoint(s, z.nets[0], first);
    } else {
      var k := i - 1;
      ReportAgreesIff(s, first, z, k);
      AlwaysOk(s, first, z, k);
      assert IterationAt(s, z, k) && Completes(s, z, k);
      assert AllLand(s, z, i) <==> AllLand(s, z, k) && LandsAt(s, z, k);
      if !z.states[k].finished {
        IterationLands(s, z.states[k], z.nets[k], z.opfs[k], z.early);
      }
    }
  }

  /** With the snapshot taken before the move every rejected step is undone: over
      any search the network is at the last accepted point with its objective, and
      the parameters are those of that point unless a scale was written without a
      reported move. */
  lemma EarlySnapshotAgrees(s: Setup, first: Run, z: Search, i: nat)
    requires IsSearch(s, first, z) && z.early && i < |z.states|
    ensures forall j: nat | j < i :: Completes(s, z, j)
    ensures AtPoint(s, LastAccepted(s, z, i), z.nets[i]) && ObjectiveOf(s, z.states[i], z.nets[i])
    ensures (forall j: nat | j < i :: !WritesAt(s, z, j)) <==> z.states[i].params == LastAccepted(s, z, i)
  {
    ReportAgreesIff(s, first, z, i);
    forall j: nat | j < i
      ensures LandsAt(s, z, j) <==> !WritesAt(s, z, j)
    {
      assert Completes(s, z, j);
    }
    assert AllLand(s, z, i) <==> forall j: nat | j < i :: !WritesAt(s, z, j);
  }

  /** Iteration `i` writes a scale without reporting a move. */
  ghost predicate WritesAt(s: Setup, z: Search, i: nat) {
    && i < |z.states| && i < |z.nets| && !z.states[i].finished
    && !Choose(s, z.states[i].params, z.states[i].current, z.nets[i]).moved
    && Writes(s, z.states[i].params, z.states[i].current, z.nets[i])
  }

  /** Accepted objectives strictly decrease, each by more than the tolerance. */
  lemma {:induction false} AcceptedDecrease(c: State, i: nat, j: nat)
    requires Recorded(c) && i < j < |c.steps| && c.steps[j].accepted
    ensures c.steps[i].accepted && c.steps[j].after < c.steps[i].after - TOLERANCE
    decreases j - i
  {
    assert StepOk(c.steps, c.initial, j);
    if i < j - 1 {
      assert StepOk(c.steps, c.initial, j - 1);
      AcceptedDecrease(c, i, j - 1);
    }
  }

  /** The final objective is the initial one exactly when nothing was accepted,
      and is lower by more than the tolerance otherwise. */
  lemma ObjectiveTellsAcceptance(c: State)
    requires Recorded(c)
    ensures (exists k :: 0 <= k < |c.steps| && c.steps[k].accepted) ==> c.objective < c.initial - TOLERANCE
    ensures (forall k | 0 <= k < |c.steps| :: !c.steps[k].accepted) ==> c.objective == c.initial
  {
    if c.steps != [] {
      var n := |c.steps| - 1;
      assert StepOk(c.steps, c.initial, 0) && StepOk(c.steps, c.initial, n);
      if n > 0 {
        assert c.steps[n - 1].accepted;
        if c.steps[n].accepted {
          AcceptedDecrease(c, 0, n);
        } else if n > 1 {
          assert StepOk(c.steps, c.initial, n - 1);
          AcceptedDecrease(c, 0, n - 1);
        }
      }
    }
  }

  /** Status `Unchanged` means that no step was accepted. */
  lemma UnchangedMeansNone(s: Setup, c: State)
    requires StateOk(s, c) && c.finished && c.status == Unchanged
    ensures forall k | 0 <= k < |c.steps| :: !c.steps[k].accepted
    ensures c.objective == c.initial
  {
    ObjectiveTellsAcceptance(c);
  }

  // ------------------------------------------------------------ the divergence, exhibited

  /** One 100 MVA branch, infeasible at first and at the re-solve. */
  function ExampleSetup(): Setup {
    Setup(true, 5, Targets(1.0, 0.0, 0.0, 1.0), 0.0, 0.0, 0.0, ["132"], ["132"], [], [100.0], [], [], [], [])
  }

  function ExampleNetwork(rate: real): Network {
    Network([Branch(Some("b1"), rate)], [], [])
  }

  /** The step is rejected, the objective and status report the starting point,
      and yet the reported scale is 1.1 and the branch is left at 110 MVA. With
      the early snapshot both are as they started. */
  lemma DivergenceExample()
    ensures var s, net := ExampleSetup(), ExampleNetwork(100.0);
            var stuck := Run(false, None, None, 0.0, [None]);
            var c := Started(s, net, stuck);
            var r := Iterated(s, c, net, _ => Solved(stuck));
            var e := IteratedWith(s, c, net, _ => Solved(stuck), true);
            && r.outcome == Outcome(true, false) && r.state.objective == c.initial
            && "132" in r.state.params.rating && r.state.params.rating["132"] == 1.1 && r.net == ExampleNetwork(110.0)
            && e.outcome == Outcome(true, false) && e.state.params == c.params && e.net == net
  {
    var s, net := ExampleSetup(), ExampleNetwork(100.0);
    var stuck := Run(false, None, None, 0.0, [None]);
    var c := Started(s, net, stuck);
    assert "132" in s.classes && "132" in c.params.rating && c.params.rating["132"] == 1.0;
    var choice := Choose(s, c.params, c.current, net);
    assert choice.moved && choice.params.rating["132"] == 1.1;
    var tried := Applied(s, choice.params, net);
    assert Pow(NOTCH_FACTOR, 0) == 1.0;
    assert tried.branches[0] == Branch(Some("b1"), 110.0);
    assert tried == ExampleNetwork(110.0);
    assert Applied(s, choice.params, tried) == ExampleNetwork(110.0);
    assert Applied(s, c.params, tried).branches[0] == Branch(Some("b1"), 100.0);
    assert Applied(s, c.params, tried) == net;
  }

  /** Four million megawatts of capacity, two watts short of twice the load. */
  function ShortSetup(): Setup {
    Setup(true, 5, Targets(1.0, 0.0, 0.0, 1.0), 1.0, 0.0, 0.0, [], [], [0], [], [4000000.0], [0.0], [0.0],
          [(2000000.000001, 0.0)])
  }

  function ShortNetwork(): Network {
    Network([], [Gen(true, 4000000.0, 0.0, 0.0, 0.0)], [Load(true, 2000000.000001, 0.0)])
  }

  /** No move is reported and no step recorded, and yet the reported capacity scale
      has left the starting point, whichever snapshot is used. */
  lemma UnreportedWriteExample()
    ensures var s, net := ShortSetup(), ShortNetwork();
            var c := Started(s, net, Run(true, None, None, 0.0, []));
            && 0 in c.params.capacity && c.params.capacity[0] == 1.0
            && forall opf, early :: var r := IteratedWith(s, c, net, opf, early);
                                    && r.outcome == Outcome(true, false) && r.state.steps == [] && r.net == net
                                    && 0 in r.state.params.capacity && r.state.params.capacity[0] == 1.0000000000005
  {
    var s, net := ShortSetup(), ShortNetwork();
    var c := Started(s, net, Run(true, None, None, 0.0, []));
    assert 0 in s.fuelOf && 0 in c.params.capacity && c.params.capacity[0] == 1.0;
    assert net.gens[..0] == [] && net.loads[..0] == [];
    assert TotalCapacity(net.gens) == 4000000.0 && TotalLoad(net.loads) == 2000000.000001;
    assert Ratio(s, net) == 1.0000000000005;
    var next := Raised(c.params.capacity, 1.0000000000005);
    assert forall f | f in c.params.capacity :: f == 0;
    assert next[0] == 1.0000000000005 && !Moved(1.0, next[0]);
    assert Choose(s, c.params, c.current, net) == Choice(c.params.(capacity := next), false);
  }
}
