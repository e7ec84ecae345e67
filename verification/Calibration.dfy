/**
 The recorded calibration search: one bounded parameter move per iteration,
 tried by a re-solve and accepted only if the objective improves. The order of
 effects is that of the program: the move is written into the parameters before
 the snapshot for undoing it is taken.
 */
module Calibration {
  import opened Options

  const SCALE_MIN := 0.8
  const SCALE_MAX := 1.5
  const NOTCH_FACTOR := 1.15
  const INFEASIBLE_STEP := 1.1
  const TOLERANCE := 0.000000001
  const EPSILON := 0.000000000001

  type Fuel = nat
  type Class = string

  datatype Params = Params(rating: map<Class, real>, capacity: map<Fuel, real>, load: real, notches: map<string, nat>)

  datatype Branch = Branch(uid: Option<string>, rate: real)
  datatype Gen = Gen(inService: bool, pmax: real, qmax: real, qmin: real, pg: real)
  datatype Load = Load(inService: bool, p: real, q: real)
  datatype Network = Network(branches: seq<Branch>, gens: seq<Gen>, loads: seq<Load>)

  /** A DC OPF outcome: verdict, loadings, and what the objective reads off them. */
  datatype Run = Run(feasible: bool, maxLoading: Option<real>, p90: Option<real>, bindingFraction: real,
                     loading: seq<Option<real>>)

  /** A re-solve ends in a run or an error (cancelled, or an engine failure). */
  datatype Solve = Solved(run: Run) | Failed

  datatype Terms = Terms(avgDegree: real, hvShare: real, infeasible: real, loadingExcess: real, underuse: real,
                         binding: real, reserve: real) {
    function Objective(): real {
      0.5 * avgDegree + 0.5 * hvShare + 10.0 * infeasible + 4.0 * loadingExcess + 1.0 * underuse
      + 2.0 * binding + 2.0 * reserve
    }

    /** The terms the parameters can move are all within tolerance. */
    predicate OperationalZero() {
      infeasible <= TOLERANCE && loadingExcess <= TOLERANCE && underuse <= TOLERANCE && binding <= TOLERANCE
      && reserve <= TOLERANCE
    }
  }

  datatype Targets = Targets(loadingTarget: real, p90Min: real, bindingLo: real, bindingHi: real)

  /** What a calibrator never changes: options, targets and the base values. `classes`
      are the branch classes in order, `classOf` and `fuelOf` those of the rows. */
  datatype Setup = Setup(enabled: bool, maxIterations: nat, targets: Targets, reserveMargin: real, avgDegree: real,
                         hvShare: real,
                         classes: seq<Class>, classOf: seq<Class>, fuelOf: seq<Fuel>,
                         rate: seq<real>, pmax: seq<real>, qmax: seq<real>, qmin: seq<real>, load: seq<(real, real)>)

  datatype Status = Disabled | Unchanged | Improved | Converged | Infeasible

  datatype StepRecord = StepRecord(iteration: nat, before: real, after: real, accepted: bool)

  datatype Outcome = Outcome(finished: bool, accepted: bool) | SolveFailed

  // ------------------------------------------------------------ evaluating

  function Pos(x: real): real { if x > 0.0 then x else 0.0 }

  function Sq(x: real): real { x * x }

  /** Distance outside a range, zero inside. */
  function RangeExcess(v: real, lo: real, hi: real): real {
    if v < lo then lo - v else if v > hi then v - hi else 0.0
  }

  function OrZero(x: Option<real>): real { if x.Some? then x.value else 0.0 }

  function TotalLoad(loads: seq<Load>): real {
    if loads == [] then 0.0
    else
      var last := loads[|loads| - 1];
      TotalLoad(loads[..|loads| - 1]) + (if last.inService then last.p else 0.0)
  }

  function TotalCapacity(gens: seq<Gen>): real {
    if gens == [] then 0.0
    else
      var last := gens[|gens| - 1];
      TotalCapacity(gens[..|gens| - 1]) + (if last.inService then last.pmax else 0.0)
  }

  function Evaluate(s: Setup, net: Network, run: Run): Terms {
    var load, cap := TotalLoad(net.loads), TotalCapacity(net.gens);
    Terms(s.avgDegree, s.hvShare,
          if run.feasible then 0.0 else 1.0,
          Sq(Pos(OrZero(run.maxLoading) - s.targets.loadingTarget)),
          if run.feasible then Sq(Pos(s.targets.p90Min - OrZero(run.p90))) else 0.0,
          if run.feasible then Sq(RangeExcess(run.bindingFraction, s.targets.bindingLo, s.targets.bindingHi)) else 0.0,
          if load > 0.0 then Sq(Pos(1.0 + s.reserveMargin - cap / load)) else 0.0)
  }

  // ------------------------------------------------------------ applying parameters

  function Pow(b: real, n: nat): real {
    if n == 0 then 1.0 else b * Pow(b, n - 1)
  }

  function ScaleOf<K>(scales: map<K, real>, k: K): real {
    if k in scales then scales[k] else 1.0
  }

  function Notches(p: Params, uid: Option<string>): nat {
    if uid.Some? && uid.value in p.notches then p.notches[uid.value] else 0
  }

  predicate Fits(s: Setup, net: Network) {
    && |net.branches| == |s.rate| == |s.classOf|
    && |net.gens| == |s.pmax| == |s.qmax| == |s.qmin| == |s.fuelOf|
    && |net.loads| == |s.load|
  }

  function GenScale(s: Setup, p: Params, k: nat): real
    requires k < |s.fuelOf|
  {
    ScaleOf(p.capacity, s.fuelOf[k])
  }

  function AppliedGen(s: Setup, p: Params, g: Gen, k: nat): Gen
    requires k < |s.fuelOf| == |s.pmax| == |s.qmax| == |s.qmin|
  {
    var pmax := s.pmax[k] * GenScale(s, p, k);
    g.(pmax := pmax, qmax := s.qmax[k] * GenScale(s, p, k), qmin := s.qmin[k] * GenScale(s, p, k),
    pg := if g.pg < pmax then g.pg else pmax)
  }

  function AppliedBranch(s: Setup, p: Params, b: Branch, k: nat): Branch
    requires k < |s.rate| == |s.classOf|
  {
    b.(rate := s.rate[k] * ScaleOf(p.rating, s.classOf[k]) * Pow(NOTCH_FACTOR, Notches(p, b.uid)))
  }

  /** Write the parameters onto the network, from the base values. */
  function Applied(s: Setup, p: Params, net: Network): (r: Network)
    requires Fits(s, net)
    ensures Fits(s, r)
  {
    Network(seq(|net.branches|, k requires 0 <= k < |net.branches| => AppliedBranch(s, p, net.branches[k], k)),
            seq(|net.gens|, k requires 0 <= k < |net.gens| => AppliedGen(s, p, net.gens[k], k)),
            seq(|net.loads|, k requires 0 <= k < |net.loads| => net.loads[k].(p := s.load[k].0 * p.load,
              q := s.load[k].1 * p.load)))
  }

  // ------------------------------------------------------------ choosing a move

  function Capped(x: real): real { if x > SCALE_MAX then SCALE_MAX else x }

  function Raised<K>(scales: map<K, real>, factor: real): map<K, real> {
    map k | k in scales :: Capped(scales[k] * factor)
  }

  function Bumped(notches: map<string, nat>, uids: seq<string>): map<string, nat> {
    if uids == [] then notches else
    var prior := Bumped(notches, uids[..|uids| - 1]);
    var u := uids[|uids| - 1];
    prior[u := (if u in prior then prior[u] else 0) + 1]
  }

  /** Uids of branches loaded above the target, unnamed branches left out. */
  function Overloaded(branches: seq<Branch>, loading: seq<Option<real>>, target: real): seq<string> {
    if branches == [] then [] else
    var k := |branches| - 1;
    var u := branches[k].uid;
    Overloaded(branches[..k], loading, target)
    + (if k < |loading| && loading[k].Some? && loading[k].value > target && u.Some? && u.value != "" then [u.value]
       else [])
  }

  /** Peak loading of a class over the branches solved, if any was. */
  function ClassPeak(s: Setup, loading: seq<Option<real>>, c: Class, k: nat): Option<real>
    requires k <= |loading|
  {
    if k == 0 then None else
    var prior := ClassPeak(s, loading, c, k - 1);
    if k - 1 < |s.classOf| && s.classOf[k - 1] == c && loading[k - 1].Some?
    then Some(var m := OrZero(prior); if loading[k - 1].value > m then loading[k - 1].value else m) else prior
  }

  /** The class with the lowest peak among those that can still be tightened. */
  function LeastLoaded(s: Setup, p: Params, loading: seq<Option<real>>, n: nat): Option<Class>
    requires n <= |s.classes|
  {
    if n == 0 then None else
    var prior, c := LeastLoaded(s, p, loading, n - 1), s.classes[n - 1];
    var peak := ClassPeak(s, loading, c, |loading|);
    if peak.None? || ScaleOf(p.rating, c) <= SCALE_MIN + EPSILON then prior
    else if prior.None? || peak.value < OrZero(ClassPeak(s, loading, prior.value, |loading|)) then Some(c) else prior
  }

  datatype Choice = Choice(params: Params, moved: bool)

  function Tightened(p: Params, c: Class): Params {
    var v := ScaleOf(p.rating, c) * 0.9;
    p.(rating := p.rating[c := if v < SCALE_MIN then SCALE_MIN else v])
  }

  function ReserveRatio(want: real, cap: real): real {
    want / (if cap > TOLERANCE then cap else TOLERANCE)
  }

  /** Nothing in an infeasible solve names a culprit: raise every rating. */
  function RaiseRatings(p: Params): Choice {
    if exists c :: c in p.rating && p.rating[c] < SCALE_MAX - EPSILON
    then Choice(p.(rating := Raised(p.rating, INFEASIBLE_STEP)), true) else Choice(p, false)
  }

  /** One notch on every overloaded branch. */
  function NotchOverloaded(p: Params, uids: seq<string>): Choice {
    if uids == [] then Choice(p, false) else Choice(p.(notches := Bumped(p.notches, uids)), true)
  }

  /** More capacity for the reserve margin. The scales are written even when they
      change by too little to be reported as a move. */
  function RaiseCapacity(p: Params, ratio: real): Choice {
    var next := Raised(p.capacity, ratio);
    Choice(p.(capacity := next), exists f :: f in p.capacity && Moved(p.capacity[f], next[f]))
  }

  /** Ratings generous everywhere: tighten the least loaded class. */
  function TightenLeast(p: Params, c: Option<Class>): Choice {
    if c.None? then Choice(p, false) else Choice(Tightened(p, c.value), true)
  }

  function Wanted(s: Setup, net: Network): real {
    (1.0 + s.reserveMargin) * TotalLoad(net.loads)
  }

  predicate Short(s: Setup, net: Network) {
    TotalLoad(net.loads) > 0.0 && TotalCapacity(net.gens) < Wanted(s, net) - 0.000001
  }

  function Ratio(s: Setup, net: Network): real {
    ReserveRatio(Wanted(s, net), TotalCapacity(net.gens))
  }

  /** The next move and the parameters after it. */
  function Choose(s: Setup, p: Params, run: Run, net: Network): Choice {
    if !run.feasible then RaiseRatings(p)
    else if OrZero(run.maxLoading) > s.targets.loadingTarget + TOLERANCE then
      NotchOverloaded(p, Overloaded(net.branches, run.loading, s.targets.loadingTarget))
    else if Short(s, net) then RaiseCapacity(p, Ratio(s, net))
    else if OrZero(run.p90) < s.targets.p90Min - TOLERANCE then
      TightenLeast(p, LeastLoaded(s, p, run.loading, |s.classes|))
    else Choice(p, false)
  }

  predicate Moved(x: real, y: real) {
    x - y > EPSILON || y - x > EPSILON
  }

  // ------------------------------------------------------------ the calibrator

  /** The calibrator's changing state. */
  datatype State = State(params: Params, current: Run, terms: Terms, objective: real, initial: real,
                         steps: seq<StepRecord>, iteration: nat, finished: bool, status: Status)

  function FinalStatus(s: Setup, c: State): Status {
    if !s.enabled then Disabled
    else if c.terms.OperationalZero() then Converged
    else if !c.current.feasible then Infeasible
    else if c.objective < c.initial - TOLERANCE then Improved
    else Unchanged
  }

  function Finish(s: Setup, c: State): State {
    c.(finished := true, status := FinalStatus(s, c))
  }

  datatype Result = Result(state: State, net: Network, outcome: Outcome)

  /** The state after judging a re-solve of the moved parameters, already in `c`
      and on the network; `undo` is what a rejected step restores. */
  function Judged(s: Setup, c: State, undo: Params, tried: Network, run: Run): Result
    requires Fits(s, tried)
  {
    var terms := Evaluate(s, tried, run);
    var accepted := terms.Objective() < c.objective - TOLERANCE;
    var next := c.(steps := c.steps + [StepRecord(c.iteration, c.objective, terms.Objective(), accepted)]);
    var after := if accepted then next.(current := run, terms := terms, objective := terms.Objective())
                 else next.(params := undo);
    Result(if Done(s, after, accepted) then Finish(s, after) else after,
           if accepted then tried else Applied(s, undo, tried),
           Outcome(Done(s, after, accepted), accepted))
  }

  predicate Done(s: Setup, c: State, accepted: bool) {
    c.finished || c.terms.OperationalZero() || c.iteration >= s.maxIterations || !accepted
  }

  /** One iteration; `opf` answers the re-solve. `early` picks the snapshot that a
      rejected step restores: of the parameters before the move, or after it. */
  function IteratedWith(s: Setup, c: State, net: Network, opf: Network -> Solve, early: bool): Result
    requires Fits(s, net)
  {
    if c.finished then Result(c, net, Outcome(true, false)) else
    var choice := Choose(s, c.params, c.current, net);
    var next := c.(params := choice.params, iteration := c.iteration + 1);
    if !choice.moved then Result(Finish(s, next), net, Outcome(true, false)) else
    var tried := Applied(s, choice.params, net);
    match opf(tried)
    case Failed => Result(next, tried, SolveFailed)
    case Solved(run) => Judged(s, next, if early then c.params else choice.params, tried, run)
  }

  /** The iteration as the program orders it. */
  function Iterated(s: Setup, c: State, net: Network, opf: Network -> Solve): Result
    requires Fits(s, net)
  {
    IteratedWith(s, c, net, opf, false)
  }

  /** A calibrator starts from unit scales and the given first solve. */
  function Started(s: Setup, net: Network, first: Run): State {
    var terms := Evaluate(s, net, first);
    State(Params(map c | c in s.classes :: 1.0, map f | f in s.fuelOf :: 1.0, 1.0, map[]),
          first, terms, terms.Objective(), terms.Objective(), [], 0,
          !s.enabled || s.maxIterations == 0, if s.enabled then Unchanged else Disabled)
  }

  class Calibrator {
    const setup: Setup
    var params: Params
    var current: Run
    var terms: Terms
    var objective: real
    var initial: real
    var steps: seq<StepRecord>
    var iteration: nat
    var finished: bool
    var status: Status

    function Value(): State
      reads this
    {
      State(params, current, terms, objective, initial, steps, iteration, finished, status)
    }

    constructor (s: Setup, net: Network, first: Run)
      ensures setup == s && Value() == Started(s, net, first)
    {
      setup := s;
      params := Params(map c | c in s.classes :: 1.0, map f | f in s.fuelOf :: 1.0, 1.0, map[]);
      current, steps, iteration := first, [], 0;
      var t := Evaluate(s, net, first);
      terms, objective, initial := t, t.Objective(), t.Objective();
      finished := !s.enabled || s.maxIterations == 0;
      status := if s.enabled then Unchanged else Disabled;
    }

    /** Pick the next move and write it into the parameters. */
    method ChooseStep(net: Network) returns (moved: bool)
      modifies this`params
      ensures Choice(params, moved) == Choose(setup, old(params), current, net)
    {
      var choice := Choose(setup, params, current, net);
      params, moved := choice.params, choice.moved;
    }

    /** One recorded step with an exact re-solve, in the program's order. */
    method Iterate(net0: Network, opf: Network -> Solve) returns (net: Network, outcome: Outcome)
      requires Fits(setup, net0)
      modifies this
      ensures Result(Value(), net, outcome) == Iterated(setup, old(Value()), net0, opf)
    {
      net := net0;
      if finished {
        return net, Outcome(true, false);
      }
      iteration := iteration + 1;
      var moved := ChooseStep(net);
      if !moved {
        status := FinalStatus(setup, Value());
        finished := true;
        return net, Outcome(true, false);
      }
      var before := params;
      net := Applied(setup, params, net);
      var solve := opf(net);
      if solve.Failed? {
        return net, SolveFailed;
      }
      net, outcome := Judge(net, before, solve.run);
    }

    /** Record the step; keep it, or restore `before`; decide whether to go on. */
    method Judge(tried: Network, before: Params, run: Run) returns (net: Network, outcome: Outcome)
      requires Fits(setup, tried) && !finished
      modifies this
      ensures Result(Value(), net, outcome) == Judged(setup, old(Value()), before, tried, run)
    {
      net := tried;
      var t := Evaluate(setup, net, run);
      var accepted := t.Objective() < objective - TOLERANCE;
      steps := steps + [StepRecord(iteration, objective, t.Objective(), accepted)];
      if accepted {
        current, terms, objective := run, t, t.Objective();
      } else {
        params := before;
        net := Applied(setup, params, net);
      }
      if terms.OperationalZero() || iteration >= setup.maxIterations || !accepted {
        status := FinalStatus(setup, Value());
        finished := true;
      }
      outcome := Outcome(finished, accepted);
    }
  }
}
