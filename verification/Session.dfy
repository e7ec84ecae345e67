/**
 The staged generation session: one stage per step, the calibration stage
 repeated until its search is finished.
 */
module Session {
  import opened Options
  import opened Calibration
  import opened CalibrationRuns

  datatype Stage = Context | SiteBuses | Topology | Electrify | DcOpf | Calibrate | AcPf | Finalize | Done {
    /** Share of the work behind once the stage has run. */
    function Progress(): real {
      match this
      case Context => 0.05
      case SiteBuses => 0.15
      case Topology => 0.30
      case Electrify => 0.45
      case DcOpf => 0.60
      case Calibrate => 0.80
      case AcPf => 0.92
      case Finalize => 0.98
      case Done => 1.0
    }
  }

  /** What the stages meet on the way: whether a stage fails, the first DC OPF
      (none when validation skips it), and the answer to a re-solve. */
  datatype World = World(fails: Stage -> bool, firstRun: Option<Run>, opf: Network -> Solve)

  /** Nothing goes wrong: no stage fails and every re-solve answers. */
  ghost predicate Benign(w: World) {
    (forall st :: !w.fails(st)) && forall n :: w.opf(n).Solved?
  }

  datatype StepOutcome = Stepped(stage: Stage, progress: real, done: bool) | Error

  /** Most calibration iterations a session can make. */
  function MostIterations(s: Setup): nat {
    if s.maxIterations > 1 then s.maxIterations else 1
  }

  /** A calibration begun: the first run, and the iterations made. */
  datatype Calibrating = Calibrating(first: Run, search: Search) {
    ghost predicate Valid(s: Setup) {
      Iterations(s, first, search) && !search.early
    }

    ghost function Made(): nat {
      |search.opfs|
    }

    /** The state and the network the iterations made so far led to. */
    ghost function Last(s: Setup): State
      requires Valid(s)
    {
      search.states[Made()]
    }

    ghost function LastNet(s: Setup): Network
      requires Valid(s)
    {
      search.nets[Made()]
    }

    ghost function More(s: Setup, opf: Network -> Solve): Calibrating
      requires Valid(s) && Fits(s, LastNet(s))
    {
      var r := IteratedWith(s, Last(s), LastNet(s), opf, false);
      Calibrating(first, Search(false, search.states + [r.state], search.nets + [r.net], search.opfs + [opf]))
    }
  }

  lemma OneMoreIteration(s: Setup, c: Calibrating, opf: Network -> Solve)
    requires c.Valid(s) && Fits(s, c.LastNet(s))
    ensures c.More(s, opf).Valid(s) && c.More(s, opf).Made() == c.Made() + 1
  {
    var more := c.More(s, opf).search;
    forall i: nat | i < |more.opfs|
      ensures IterationAt(s, more, i)
    {
      if i < c.Made() {
        assert IterationAt(s, c.search, i);
        assert more.states[i] == c.search.states[i] && more.states[i + 1] == c.search.states[i + 1];
        assert more.nets[i] == c.search.nets[i] && more.nets[i + 1] == c.search.nets[i + 1];
        assert more.opfs[i] == c.search.opfs[i];
      }
    }
  }

  /** A calibration that has made no iteration yet. */
  ghost function Begun(s: Setup, net: Network, first: Run): Calibrating {
    Calibrating(first, Search(false, [Started(s, net, first)], [net], []))
  }

  /** The last iteration made ended in a failed re-solve. */
  ghost predicate LastFailed(s: Setup, past: Option<Calibrating>) {
    past.Some? && var (z, k) := (past.value.search, past.value.Made() - 1);
               && 0 <= k < |z.states| && k < |z.nets| && Fits(s, z.nets[k])
               && IteratedWith(s, z.states[k], z.nets[k], z.opfs[k], false).outcome.SolveFailed?
  }

  /** What a visit makes of the iterations so far: none without a first run; else one
      more, of a calibration begun on the network built, unless it is finished. */
  ghost function Visited(s: Setup, was: Option<Calibrating>, run: Option<Run>, built: Network,
                         opf: Network -> Solve): Option<Calibrating>
    requires was.Some? ==> was.value.Valid(s) && Fits(s, was.value.LastNet(s))
    requires Fits(s, built)
  {
    if was.None? && run.None? then None else
    var c := if was.Some? then was.value else Begun(s, built, run.value);
    Some(if c.Last(s).finished then c else c.More(s, opf))
  }

  /** A visit keeps the calibration one answered by the worlds met; and if nothing goes
      wrong the re-solve does not fail. */
  lemma VisitCalibrates(s: Setup, built: Network, worlds: nat -> World, was: Option<Calibrating>, run: Option<Run>,
                        k: nat)
    requires Fits(s, built) && Calibrates(s, built, worlds, was)
    requires was.Some? ==> Fits(s, was.value.LastNet(s)) && k == 5 + was.value.Made()
    requires was.None? ==> run == worlds(4).firstRun && k == 5
    ensures var now := Visited(s, was, run, built, worlds(k).opf);
            Calibrates(s, built, worlds, now) && (Benign(worlds(k)) && now != was ==> !LastFailed(s, now))
  {
    if was.Some? || run.Some? {
      var c := if was.Some? then was.value else Begun(s, built, run.value);
      OneMoreIteration(s, c, worlds(k).opf);
    }
  }

  class Generator {
    const setup: Setup
    var stage: Stage
    var net: Network
    var dc: Option<Run>
    var calibrator: Option<State>
    var iteration: nat
    ghost const built: Network
    ghost var past: Option<Calibrating>

    constructor (s: Setup, built: Network)
      requires Fits(s, built)
      ensures setup == s && this.built == built && past == None
      ensures Valid() && stage == Context && StepsLeft() == 7 + MostIterations(s) && LastProgress() == 0.0
    {
      setup, stage, net, dc, calibrator, iteration := s, Context, built, None, None, 0;
      this.built, past := built, None;
    }

    /** The calibrator and the network are where the iterations made led to. */
    ghost predicate Calibrated()
      reads this
    {
      && (past.None? ==> calibrator.None? && net == built)
      && (past.Some? ==>
            var c := past.value;
            c.Valid(setup) && c.search.nets[0] == built && calibrator == Some(c.Last(setup)) && net == c.LastNet(setup))
    }

    /** A calibration under way has run once per visit and has iterations left; one
        behind is finished, and left its current run, unless there was none to begin with. */
    ghost predicate Valid()
      reads this
    {
      && Fits(setup, net) && Fits(setup, built) && Calibrated()
      && (calibrator.Some? ==> calibrator.value.iteration == iteration)
      && (calibrator.None? ==> iteration == 0)
      && (Before(stage) < Before(Calibrate) ==> calibrator.None? && dc.None?)
      && (stage == Calibrate && calibrator.Some? ==>
            !calibrator.value.finished && 0 < iteration < setup.maxIterations && past.value.Made() == iteration)
      && (Before(stage) > Before(Calibrate) ==> if calibrator.None? then dc == None
            else calibrator.value.finished && dc == Some(calibrator.value.current))
    }

    /** Steps to the end at most. */
    ghost function StepsLeft(): nat
      requires Valid()
      reads this
    {
      match stage
      case Context => 7 + MostIterations(setup)
      case SiteBuses => 6 + MostIterations(setup)
      case Topology => 5 + MostIterations(setup)
      case Electrify => 4 + MostIterations(setup)
      case DcOpf => 3 + MostIterations(setup)
      case Calibrate => 2 + MostIterations(setup) - iteration
      case AcPf => 2
      case Finalize => 1
      case Done => 0
    }

    /** Progress already reported, at most. */
    ghost function LastProgress(): real
      requires Valid()
      reads this
    {
      match stage
      case Context => 0.0
      case SiteBuses => 0.05
      case Topology => 0.15
      case Electrify => 0.30
      case DcOpf => 0.45
      case Calibrate => PartProgress(iteration, MostIterations(setup))
      case AcPf => 0.80
      case Finalize => 0.92
      case Done => 0.98
    }

    /** One calibration iteration; true when calibration is finished. Without a first
        run there is nothing to calibrate; the first visit starts a calibrator from it;
        each visit makes one iteration, answered by `world`, unless the calibrator was
        finished from the start; and a finished calibration leaves its run. */
    method RunCalibrate(world: World) returns (ok: bool, finished: bool)
      requires Valid() && stage == Calibrate
      modifies this`net, this`dc, this`calibrator, this`iteration, this`past
      ensures Fits(setup, net) && Calibrated() && iteration >= old(iteration)
      ensures past == Visited(setup, old(past), old(dc), built, world.opf)
      ensures ok <==> !(past != old(past) && LastFailed(setup, past))
      ensures ok ==> (calibrator.Some? ==> calibrator.value.iteration == iteration)
                     && (calibrator.None? ==> iteration == 0)
      ensures ok ==> (finished <==> past.None? || past.value.Last(setup).finished)
      ensures ok && finished ==> dc == if past.None? then old(dc) else Some(past.value.Last(setup).current)
      ensures ok && !finished ==> dc == old(dc) && iteration == old(iteration) + 1 && iteration < setup.maxIterations
                                  && past.value.Made() == iteration
    {
      if calibrator.None? {
        if dc.None? {
          return true, true;
        }
        calibrator := Some(Started(setup, net, dc.value));
        past := Some(Begun(setup, net, dc.value));
      }
      if calibrator.value.finished {
        dc := Some(calibrator.value.current);
        return true, true;
      }
      ok, finished := RunIteration(world.opf);
    }

    /** One more iteration of a calibration that is not finished. */
    method RunIteration(opf: Network -> Solve) returns (ok: bool, finished: bool)
      requires Fits(setup, net) && Calibrated() && past.Some? && !calibrator.value.finished
      requires iteration == calibrator.value.iteration == past.value.Made()
      modifies this`net, this`dc, this`calibrator, this`iteration, this`past
      ensures Fits(setup, net) && Calibrated() && past == Some(old(past).value.More(setup, opf))
      ensures ok <==> !LastFailed(setup, past)
      ensures ok ==> (finished <==> calibrator.value.finished)
                     && iteration == calibrator.value.iteration == past.value.Made() == old(iteration) + 1
      ensures !ok ==> iteration == old(iteration)
      ensures ok && !finished ==> dc == old(dc) && iteration < setup.maxIterations
      ensures ok && finished ==> dc == Some(calibrator.value.current)
    {
      OneMoreIteration(setup, past.value, opf);
      past := Some(past.value.More(setup, opf));
      var r := Iterated(setup, calibrator.value, net, opf);
      calibrator, net := Some(r.state), r.net;
      if r.outcome.SolveFailed? {
        return false, false;
      }
      iteration := r.state.iteration;
      finished := r.outcome.finished;
      if finished {
        dc := Some(r.state.current);
      }
      return true, finished;
    }

    /** Run one stage. A step either fails or brings the end strictly nearer and
        reports no less progress than the step before it. Only the DC OPF stage sets
        the first run, only visits of the calibration stage calibrate, and that stage
        is left exactly when there is nothing to calibrate or the search is finished. */
    method Step(world: World) returns (out: StepOutcome)
      requires Valid()
      modifies this
      ensures out == Error <==> old(stage) == Done || world.fails(old(stage))
                                || (old(stage) == Calibrate && past != old(past) && LastFailed(setup, past))
      ensures out.Stepped? ==> Valid() && StepsLeft() < old(StepsLeft())
      ensures out.Stepped? ==> out.stage == old(stage) && (out.done <==> stage == Done)
      ensures out.Stepped? ==> old(LastProgress()) <= out.progress && out.progress == LastProgress()
      ensures out.Stepped? && old(stage) != Calibrate ==>
                Before(stage) == Before(old(stage)) + 1 && past == old(past) && iteration == old(iteration)
                && dc == if old(stage) == DcOpf then world.firstRun else old(dc)
      ensures out.Stepped? && old(stage) == Calibrate ==>
                past == Visited(setup, old(past), old(dc), built, world.opf)
                && stage == (if past.None? || past.value.Last(setup).finished then AcPf else Calibrate)
                && (stage == Calibrate ==> iteration == old(iteration) + 1 && dc == old(dc)
                                           && IsPart(out.progress, 0.60, 0.80, iteration, setup.maxIterations))
      ensures out == Error ==> stage == old(stage)
      ensures out == Error ==> past == old(past)
                               || (stage == Calibrate
                                   && past == Visited(setup, old(past), old(dc), built, world.opf))
    {
      if world.fails(stage) || stage == Done {
        return Error;
      }
      var ran := stage;
      var next := Done;
      match stage {
        case Context => next := SiteBuses;
        case SiteBuses => next := Topology;
        case Topology => next := Electrify;
        case Electrify => next := DcOpf;
        case DcOpf =>
          dc := world.firstRun;
          next := Calibrate;
        case Calibrate =>
          var ok, finished := RunCalibrate(world);
          if !ok {
            return Error;
          }
          next := if finished then AcPf else Calibrate;
        case AcPf => next := Finalize;
        case Finalize => next := Done;
      }
      stage := next;
      if ran == Calibrate && next == Calibrate {
        PartProgressIs(iteration, setup.maxIterations);
      }
      PartProgressBounds(old(iteration), MostIterations(setup));
      PartProgressBounds(iteration, MostIterations(setup));
      PartProgressGrows(old(iteration), iteration, MostIterations(setup));
      var progress := if ran == Calibrate && next == Calibrate then PartProgress(iteration, MostIterations(setup))
      else ran.Progress();
      return Stepped(ran, progress, next == Done);
    }
  }

  /** Progress after `i` of at most `most` calibration iterations. */
  function PartProgress(i: nat, most: nat): real
    requires most > 0
  {
    var share := i as real / most as real;
    0.60 + (0.80 - 0.60) * (if share < 1.0 then share else 1.0)
  }

  /** `x` is `i` of `n` equal parts of the way from `lo` to `hi`. */
  ghost predicate IsPart(x: real, lo: real, hi: real, i: nat, n: nat) {
    (x - lo) * n as real == (hi - lo) * i as real
  }

  lemma PartProgressIs(i: nat, most: nat)
    requires i < most
    ensures IsPart(PartProgress(i, most), 0.60, 0.80, i, most)
  {
    BelowOne(i as real, most as real);
  }

  lemma BelowOne(i: real, m: real)
    requires 0.0 <= i < m
    ensures i / m < 1.0 && (i / m) * m == i
  {
  }

  lemma PartProgressBounds(i: nat, most: nat)
    requires most > 0
    ensures 0.60 <= PartProgress(i, most) <= 0.80
    ensures i == 0 ==> PartProgress(i, most) == 0.60
  {
    ShareNotNegative(i as real, most as real);
  }

  lemma ShareNotNegative(i: real, m: real)
    requires i >= 0.0 && m > 0.0
    ensures i / m >= 0.0 && (i == 0.0 ==> i / m == 0.0)
  {
  }

  lemma PartProgressGrows(i: nat, j: nat, most: nat)
    requires most > 0 && i <= j
    ensures PartProgress(i, most) <= PartProgress(j, most)
  {
    SharesGrow(i as real, j as real, most as real);
  }

  lemma SharesGrow(i: real, j: real, m: real)
    requires i <= j && m > 0.0
    ensures i / m <= j / m
  {
    ShareNotNegative(j - i, m);
    assert (j - i) / m == j / m - i / m;
  }

  ghost predicate Nondecreasing(s: seq<real>) {
    forall i, j | 0 <= i < j < |s| :: s[i] <= s[j]
  }

  /** Visits of the calibration stage: one even if no iteration is made. */
  ghost function Visits(past: Option<Calibrating>): nat {
    if past.Some? && past.value.Made() > 1 then past.value.Made() else 1
  }

  /** The calibration of a session: none if there is no first run; else begun from it
      on the network built, its iterations answered in turn. */
  ghost predicate Calibrates(s: Setup, built: Network, worlds: nat -> World, past: Option<Calibrating>) {
    past.Some? ==>
      var c := past.value;
      && worlds(4).firstRun == Some(c.first) && c.Valid(s) && c.search.nets[0] == built
      && forall i: nat | i < c.Made() :: c.search.opfs[i] == worlds(5 + i).opf
  }

  /** What a session in `stage` has behind it after `n` steps. */
  ghost predicate Behind(s: Setup, built: Network, worlds: nat -> World, stage: Stage, iteration: nat,
                         dc: Option<Run>, past: Option<Calibrating>, n: nat) {
    && Calibrates(s, built, worlds, past)
    && (Before(stage) <= Before(Calibrate) ==> n == Before(stage) + iteration)
    && (Before(stage) > Before(Calibrate) ==> n == Before(stage) - 1 + Visits(past))
    && (Before(stage) < Before(Calibrate) ==> past.None? && iteration == 0)
    && (stage == Calibrate && past.Some? ==> past.value.Made() == iteration > 0)
    && (stage == Calibrate && past.None? ==> dc == worlds(4).firstRun && iteration == 0)
    && (Before(stage) > Before(Calibrate) && past.None? ==> worlds(4).firstRun == None)
  }

  lemma StageBehind(s: Setup, built: Network, worlds: nat -> World, stage: Stage, next: Stage, iteration: nat,
                    dc: Option<Run>, dc': Option<Run>, past: Option<Calibrating>, n: nat)
    requires Behind(s, built, worlds, stage, iteration, dc, past, n) && stage != Calibrate
    requires Before(next) == Before(stage) + 1 && dc' == if stage == DcOpf then worlds(n).firstRun else dc
    ensures Behind(s, built, worlds, next, iteration, dc', past, n + 1)
  {
  }

  lemma VisitBehind(s: Setup, built: Network, worlds: nat -> World, next: Stage, iteration: nat, iteration': nat,
                    dc: Option<Run>, dc': Option<Run>, past: Option<Calibrating>, past': Option<Calibrating>, n: nat)
    requires Fits(s, built) && Behind(s, built, worlds, Calibrate, iteration, dc, past, n)
    requires past.Some? ==> Fits(s, past.value.LastNet(s)) && !past.value.Last(s).finished
    requires past' == Visited(s, past, dc, built, worlds(n).opf) && (past'.Some? ==> past'.value.Valid(s))
    requires next == if past'.None? || past'.value.Last(s).finished then AcPf else Calibrate
    requires next == Calibrate ==> iteration' == iteration + 1 && dc' == dc
    ensures Behind(s, built, worlds, next, iteration', dc', past', n + 1)
  {
    VisitCalibrates(s, built, worlds, past, dc, n);
    if past.Some? || dc.Some? {
      var c := if past.Some? then past.value else Begun(s, built, dc.value);
      OneMoreIteration(s, c, worlds(n).opf);
    }
  }

  /** Take the next step, if it can be taken. */
  method Advance(g: Generator, ghost built: Network, worlds: nat -> World, progress0: seq<real>)
    returns (out: StepOutcome)
    requires g.Valid() && g.built == built && g.stage != Done
    requires Behind(g.setup, built, worlds, g.stage, g.iteration, g.dc, g.past, |progress0|)
    modifies g
    ensures Calibrates(g.setup, built, worlds, g.past)
    ensures out == Error ==> worlds(|progress0|).fails(old(g.stage)) || LastFailed(g.setup, g.past)
    ensures out == Error ==> !Benign(worlds(|progress0|))
    ensures out.Stepped? ==> g.Valid() && g.StepsLeft() < old(g.StepsLeft())
    ensures out.Stepped? ==> old(g.LastProgress()) <= out.progress && out.progress == g.LastProgress()
    ensures out.Stepped? ==>
              Behind(g.setup, built, worlds, g.stage, g.iteration, g.dc, g.past, |progress0| + 1)
  {
    ghost var k, was, dc, stage, iteration := |progress0|, g.past, g.dc, g.stage, g.iteration;
    if g.stage == Calibrate {
      VisitCalibrates(g.setup, built, worlds, g.past, g.dc, k);
    }
    out := g.Step(worlds(|progress0|));
    if out.Stepped? {
      if stage == Calibrate {
        VisitBehind(g.setup, built, worlds, g.stage, iteration, g.iteration, dc, g.dc, was, g.past, k);
      } else {
        StageBehind(g.setup, built, worlds, stage, g.stage, iteration, dc, g.dc, was, k);
      }
    }
  }

  /** Run every stage. Whatever the stages meet, the session ends, done or with an
      error, within 7 + max(1, maxIterations) steps, and progress never goes back. Done
      means that its calibration ran to its end and left its run and its network; an
      error, that a stage failed or a re-solve did. */
  method Generate(s: Setup, built: Network, worlds: nat -> World)
    returns (done: bool, progress: seq<real>, net: Network, dc: Option<Run>, ghost past: Option<Calibrating>)
    requires Fits(s, built)
    ensures |progress| <= if s.maxIterations > 1 then 7 + s.maxIterations else 8
    ensures Nondecreasing(progress)
    ensures Calibrates(s, built, worlds, past)
    ensures done ==> |progress| == 7 + Visits(past) && progress[|progress| - 1] == 0.98
    ensures done && past.None? ==> worlds(4).firstRun == None && dc == None && net == built
    ensures done && past.Some? ==> past.value.Last(s).finished && dc == Some(past.value.Last(s).current)
                                   && net == past.value.LastNet(s)
    ensures !done ==> (exists st :: worlds(|progress|).fails(st)) || LastFailed(s, past)
    ensures (forall k: nat :: Benign(worlds(k))) ==> done
  {
    var g := new Generator(s, built);
    progress := [];
    while g.stage != Done
      invariant g.Valid() && fresh(g) && g.setup == s && g.built == built
      invariant |progress| + g.StepsLeft() <= 7 + MostIterations(s)
      invariant Nondecreasing(progress) && (forall i | 0 <= i < |progress| :: progress[i] <= g.LastProgress())
      invariant progress != [] ==> progress[|progress| - 1] == g.LastProgress()
      invariant Behind(s, built, worlds, g.stage, g.iteration, g.dc, g.past, |progress|)
      decreases g.StepsLeft()
    {
      var out := Advance(g, built, worlds, progress);
      if out == Error {
        return false, progress, g.net, g.dc, g.past;
      }
      PushKeepsOrder(progress, out.progress);
      progress := progress + [out.progress];
    }
    return true, progress, g.net, g.dc, g.past;
  }

  lemma PushKeepsOrder(s: seq<real>, x: real)
    requires Nondecreasing(s) && (forall i | 0 <= i < |s| :: s[i] <= x)
    ensures Nondecreasing(s + [x])
  {
  }

  /** Stages that come before `stage`. */
  ghost function Before(stage: Stage): nat {
    match stage
    case Context => 0
    case SiteBuses => 1
    case Topology => 2
    case Electrify => 3
    case DcOpf => 4
    case Calibrate => 5
    case AcPf => 6
    case Finalize => 7
    case Done => 8
  }
}
