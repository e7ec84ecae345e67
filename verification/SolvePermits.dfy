/**
 The solver-permit protocol as a step system: requests wait for a permit inside
 a deadline, a blocking solve holds its permit until it ends, and a handler that
 gives up raises the solve's cancel flag. Steps of different requests interleave
 freely, also between dropping a solve and raising its flag.
 */
module SolvePermits {

  datatype Kind = Stream | Sensitivity

  /** A handler awaits, is leaving (its solve is dropped, its flag not yet
      raised), or is done. A sensitivity handler is simply dropped when its
      client disconnects. */
  datatype Handler = Awaiting | Expiring | HangingUp | Answered | TimedOut | HungUp | Dropped

  /** The blocking solve: not there yet, with a permit the semaphore has assigned
      to its waiting handler, queued or running while `Live`, or over. */
  datatype Task = NotStarted | Granted | Live | Ended

  datatype Request = Request(kind: Kind, handler: Handler, task: Task, cancel: bool)

  datatype State = State(free: nat, requests: map<nat, Request>)

  datatype Step =
    | Arrive(id: nat, kind: Kind)
    | Grant(id: nat)     // a free permit is assigned to a request that waits for one
    | Acquire(id: nat)   // its handler is polled and moves the permit into the blocking task
    | Finish(id: nat)    // the solve returns, stops or panics; its permit is dropped
    | Answer(id: nat)
    | Expire(id: nat)    // deadline: the inner future is dropped, with a permit not yet moved ...
    | RaiseExpired(id: nat) // ... then the flag is raised and the handler returns
    | Close(id: nat)     // the client of a stream hung up
    | RaiseClosed(id: nat)
    | Drop(id: nat)      // the client of a sensitivity request disconnected

  predicate Enabled(s: State, step: Step) {
    if step.Arrive? then step.id !in s.requests else
    && step.id in s.requests
    && var r := s.requests[step.id];
    match step
    case Grant(_) => r.handler == Awaiting && r.task == NotStarted && s.free > 0
    case Acquire(_) => r.handler == Awaiting && r.task == Granted
    case Finish(_) => r.task == Live
    case Answer(_) => r.handler == Awaiting && r.task == Ended
    case Expire(_) => r.handler == Awaiting
    case RaiseExpired(_) => r.handler == Expiring
    case Close(_) => r.kind == Stream && r.handler == Awaiting
    case RaiseClosed(_) => r.handler == HangingUp
    case Drop(_) => r.kind == Sensitivity && r.handler == Awaiting
  }

  function Updated(r: Request, step: Step): Request
    requires !step.Arrive?
  {
    match step
    case Grant(_) => r.(task := Granted)
    case Acquire(_) => r.(task := Live)
    case Finish(_) => r.(task := Ended)
    case Answer(_) => r.(handler := Answered)
    case Expire(_) => r.(handler := Expiring, task := GivenBack(r.task))
    case RaiseExpired(_) => r.(handler := TimedOut, cancel := true)
    case Close(_) => r.(handler := HangingUp, task := GivenBack(r.task))
    case RaiseClosed(_) => r.(handler := HungUp, cancel := true)
    case Drop(_) => r.(handler := Dropped, task := GivenBack(r.task))
  }

  /** Dropping a handler drops a permit it was assigned; a live solve keeps its own. */
  function GivenBack(t: Task): Task {
    if t == Granted then NotStarted else t
  }

  predicate HoldsPermit(t: Task) { t == Granted || t == Live }

  function Next(s: State, step: Step): State
    requires Enabled(s, step)
  {
    if step.Arrive? then s.(requests := s.requests[step.id := Request(step.kind, Awaiting, NotStarted, false)]) else
    var r := s.requests[step.id];
    var returned := step.Finish? || ((step.Expire? || step.Close? || step.Drop?) && r.task == Granted);
    State(if step.Grant? then s.free - 1 else if returned then s.free + 1
          else s.free, s.requests[step.id := Updated(r, step)])
  }

  // ------------------------------------------------------------ runs

  ghost predicate StepAt(states: seq<State>, steps: seq<Step>, i: nat) {
    i < |steps| && i + 1 < |states| && Enabled(states[i], steps[i]) && states[i + 1] == Next(states[i], steps[i])
  }

  /** A run of the server with `permits` permits, from idle. */
  ghost predicate IsRun(permits: nat, states: seq<State>, steps: seq<Step>) {
    && |states| == |steps| + 1 && states[0] == State(permits, map[])
    && (forall i: nat | i < |steps| :: StepAt(states, steps, i))
  }

  /** Requests that hold a permit: assigned, or in a live solve. */
  ghost function Holders(s: State): set<nat> {
    set id | id in s.requests && HoldsPermit(s.requests[id].task)
  }

  /** The handler gave up on its solve and has returned. */
  ghost predicate GaveUp(r: Request) {
    r.handler == TimedOut || r.handler == HungUp
  }

  /** The flag is up exactly for requests given up at the deadline or by a closed
      stream; a request is answered only after its solve ended; only a waiting
      handler has a permit assigned; only streams hang up and only sensitivity
      requests are dropped. */
  ghost predicate RequestOk(r: Request) {
    && (r.cancel <==> GaveUp(r))
    && (r.handler == Answered ==> r.task == Ended) && (r.task == Granted ==> r.handler == Awaiting)
    && (r.handler == HungUp || r.handler == HangingUp ==> r.kind == Stream)
    && (r.handler == Dropped ==> r.kind == Sensitivity)
  }

  ghost predicate Safe(permits: nat, s: State) {
    && s.free + |Holders(s)| == permits
    && (forall id | id in s.requests :: RequestOk(s.requests[id]))
  }

  lemma HoldersAfter(s: State, step: Step)
    requires Enabled(s, step)
    ensures var t := Next(s, step);
            Holders(t) == if step.Grant? then Holders(s) + {step.id}
            else if t.free > s.free then Holders(s) - {step.id} else Holders(s)
  {
  }

  lemma CountAfter(s: State, step: Step)
    requires Enabled(s, step)
    ensures Next(s, step).free + |Holders(Next(s, step))| == s.free + |Holders(s)|
  {
    HoldersAfter(s, step);
    if step.Grant? {
      assert step.id !in Holders(s);
    } else if Next(s, step).free > s.free {
      assert step.id in Holders(s);
    }
  }

  lemma RequestStaysOk(s: State, step: Step)
    requires Enabled(s, step) && !step.Arrive? && RequestOk(s.requests[step.id])
    ensures RequestOk(Updated(s.requests[step.id], step))
  {
  }

  /** Every step keeps the permit count and every request's flag. */
  lemma StepKeepsSafe(permits: nat, s: State, step: Step)
    requires Safe(permits, s) && Enabled(s, step)
    ensures Safe(permits, Next(s, step))
  {
    CountAfter(s, step);
    forall id | id in Next(s, step).requests
      ensures RequestOk(Next(s, step).requests[id])
    {
      if id != step.id {
        assert RequestOk(s.requests[id]);
      } else if !step.Arrive? {
        RequestStaysOk(s, step);
      }
    }
  }

  /** In every interleaving: free permits, those assigned and those of live solves
      are the configured permits, and the flags are as `RequestOk` says. */
  lemma {:induction false} AlwaysSafe(permits: nat, states: seq<State>, steps: seq<Step>, i: nat)
    requires IsRun(permits, states, steps) && i < |states|
    ensures Safe(permits, states[i])
  {
    if i == 0 {
      assert Holders(states[0]) == {};
    } else {
      AlwaysSafe(permits, states, steps, i - 1);
      assert StepAt(states, steps, i - 1);
      StepKeepsSafe(permits, states[i - 1], steps[i - 1]);
    }
  }

  /** An abandoned solve that still runs: its handler has gone without an answer. */
  ghost predicate Abandoned(r: Request) {
    r.task == Live && (r.handler == TimedOut || r.handler == HungUp || r.handler == Dropped)
  }

  /** An abandoned solve has been told to stop if and only if its handler was not
      simply dropped, as that of a disconnected sensitivity request is. */
  lemma AbandonedIsCancelled(permits: nat, states: seq<State>, steps: seq<Step>, i: nat, id: nat)
    requires IsRun(permits, states, steps) && i < |states|
    requires id in states[i].requests && Abandoned(states[i].requests[id])
    ensures states[i].requests[id].cancel <==> states[i].requests[id].handler != Dropped
    ensures states[i].requests[id].handler == Dropped ==> states[i].requests[id].kind == Sensitivity
  {
    AlwaysSafe(permits, states, steps, i);
  }

  /** The exception is reachable: a dropped sensitivity request keeps its permit
      and is not told to stop. */
  lemma DroppedRunsOn(permits: nat) returns (states: seq<State>, steps: seq<Step>)
    requires permits > 0
    ensures IsRun(permits, states, steps)
    ensures var s := states[|states| - 1];
            0 in s.requests && Abandoned(s.requests[0]) && !s.requests[0].cancel && s.free == permits - 1
  {
    steps := [Arrive(0, Sensitivity), Grant(0), Acquire(0), Drop(0)];
    var s0 := State(permits, map[]);
    var s1 := Next(s0, steps[0]);
    var s2 := Next(s1, steps[1]);
    var s3 := Next(s2, steps[2]);
    states := [s0, s1, s2, s3, Next(s3, steps[3])];
    assert forall i: nat | i < 4 :: StepAt(states, steps, i);
  }

  // ------------------------------------------------------------ permits come back

  /** Once no permit is assigned and no solve is queued or running, every permit is
      free again. */
  lemma IdleMeansFree(permits: nat, states: seq<State>, steps: seq<Step>, i: nat)
    requires IsRun(permits, states, steps) && i < |states|
    requires forall id | id in states[i].requests :: !HoldsPermit(states[i].requests[id].task)
    ensures states[i].free == permits
  {
    AlwaysSafe(permits, states, steps, i);
    assert Holders(states[i]) == {};
  }

  /** The step that brings a held permit one nearer to its return. */
  function Release(s: State, id: nat): Step
    requires id in s.requests
  {
    if s.requests[id].task == Granted then Expire(id) else Finish(id)
  }

  /** Whatever has happened, ending the solves still live and the waits of those
      that were assigned a permit, one by one, returns every permit, whether their
      handlers wait, answered or gave up. */
  lemma {:induction false} SolvesEndPermitsReturn(permits: nat, s: State) returns (ends: seq<Step>, last: State)
    requires Safe(permits, s)
    ensures |ends| == |Holders(s)|
    ensures forall k | 0 <= k < |ends| :: ends[k].id in Holders(s) && ends[k] == Release(s, ends[k].id)
    ensures Reaches(s, ends, last) && last.free == permits
    decreases |Holders(s)|
  {
    if Holders(s) == {} {
      return [], s;
    }
    var id :| id in Holders(s);
    var step := Release(s, id);
    assert RequestOk(s.requests[id]);
    HoldersAfter(s, step);
    StepKeepsSafe(permits, s, step);
    var rest, end := SolvesEndPermitsReturn(permits, Next(s, step));
    ends, last := [step] + rest, end;
    assert ends[1..] == rest;
    forall k | 0 <= k < |ends|
      ensures ends[k].id in Holders(s) && ends[k] == Release(s, ends[k].id)
    {
      assert k > 0 ==> ends[k] == rest[k - 1];
    }
  }

  /** The steps can be taken in order from `s` and lead to `t`. */
  ghost predicate Reaches(s: State, steps: seq<Step>, t: State)
    decreases |steps|
  {
    if steps == [] then s == t else Enabled(s, steps[0]) && Reaches(Next(s, steps[0]), steps[1..], t)
  }
}
