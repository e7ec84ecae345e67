/**
 The counting allocator: after every system call the difference in a block's
 layout is added to or taken from a shared live counter by one atomic step, and a
 second step raises the peak. Calls of different threads interleave between any
 two steps. Block numbers stand for blocks, not addresses.
 */
module HeapCounter {

  /** Where the call on a block stands. A block is in one call at a time: a
      pointer is not handed out before its `grow` is over, and `dealloc` and
      `realloc` take it over from the program. */
  datatype Phase =
    | Held
    | Adding(bytes: nat)            // system call done, counter not yet raised
    | Raising(value: int)           // counter raised to `value`, peak not yet
    | Removing(bytes: nat)          // shrunk by the system, counter not yet lowered
    | Freeing(bytes: nat)           // freed by the system, counter not yet lowered

  /** A block as the system allocator has it: `size` is what was last granted. */
  datatype Block = Block(size: nat, phase: Phase)

  datatype State = State(live: int, peak: int, blocks: map<nat, Block>)

  /** A failed system call (a null pointer) counts nothing and is no step. The
      program passes the layout a block has, as the allocator interface demands. */
  datatype Step =
    | Alloc(b: nat, layout: nat)
    | Realloc(b: nat, layout: nat, newSize: nat)
    | Dealloc(b: nat, layout: nat)
    | FetchAdd(b: nat)
    | FetchMax(b: nat)
    | FetchSub(b: nat)

  predicate Enabled(s: State, step: Step) {
    if step.Alloc? then step.b !in s.blocks else
    && step.b in s.blocks
    && var x := s.blocks[step.b];
    match step
    case Realloc(_, layout, _) => x.phase == Held && layout == x.size
    case Dealloc(_, layout) => x.phase == Held && layout == x.size
    case FetchAdd(_) => x.phase.Adding?
    case FetchMax(_) => x.phase.Raising?
    case FetchSub(_) => x.phase.Removing? || x.phase.Freeing?
  }

  function Next(s: State, step: Step): State
    requires Enabled(s, step)
  {
    if step.Alloc? then s.(blocks := s.blocks[step.b := Block(step.layout, Adding(step.layout))]) else
    var x := s.blocks[step.b];
    match step
    case Realloc(b, layout, newSize) =>
      s.(blocks := s.blocks[b := Block(newSize, if newSize >= layout then Adding(newSize - layout)
                                       else Removing(layout - newSize))])
    case Dealloc(b, layout) => s.(blocks := s.blocks[b := Block(0, Freeing(layout))])
    case FetchAdd(b) =>
      var live := s.live + x.phase.bytes;
      s.(live := live, blocks := s.blocks[b := x.(phase := Raising(live))])
    case FetchMax(b) =>
      s.(peak := if x.phase.value > s.peak then x.phase.value else s.peak, blocks := s.blocks[b := x.(phase := Held)])
    case FetchSub(b) =>
      s.(live := s.live - x.phase.bytes,
      blocks := if x.phase.Freeing? then s.blocks - {b} else s.blocks[b := x.(phase := Held)])
  }

  // ------------------------------------------------------------ bytes

  /** What a block should have in the counter: its size, less what is still to be
      added, and what is still to be taken away. */
  ghost function Due(x: Block): int {
    match x.phase
    case Adding(bytes) => x.size - bytes
    case Removing(bytes) => x.size + bytes
    case Freeing(bytes) => x.size + bytes
    case _ => x.size
  }

  ghost function SizeOf(x: Block): int { x.size }

  /** The sum of a measure over the blocks. */
  ghost function Total(f: Block -> int, blocks: map<nat, Block>): int {
    if blocks == map[] then 0 else
    var b :| b in blocks;
    f(blocks[b]) + Total(f, blocks - {b})
  }

  /** The bytes the system allocator has granted and not taken back. */
  ghost function Outstanding(blocks: map<nat, Block>): int {
    Total(SizeOf, blocks)
  }

  lemma {:induction false} TotalWithout(f: Block -> int, blocks: map<nat, Block>, b: nat)
    requires b in blocks
    ensures Total(f, blocks) == f(blocks[b]) + Total(f, blocks - {b})
    decreases blocks
  {
    var c :| c in blocks && Total(f, blocks) == f(blocks[c]) + Total(f, blocks - {c});
    if c != b {
      TotalWithout(f, blocks - {c}, b);
      TotalWithout(f, blocks - {b}, c);
      assert blocks - {c} - {b} == blocks - {b} - {c};
    }
  }

  lemma TotalUpdate(f: Block -> int, blocks: map<nat, Block>, b: nat, x: Block)
    ensures Total(f, blocks[b := x]) == f(x) + Total(f, blocks - {b})
  {
    TotalWithout(f, blocks[b := x], b);
    assert blocks[b := x] - {b} == blocks - {b};
  }

  lemma {:induction false} TotalNotNegative(f: Block -> int, blocks: map<nat, Block>)
    requires forall b | b in blocks :: f(blocks[b]) >= 0
    ensures Total(f, blocks) >= 0
    decreases blocks
  {
    if blocks != map[] {
      var b :| b in blocks;
      TotalWithout(f, blocks, b);
      TotalNotNegative(f, blocks - {b});
    }
  }

  lemma {:induction false} TotalSame(f: Block -> int, g: Block -> int, blocks: map<nat, Block>)
    requires forall b | b in blocks :: f(blocks[b]) == g(blocks[b])
    ensures Total(f, blocks) == Total(g, blocks)
    decreases blocks
  {
    if blocks != map[] {
      var b :| b in blocks;
      TotalWithout(f, blocks, b);
      TotalWithout(g, blocks, b);
      TotalSame(f, g, blocks - {b});
    }
  }

  // ------------------------------------------------------------ safety

  /** A block is due nothing negative, and a freed one has no size. */
  ghost predicate BlockOk(x: Block) {
    Due(x) >= 0 && (x.phase.Freeing? ==> x.size == 0)
  }

  /** The live counter holds what every block is due. */
  ghost predicate Safe(s: State) {
    s.live == Total(Due, s.blocks) && forall b | b in s.blocks :: BlockOk(s.blocks[b])
  }

  /** No call is in flight. */
  ghost predicate Quiet(s: State) {
    forall b | b in s.blocks :: s.blocks[b].phase == Held
  }

  /** Every atomic step keeps the counter at what the blocks are due. */
  lemma StepKeepsSafe(s: State, step: Step)
    requires Safe(s) && Enabled(s, step)
    ensures Safe(Next(s, step))
  {
    var t := Next(s, step);
    if step.Alloc? {
      TotalUpdate(Due, s.blocks, step.b, Block(step.layout, Adding(step.layout)));
      assert s.blocks - {step.b} == s.blocks;
    } else {
      TotalWithout(Due, s.blocks, step.b);
      if step.b in t.blocks {
        TotalUpdate(Due, s.blocks, step.b, t.blocks[step.b]);
        assert t.blocks == s.blocks[step.b := t.blocks[step.b]];
      }
    }
  }

  /** With no call in flight the counter is the bytes outstanding. */
  lemma QuietIsExact(s: State)
    requires Safe(s) && Quiet(s)
    ensures s.live == Outstanding(s.blocks)
  {
    TotalSame(Due, SizeOf, s.blocks);
  }

  /** The counter never underflows: what a step subtracts, it holds. */
  lemma NeverUnderflows(s: State, step: Step)
    requires Safe(s) && Enabled(s, step)
    ensures s.live >= 0 && (step.FetchSub? ==> s.blocks[step.b].phase.bytes <= s.live)
  {
    TotalNotNegative(Due, s.blocks);
    if step.FetchSub? {
      TotalWithout(Due, s.blocks, step.b);
      TotalNotNegative(Due, s.blocks - {step.b});
    }
  }

  // ------------------------------------------------------------ runs

  ghost predicate StepAt(states: seq<State>, steps: seq<Step>, i: nat) {
    i < |steps| && i + 1 < |states| && Enabled(states[i], steps[i]) && states[i + 1] == Next(states[i], steps[i])
  }

  /** A run from any state whose counter is right, such as that of a program's start. */
  ghost predicate IsRun(states: seq<State>, steps: seq<Step>) {
    && |states| == |steps| + 1 && Safe(states[0])
    && (forall i: nat | i < |steps| :: StepAt(states, steps, i))
  }

  /** In every interleaving the counter holds what the blocks are due, and equals
      the bytes outstanding whenever no call is in flight. */
  lemma {:induction false} AlwaysSafe(states: seq<State>, steps: seq<Step>, i: nat)
    requires IsRun(states, steps) && i < |states|
    ensures Safe(states[i]) && states[i].live >= 0
    ensures Quiet(states[i]) ==> states[i].live == Outstanding(states[i].blocks)
  {
    if i > 0 {
      AlwaysSafe(states, steps, i - 1);
      assert StepAt(states, steps, i - 1);
      StepKeepsSafe(states[i - 1], steps[i - 1]);
    }
    TotalNotNegative(Due, states[i].blocks);
    if Quiet(states[i]) {
      QuietIsExact(states[i]);
    }
  }

  // ------------------------------------------------------------ calls come to an end

  /** Atomic steps a block's call still has to make. */
  ghost function Pending(x: Block): int {
    match x.phase
    case Held => 0
    case Adding(_) => 2
    case _ => 1
  }

  /** The next of them. */
  ghost function Following(x: Block, b: nat): Step
    requires x.phase != Held
  {
    match x.phase
    case Adding(_) => FetchAdd(b)
    case Raising(_) => FetchMax(b)
    case _ => FetchSub(b)
  }

  ghost predicate Reaches(s: State, steps: seq<Step>, t: State)
    decreases |steps|
  {
    if steps == [] then s == t else Enabled(s, steps[0]) && Reaches(Next(s, steps[0]), steps[1..], t)
  }

  /** Whatever is in flight, the steps the calls still have to make are enabled in turn,
      and lead to a quiet moment, at which the counter is exact. */
  lemma {:induction false} CallsFinish(s: State) returns (steps: seq<Step>, last: State)
    requires Safe(s)
    ensures Reaches(s, steps, last) && Quiet(last) && last.live == Outstanding(last.blocks)
    ensures |steps| == Total(Pending, s.blocks)
    ensures forall k | 0 <= k < |steps| :: !steps[k].Alloc? && !steps[k].Realloc? && !steps[k].Dealloc?
    decreases Total(Pending, s.blocks)
  {
    if Quiet(s) {
      QuietIsExact(s);
      NonePending(s.blocks);
      return [], s;
    }
    var b :| b in s.blocks && s.blocks[b].phase != Held;
    var step := Following(s.blocks[b], b);
    var t := Next(s, step);
    StepKeepsSafe(s, step);
    TotalNotNegative(Pending, t.blocks);
    TotalWithout(Pending, s.blocks, b);
    if b in t.blocks {
      TotalUpdate(Pending, s.blocks, b, t.blocks[b]);
      assert t.blocks == s.blocks[b := t.blocks[b]];
    }
    var rest;
    rest, last := CallsFinish(t);
    steps := [step] + rest;
    assert steps[1..] == rest;
  }

  lemma {:induction false} NonePending(blocks: map<nat, Block>)
    requires forall b | b in blocks :: blocks[b].phase == Held
    ensures Total(Pending, blocks) == 0
    decreases blocks
  {
    if blocks != map[] {
      var b :| b in blocks;
      TotalWithout(Pending, blocks, b);
      NonePending(blocks - {b});
    }
  }

  // ------------------------------------------------------------ measuring a region

  /** The highest live value from the start of a run to position `i`. */
  ghost function Highest(states: seq<State>, i: nat): int
    requires i < |states|
  {
    if i == 0 || Highest(states, i - 1) < states[i].live then states[i].live else Highest(states, i - 1)
  }

  /** Everything recorded or about to be recorded is at most `top`, and `top` is one of them. */
  ghost predicate PeakTracks(s: State, top: int) {
    && s.peak <= top && s.live <= top
    && (forall b | b in s.blocks && s.blocks[b].phase.Raising? :: s.blocks[b].phase.value <= top)
    && (s.peak == top || exists b :: b in s.blocks && s.blocks[b].phase == Raising(top))
  }

  lemma StepKeepsPeak(s: State, step: Step, top: int)
    requires Safe(s) && Enabled(s, step) && PeakTracks(s, top)
    ensures PeakTracks(Next(s, step), if top < Next(s, step).live then Next(s, step).live else top)
  {
    var t := Next(s, step);
    if s.peak != top {
      var b :| b in s.blocks && s.blocks[b].phase == Raising(top);
      if b != step.b {
        assert b in t.blocks && t.blocks[b].phase == Raising(top);
      }
    }
    if step.FetchAdd? {
      assert t.blocks[step.b].phase == Raising(t.live);
    }
  }

  lemma {:induction false} PeakTracksRun(states: seq<State>, steps: seq<Step>, i: nat)
    requires IsRun(states, steps) && Quiet(states[0]) && states[0].peak == states[0].live && i < |states|
    ensures PeakTracks(states[i], Highest(states, i))
  {
    if i > 0 {
      PeakTracksRun(states, steps, i - 1);
      AlwaysSafe(states, steps, i - 1);
      assert StepAt(states, steps, i - 1);
      StepKeepsPeak(states[i - 1], steps[i - 1], Highest(states, i - 1));
    }
  }

  datatype Measured = Measured(peakBytes: int, retainedBytes: int)

  /** What `measure` reports for a region that ran `states`, started by storing
      the live value into the peak. */
  function Report(first: State, last: State): Measured {
    Measured(if last.peak > first.live then last.peak - first.live else 0, last.live - first.live)
  }

  /** Between quiet moments the report is exact: the peak is the highest live
      value reached anywhere in the region, above its start. */
  lemma MeasureIsExact(states: seq<State>, steps: seq<Step>)
    requires IsRun(states, steps) && Quiet(states[0]) && states[0].peak == states[0].live && Quiet(states[|states| - 1])
    ensures var m := Report(states[0], states[|states| - 1]);
            && m.peakBytes == Highest(states, |states| - 1) - states[0].live
            && (forall i | 0 <= i < |states| :: states[i].live - states[0].live <= m.peakBytes)
            && (exists i :: 0 <= i < |states| && states[i].live - states[0].live == m.peakBytes)
            && m.retainedBytes == Outstanding(states[|states| - 1].blocks) - Outstanding(states[0].blocks)
  {
    var n := |states| - 1;
    PeakTracksRun(states, steps, n);
    AlwaysSafe(states, steps, 0);
    AlwaysSafe(states, steps, n);
    HighestIsMaximum(states, n);
  }

  lemma {:induction false} HighestIsMaximum(states: seq<State>, i: nat)
    requires i < |states|
    ensures forall k | 0 <= k <= i :: states[k].live <= Highest(states, i)
    ensures exists k :: 0 <= k <= i && states[k].live == Highest(states, i)
  {
    if i > 0 {
      HighestIsMaximum(states, i - 1);
    }
    if Highest(states, i) == states[i].live {
      assert 0 <= i <= i;
    } else {
      var k :| 0 <= k <= i - 1 && states[k].live == Highest(states, i - 1);
    }
  }
}
