/**
 The benchmark feeder generator: from a specification to a network with exactly
 the element counts that the specification predicts. Where the program stops with
 an assertion there is no network.
 */
module Feeder {
  import opened Options
  import opened FeederNetworks
  import opened PrimaryTrees
  import opened Quotas
  import opened ShortestPaths

  const TIE_ATTEMPTS := 1_000_000
  const TIE_WINDOW := 60

  datatype Span = Span(lo: real, hi: real)

  datatype SecondarySpec = SecondarySpec(fourWire: nat, twoWire: nat, segment: Span, service: Span, groundEvery: nat)

  datatype Spec = Spec(feeders: nat, primaryBuses: nat, segment: Span, primaryTaps: nat, tapLength: Span,
                       primaryTies: nat, minTieDistance: nat, groundEvery: nat, secondary: Option<SecondarySpec>,
                       threePhase: nat, singlePhase: nat, singleKw: Span, threeKw: Span, loadScale: real)

  datatype Load = Load(bus: Id, wires: seq<Terminal>, p: seq<real>, kind: Kind)

  /** Where a load connects. */
  datatype Site = TwoWireSite(bus: Id, phase: Terminal) | FourWireSite(bus: Id)

  // ------------------------------------------------------------ the predicted shape

  datatype Shape = Shape(buses: nat, terminals: nat, lines: nat, transformers: nat, loads: nat, loadBranches: nat)

  function Predicted(spec: Spec): Shape {
    var (four2, two2, transformers) := match spec.secondary
      case None => (0, 0, 0)
      case Some(s) => (s.fourWire, s.twoWire, spec.primaryBuses);
    var four, two := 1 + spec.primaryBuses + four2, spec.primaryTaps + two2;
    var lines := spec.primaryBuses + spec.primaryTaps + spec.primaryTies + four2 + two2 - transformers;
    Shape(four + two, 4 * four + 2 * two, lines, transformers,
          spec.threePhase + spec.singlePhase, 3 * spec.threePhase + spec.singlePhase)
  }

  ghost function Branches(loads: seq<Load>): nat {
    if loads == [] then 0 else Branches(loads[..|loads| - 1]) + |loads[|loads| - 1].p|
  }

  /** The shape of a network, counted. */
  ghost function Counted(net: Net, loads: seq<Load>): Shape {
    Shape(|net.buses|, TerminalCount(net.buses), |net.lines|, |net.transformers|, |loads|, Branches(loads))
  }

  // ------------------------------------------------------------ draws

  /** `x` is in a range, if the range is one. */
  ghost predicate InSpan(x: real, s: Span) {
    s.lo <= s.hi ==> s.lo <= x <= s.hi
  }

  /** Any value of a range. */
  method Uniform(s: Span) returns (x: real)
    ensures InSpan(x, s)
  {
    var f: real :| 0.0 <= f < 1.0;
    if s.lo <= s.hi {
      PartInside(s.hi - s.lo, f);
    }
    x := s.lo + (s.hi - s.lo) * f;
  }

  lemma PartInside(d: real, f: real)
    requires d >= 0.0 && 0.0 <= f <= 1.0
    ensures 0.0 <= d * f <= d
  {
    assert d * (1.0 - f) >= 0.0;
  }

  /** The bus a new bus attaches to among `k` earlier ones: the last, or any. */
  method Attach(k: nat) returns (j: nat)
    requires k > 0
    ensures j < k
  {
    var chain: bool := *;
    if chain {
      j := k - 1;
    } else {
      j := Below(k);
    }
  }

  function Phase(i: nat): Terminal { PHASES[i % 3] }

  // ------------------------------------------------------------ growth

  /** How far each family of bus names has been used. */
  datatype Mark = Mark(primary: nat, tap: nat, cluster: nat, secondary: nat, drop: nat) {
    predicate Covers(id: Id) {
      match id
      case Src => true
      case Primary(i) => i < primary
      case Tap(i) => i < tap
      case Secondary(c, k) => c < cluster || (c == cluster && k < secondary)
      case Drop(c, k) => c < cluster || (c == cluster && k < drop)
    }

    predicate UpTo(m: Mark) {
      && primary <= m.primary && tap <= m.tap
      && (cluster < m.cluster || (cluster == m.cluster && secondary <= m.secondary && drop <= m.drop))
    }
  }

  ghost predicate NamesBelow(net: Net, m: Mark) {
    forall i | 0 <= i < |net.buses| :: m.Covers(net.buses[i].id)
  }

  /** Elements so far. */
  datatype Tally = Tally(four: nat, two: nat, lines: nat, transformers: nat)

  ghost predicate Tallied(net: Net, t: Tally) {
    && |net.buses| == t.four + t.two && TerminalCount(net.buses) == 4 * t.four + 2 * t.two
    && |net.lines| == t.lines && |net.transformers| == t.transformers
  }

  /** A sound network with known counts, whose names are those used up to `m`. */
  ghost predicate Growing(net: Net, m: Mark, t: Tally) {
    Sound(net) && NamesBelow(net, m) && Tallied(net, t)
  }

  lemma NotNamed(net: Net, m: Mark, id: Id)
    requires NamesBelow(net, m) && !m.Covers(id)
    ensures !Named(net, id)
  {
  }

  lemma NamesMore(net: Net, bigger: Net, m: Mark, b: Bus, m': Mark)
    requires NamesBelow(net, m) && m.UpTo(m') && m'.Covers(b.id) && bigger.buses == net.buses + [b]
    ensures NamesBelow(bigger, m')
  {
  }

  /** A four-wire or two-wire bus at the end of a new line. */
  lemma LineGrows(net: Net, m: Mark, t: Tally, b: Bus, l: Line, m': Mark)
    requires Growing(net, m, t) && !m.Covers(b.id) && m.UpTo(m') && m'.Covers(b.id)
    requires l.to == b.id && Local(l) && HasBus(net, l.from, l.wires) && l.wires == b.terminals
             && (|b.terminals| == 4 || |b.terminals| == 2)
    ensures Growing(net.AddBus(b).AddLine(l), m', if |b.terminals| == 4
                    then t.(four := t.four + 1, lines := t.lines + 1)
                    else t.(two := t.two + 1, lines := t.lines + 1))
  {
    NotNamed(net, m, b.id);
    GrowByLine(net, b, l);
    NamesMore(net, net.AddBus(b).AddLine(l), m, b, m');
    TerminalsAdded(net.buses, b);
  }

  lemma TransformerGrows(net: Net, m: Mark, t: Tally, b: Bus, x: Transformer, m': Mark)
    requires Growing(net, m, t) && !m.Covers(b.id) && m.UpTo(m') && m'.Covers(b.id)
    requires x.high.Primary? && x.low == b.id == Secondary(x.high.i, 0) && HasBus(net, x.high, PHASES)
             && b.terminals == FOUR_WIRE
    ensures Growing(net.AddTransformer(x).AddBus(b), m', t.(four := t.four + 1, transformers := t.transformers + 1))
  {
    NotNamed(net, m, b.id);
    GrowByTransformer(net, b, x);
    NamesMore(net, net.AddTransformer(x).AddBus(b), m, b, m');
    TerminalsAdded(net.buses, b);
  }

  lemma TieGrows(net: Net, m: Mark, t: Tally, l: Line)
    requires Growing(net, m, t) && LineOk(net, l)
    ensures Growing(net.AddLine(l), m, t.(lines := t.lines + 1))
  {
    GrowByTie(net, l);
  }

  // ------------------------------------------------------------ load sites

  ghost predicate SiteOk(net: Net, s: Site) {
    match s
    case TwoWireSite(bus, phase) => bus.IsTwoWire() && HasBus(net, bus, TwoWire(phase))
    case FourWireSite(bus) => !bus.IsTwoWire() && HasBus(net, bus, FOUR_WIRE)
  }

  ghost predicate Distinct(sites: seq<Site>) {
    forall i, j | 0 <= i < j < |sites| :: sites[i].bus != sites[j].bus
  }

  ghost predicate SitesOk(net: Net, sites: seq<Site>) {
    forall i | 0 <= i < |sites| :: SiteOk(net, sites[i])
  }

  ghost predicate Holds(sites: seq<Site>, id: Id) {
    exists k :: 0 <= k < |sites| && sites[k].bus == id
  }

  /** Every two-wire bus is a site. */
  ghost predicate Covered(net: Net, two: seq<Site>) {
    forall i | 0 <= i < |net.buses| && net.buses[i].id.IsTwoWire() :: Holds(two, net.buses[i].id)
  }

  ghost predicate Sited(net: Net, two: seq<Site>, four: seq<Site>) {
    && SitesOk(net, two) && SitesOk(net, four) && Distinct(two) && Distinct(four) && Covered(net, two)
    && (forall i | 0 <= i < |two| :: two[i].TwoWireSite?) && (forall i | 0 <= i < |four| :: four[i].FourWireSite?)
  }

  lemma SitesKept(net: Net, bigger: Net, sites: seq<Site>)
    requires SitesOk(net, sites) && Within(net, bigger)
    ensures SitesOk(bigger, sites)
  {
  }

  lemma DistinctMore(net: Net, sites: seq<Site>, s: Site)
    requires SitesOk(net, sites) && Distinct(sites) && !Named(net, s.bus)
    ensures Distinct(sites + [s])
  {
  }

  lemma CoveredMore(net: Net, bigger: Net, b: Bus, two: seq<Site>, more: seq<Site>)
    requires Covered(net, two) && bigger.buses == net.buses + [b] && two <= more
    requires b.id.IsTwoWire() ==> Holds(more, b.id)
    ensures Covered(bigger, more)
  {
  }

  /** A network under construction and its load sites. */
  ghost predicate Stage(net: Net, m: Mark, t: Tally, two: seq<Site>, four: seq<Site>) {
    Growing(net, m, t) && Sited(net, two, four)
  }

  lemma SitedMore(net: Net, bigger: Net, b: Bus, two: seq<Site>, four: seq<Site>)
    requires Sited(net, two, four) && Within(net, bigger) && bigger.buses == net.buses + [b] && !Named(net, b.id)
    requires HasBus(bigger, b.id, b.terminals)
    ensures !b.id.IsTwoWire() ==> Sited(bigger, two, four)
    ensures !b.id.IsTwoWire() && b.terminals == FOUR_WIRE ==> Sited(bigger, two, four + [FourWireSite(b.id)])
    ensures forall phase | b.id.IsTwoWire() && b.terminals == TwoWire(phase) ::
              Sited(bigger, two + [TwoWireSite(b.id, phase)], four)
  {
    SitesKept(net, bigger, two);
    SitesKept(net, bigger, four);
    if !b.id.IsTwoWire() {
      CoveredMore(net, bigger, b, two, two);
      DistinctMore(net, four, FourWireSite(b.id));
    }
    forall phase | b.id.IsTwoWire() && b.terminals == TwoWire(phase)
      ensures Sited(bigger, two + [TwoWireSite(b.id, phase)], four)
    {
      var more := two + [TwoWireSite(b.id, phase)];
      assert more[|two|].bus == b.id;
      CoveredMore(net, bigger, b, two, more);
      DistinctMore(net, two, TwoWireSite(b.id, phase));
    }
  }

  lemma NewBusPresent(net: Net, bigger: Net, b: Bus)
    requires bigger.buses == net.buses + [b]
    ensures HasBus(bigger, b.id, b.terminals)
  {
    assert BusIs(bigger.buses[|net.buses|], b.id, b.terminals);
  }

  /** A two-wire bus on a line, carrying a load. */
  lemma TwoWireStage(net: Net, m: Mark, t: Tally, two: seq<Site>, four: seq<Site>, b: Bus, phase: Terminal, l: Line,
                     m': Mark)
    requires Stage(net, m, t, two, four) && !m.Covers(b.id) && m.UpTo(m') && m'.Covers(b.id) && b.id.IsTwoWire()
    requires b.terminals == l.wires == TwoWire(phase) && l.to == b.id && Local(l) && HasBus(net, l.from, l.wires)
    ensures Stage(net.AddBus(b).AddLine(l), m', t.(two := t.two + 1, lines := t.lines + 1),
                  two + [TwoWireSite(b.id, phase)], four)
  {
    var bigger := net.AddBus(b).AddLine(l);
    LineGrows(net, m, t, b, l, m');
    NotNamed(net, m, b.id);
    NewBusPresent(net, bigger, b);
    SitedMore(net, bigger, b, two, four);
  }

  /** A four-wire bus on a line that may carry a load. */
  lemma FourWireStage(net: Net, m: Mark, t: Tally, two: seq<Site>, four: seq<Site>, b: Bus, l: Line, m': Mark)
    requires Stage(net, m, t, two, four) && !m.Covers(b.id) && m.UpTo(m') && m'.Covers(b.id) && !b.id.IsTwoWire()
    requires b.terminals == l.wires == FOUR_WIRE && l.to == b.id && Local(l) && HasBus(net, l.from, l.wires)
    ensures var bigger := net.AddBus(b).AddLine(l);
            var t' := t.(four := t.four + 1, lines := t.lines + 1);
            Stage(bigger, m', t', two, four) && Stage(bigger, m', t', two, four + [FourWireSite(b.id)])
  {
    var bigger := net.AddBus(b).AddLine(l);
    LineGrows(net, m, t, b, l, m');
    NotNamed(net, m, b.id);
    NewBusPresent(net, bigger, b);
    SitedMore(net, bigger, b, two, four);
  }

  /** A transformer and its secondary bus. */
  lemma TransformerStage(net: Net, m: Mark, t: Tally, two: seq<Site>, four: seq<Site>, b: Bus, x: Transformer, m': Mark)
    requires Stage(net, m, t, two, four) && !m.Covers(b.id) && m.UpTo(m') && m'.Covers(b.id) && !b.id.IsTwoWire()
    requires b.terminals == FOUR_WIRE && x.high.Primary? && x.low == b.id == Secondary(x.high.i, 0)
             && HasBus(net, x.high, PHASES)
    ensures Stage(net.AddTransformer(x).AddBus(b), m', t.(four := t.four + 1, transformers := t.transformers + 1),
                  two, four + [FourWireSite(b.id)])
  {
    var bigger := net.AddTransformer(x).AddBus(b);
    TransformerGrows(net, m, t, b, x, m');
    NotNamed(net, m, b.id);
    NewBusPresent(net, bigger, b);
    SitedMore(net, bigger, b, two, four);
  }

  lemma TieStage(net: Net, m: Mark, t: Tally, two: seq<Site>, four: seq<Site>, l: Line)
    requires Stage(net, m, t, two, four) && LineOk(net, l)
    ensures Stage(net.AddLine(l), m, t.(lines := t.lines + 1), two, four)
  {
    TieGrows(net, m, t, l);
    SitesKept(net, net.AddLine(l), two);
    SitesKept(net, net.AddLine(l), four);
  }

  // ------------------------------------------------------------ the builder

  class Builder {
    var buses: seq<Bus>
    var lines: seq<Line>
    var transformers: seq<Transformer>
    var loads: seq<Load>

    ghost function Net(): Net
      reads this
    {
      FeederNetworks.Net(buses, lines, transformers)
    }

    constructor ()
      ensures Net() == FeederNetworks.Net([], [], []) && loads == []
    {
      buses, lines, transformers, loads := [], [], [], [];
    }

    method AddBus(id: Id, terminals: seq<Terminal>, grounded: bool)
      modifies this`buses
      ensures Net() == old(Net()).AddBus(Bus(id, terminals, grounded))
    {
      buses := buses + [Bus(id, terminals, grounded)];
    }

    method AddLine(from: Id, to: Id, wires: seq<Terminal>, length: real)
      modifies this`lines
      ensures Net() == old(Net()).AddLine(Line(from, to, wires, length))
    {
      lines := lines + [Line(from, to, wires, length)];
    }
  }

  // ------------------------------------------------------------ primary

  ghost predicate HasPrimaries(net: Net, n: nat) {
    HasBus(net, Src, FOUR_WIRE) && forall i: nat | i < n :: HasBus(net, Primary(i), FOUR_WIRE)
  }

  lemma PrimariesKept(net: Net, bigger: Net, n: nat)
    requires HasPrimaries(net, n) && Within(net, bigger)
    ensures HasPrimaries(bigger, n)
  {
  }

  /** The line that feeds primary bus `i`, as the tree has it. */
  ghost function PrimaryLine(t: Tree, i: nat): Line
    requires i < |t.parent| == |t.length|
  {
    Line(if t.parent[i].None? then Src else Primary(t.parent[i].value), Primary(i), FOUR_WIRE, t.length[i])
  }

  ghost predicate FollowsAt(net: Net, t: Tree, i: nat) {
    i < |t.parent| == |t.length| && i < |net.lines| && net.lines[i] == PrimaryLine(t, i)
  }

  /** The first lines of the network are those of the tree. */
  ghost predicate Follows(net: Net, t: Tree) {
    forall i: nat | i < |t.parent| :: FollowsAt(net, t, i)
  }

  lemma FollowsKept(net: Net, bigger: Net, t: Tree)
    requires Follows(net, t) && Within(net, bigger)
    ensures Follows(bigger, t)
  {
    forall i: nat | i < |t.parent|
      ensures FollowsAt(bigger, t, i)
    {
      assert FollowsAt(net, t, i);
    }
  }

  /** Primary bus `i` follows the source bus in place, is grounded at every
      `groundEvery`th, and hangs on a line of a length in range. */
  ghost predicate LaidAt(spec: Spec, net: Net, t: Tree, i: nat)
    requires spec.groundEvery > 0
  {
    && i < |t.length| && InSpan(t.length[i], spec.segment) && i + 1 < |net.buses| && net.buses[i + 1].id == Primary(i)
    && (net.buses[i + 1].grounded <==> (i + 1) % spec.groundEvery == 0)
  }

  /** So is every primary bus, and the source bus is grounded. */
  ghost predicate Laid(spec: Spec, net: Net, t: Tree)
    requires spec.groundEvery > 0
  {
    && |net.buses| > |t.parent| && net.buses[0].id == Src && net.buses[0].grounded
    && forall i: nat | i < |t.parent| :: LaidAt(spec, net, t, i)
  }

  lemma LaidKept(spec: Spec, net: Net, bigger: Net, t: Tree)
    requires spec.groundEvery > 0 && Laid(spec, net, t) && Within(net, bigger)
    ensures Laid(spec, bigger, t)
  {
    forall i: nat | i < |t.parent|
      ensures LaidAt(spec, bigger, t, i)
    {
      assert LaidAt(spec, net, t, i);
    }
  }

  lemma LaidMore(spec: Spec, net: Net, t: Tree, parent: Option<nat>, feeder: nat, k: nat, length: real, b: Bus,
                 bigger: Net)
    requires spec.groundEvery > 0 && Laid(spec, net, t) && |net.buses| == |t.parent| + 1 == |t.length| + 1
    requires (parent.Some? ==> parent.value < |t.depth|) && InSpan(length, spec.segment)
    requires bigger.buses == net.buses + [b] && b.id == Primary(|t.parent|)
             && (b.grounded <==> (|t.parent| + 1) % spec.groundEvery == 0)
    ensures Laid(spec, bigger, Grow(t, parent, feeder, k, length))
  {
    var g := Grow(t, parent, feeder, k, length);
    forall i: nat | i < |g.parent|
      ensures LaidAt(spec, bigger, g, i)
    {
      assert i < |t.parent| ==> LaidAt(spec, net, t, i);
    }
  }

  lemma FollowsMore(net: Net, t: Tree, parent: Option<nat>, feeder: nat, k: nat, length: real, bigger: Net)
    requires Follows(net, t) && |t.parent| == |t.length| == |net.lines| && (parent.Some? ==> parent.value < |t.depth|)
    requires bigger.lines == net.lines + [Line(if parent.None? then Src
                                               else Primary(parent.value), Primary(|t.parent|), FOUR_WIRE, length)]
    ensures Follows(bigger, Grow(t, parent, feeder, k, length))
  {
    var g := Grow(t, parent, feeder, k, length);
    forall i: nat | i < |g.parent|
      ensures FollowsAt(bigger, g, i)
    {
      assert i < |t.parent| ==> FollowsAt(net, t, i);
    }
  }

  /** The source bus and `n` primary buses, each on a line. */
  ghost predicate PrimaryNet(net: Net, n: nat) {
    Stage(net, Mark(n, 0, 0, 0, 0), Tally(1 + n, 0, n, 0), [], []) && HasPrimaries(net, n)
  }

  /** The lines are those of the tree. */
  ghost predicate PrimaryStage(net: Net, t: Tree, groups: seq<seq<nat>>, n: nat) {
    PrimaryNet(net, n) && t.Valid() && |t.parent| == n && Grouped(t, groups) && RootsApart(t) && Follows(net, t)
  }

  lemma SourceAlone(b: Bus)
    requires b.id == Src && b.terminals == FOUR_WIRE
    ensures PrimaryStage(Net([b], [], []), Tree([], [], [], [], [], []), [], 0)
  {
    var net := Net([b], [], []);
    assert BusIs(net.buses[0], Src, FOUR_WIRE);
    TerminalsAdded([], b);
    assert [] + [b] == net.buses;
  }

  lemma PrimaryNetMore(net: Net, n: nat, b: Bus, l: Line)
    requires PrimaryNet(net, n) && b.id == l.to == Primary(n) && b.terminals == l.wires == FOUR_WIRE && Local(l)
             && HasBus(net, l.from, FOUR_WIRE)
    ensures PrimaryNet(net.AddBus(b).AddLine(l), n + 1)
  {
    FourWireStage(net, Mark(n, 0, 0, 0, 0), Tally(1 + n, 0, n, 0), [], [], b, l, Mark(n + 1, 0, 0, 0, 0));
    PrimariesKept(net, net.AddBus(b).AddLine(l), n);
    NewBusPresent(net, net.AddBus(b).AddLine(l), b);
  }

  lemma ParentPresent(net: Net, n: nat, parent: Option<nat>)
    requires PrimaryNet(net, n) && (parent.Some? ==> parent.value < n)
    ensures HasBus(net, if parent.None? then Src else Primary(parent.value), FOUR_WIRE) && |net.lines| == n
  {
  }

  lemma PrimaryAdded(net: Net, t: Tree, groups: seq<seq<nat>>, n: nat, parent: Option<nat>, length: real,
                     grounded: bool)
    requires PrimaryStage(net, t, groups, n) && |groups| > 0
    requires if parent.Some? then parent.value < n && t.feeder[parent.value] == |groups| - 1
             else groups[|groups| - 1] == []
    ensures var f := |groups| - 1;
            var from := if parent.None? then Src else Primary(parent.value);
            var bus, line := Bus(Primary(n), FOUR_WIRE, grounded), Line(from, Primary(n), FOUR_WIRE, length);
            PrimaryStage(net.AddBus(bus).AddLine(line), Grow(t, parent, f, |groups[f]|, length),
                         groups[f := groups[f] + [n]], n + 1)
  {
    var f := |groups| - 1;
    var from := if parent.None? then Src else Primary(parent.value);
    var b, l := Bus(Primary(n), FOUR_WIRE, grounded), Line(from, Primary(n), FOUR_WIRE, length);
    ParentPresent(net, n, parent);
    PrimaryNetMore(net, n, b, l);
    GrowKeepsValid(t, parent, f, |groups[f]|, length);
    GrowKeepsGroups(t, groups, parent, length);
    GrowKeepsRoots(t, groups, parent, length);
    FollowsMore(net, t, parent, f, |groups[f]|, length, net.AddBus(b).AddLine(l));
  }

  /** One primary bus, below an earlier bus of its feeder or the source bus. */
  method AddPrimary(b: Builder, spec: Spec, t0: Tree, feeder: nat, members: seq<nat>) returns (t: Tree)
    requires spec.groundEvery > 0 && PrimaryStage(b.Net(), t0, t0.members + [members], |t0.parent|)
             && feeder == |t0.members|
    requires Laid(spec, b.Net(), t0) && |b.buses| == |t0.parent| + 1
    modifies b
    ensures Laid(spec, b.Net(), t) && |b.buses| == |t.parent| + 1
    ensures b.loads == old(b.loads) && t.members == t0.members && |t.parent| == |t0.parent| + 1
    ensures PrimaryStage(b.Net(), t, t0.members + [members + [|t0.parent|]], |t0.parent| + 1)
  {
    ghost var groups := t0.members + [members];
    var k, index := |members|, |t0.parent|;
    var parent: Option<nat> := None;
    if k > 0 {
      var j := Attach(k);
      assert groups[feeder][j] == members[j];
      parent := Some(members[j]);
    }
    var length := Uniform(spec.segment);
    var grounded := (index + 1) % spec.groundEvery == 0;
    PrimaryAdded(b.Net(), t0, groups, index, parent, length, grounded);
    ghost var net, bus := b.Net(), Bus(Primary(index), FOUR_WIRE, grounded);
    b.AddBus(Primary(index), FOUR_WIRE, grounded);
    b.AddLine(if parent.None? then Src else Primary(parent.value), Primary(index), FOUR_WIRE, length);
    t := Grow(t0, parent, feeder, k, length);
    LaidMore(spec, net, t0, parent, feeder, k, length, bus, b.Net());
    assert groups[feeder := groups[feeder] + [index]] == t0.members + [members + [index]];
  }

  lemma OpenFeeder(net: Net, t: Tree, n: nat)
    requires PrimaryStage(net, t, t.members, n)
    ensures PrimaryStage(net, t, t.members + [[]], n)
  {
    NewGroup(t, t.members);
  }

  lemma CloseFeeder(net: Net, t: Tree, members: seq<nat>, n: nat)
    requires PrimaryStage(net, t, t.members + [members], n)
    ensures PrimaryStage(net, t.(members := t.members + [members]), t.members + [members], n)
  {
    var closed := t.(members := t.members + [members]);
    forall i | 0 <= i < |closed.parent|
      ensures closed.BusAt(i)
    {
      assert t.BusAt(i);
    }
    forall u | 0 <= u < |closed.feeder|
      ensures AtHome(closed, t.members + [members], u)
    {
      assert AtHome(t, t.members + [members], u);
    }
    forall i: nat | i < |closed.parent|
      ensures FollowsAt(net, closed, i)
    {
      assert FollowsAt(net, t, i);
    }
  }

  /** One feeder of `size` buses. */
  method AddFeeder(b: Builder, spec: Spec, t0: Tree, size: nat) returns (t: Tree)
    requires spec.groundEvery > 0 && PrimaryStage(b.Net(), t0, t0.members, |t0.parent|)
    requires Laid(spec, b.Net(), t0) && |b.buses| == |t0.parent| + 1
    modifies b
    ensures Laid(spec, b.Net(), t) && |b.buses| == |t.parent| + 1
    ensures b.loads == old(b.loads)
    ensures |t.members| == |t0.members| + 1 && PrimaryStage(b.Net(), t, t.members, |t0.parent| + size)
  {
    t := t0;
    var members: seq<nat> := [];
    OpenFeeder(b.Net(), t, |t.parent|);
    for k := 0 to size
      invariant b.loads == old(b.loads)
      invariant t.members == t0.members && |t.parent| == |t0.parent| + k
      invariant Laid(spec, b.Net(), t) && |b.buses| == |t.parent| + 1
      invariant PrimaryStage(b.Net(), t, t0.members + [members], |t.parent|)
    {
      var index := |t.parent|;
      t := AddPrimary(b, spec, t, |t0.members|, members);
      members := members + [index];
    }
    CloseFeeder(b.Net(), t, members, |t.parent|);
    ghost var open := t;
    t := t.(members := t.members + [members]);
    forall i: nat | i < |t.parent|
      ensures LaidAt(spec, b.Net(), t, i)
    {
      assert LaidAt(spec, b.Net(), open, i);
    }
  }

  /** The radial four-wire feeders. */
  method GrowPrimary(b: Builder, spec: Spec) returns (t: Tree)
    requires b.Net() == Net([], [], []) && spec.feeders > 0 && spec.groundEvery > 0
    modifies b
    ensures b.loads == old(b.loads)
    ensures PrimaryStage(b.Net(), t, t.members, spec.primaryBuses) && |t.members| == spec.feeders
    ensures Laid(spec, b.Net(), t)
  {
    b.AddBus(Src, FOUR_WIRE, true);
    assert b.buses == [Bus(Src, FOUR_WIRE, true)];
    SourceAlone(Bus(Src, FOUR_WIRE, true));
    var sizes := SplitSizes(spec.primaryBuses, spec.feeders);
    t := Tree([], [], [], [], [], []);
    for f := 0 to |sizes|
      invariant b.loads == old(b.loads)
      invariant Laid(spec, b.Net(), t) && |b.buses| == |t.parent| + 1
      invariant |t.members| == f && |t.parent| == Total(sizes[..f]) && PrimaryStage(b.Net(), t, t.members, |t.parent|)
    {
      TotalPrefix(sizes, f);
      t := AddFeeder(b, spec, t, sizes[f]);
    }
    assert sizes[..|sizes|] == sizes;
  }

  // ------------------------------------------------------------ taps and ties

  lemma FewerWires(net: Net, id: Id, wires: seq<Terminal>, fewer: seq<Terminal>)
    requires HasBus(net, id, wires) && forall w | w in fewer :: w in wires
    ensures HasBus(net, id, fewer)
  {
  }

  ghost predicate TapStage(net: Net, n: nat, taps: nat, two: seq<Site>) {
    Stage(net, Mark(n, taps, 0, 0, 0), Tally(1 + n, taps, n + taps, 0), two, []) && HasPrimaries(net, n)
    && |two| == taps
  }

  /** One single-phase tap off a primary bus. */
  method AddTap(b: Builder, spec: Spec, n: nat, tap: nat, two0: seq<Site>) returns (two: seq<Site>)
    requires TapStage(b.Net(), n, tap, two0) && n > 0
    modifies b
    ensures b.loads == old(b.loads) && TapStage(b.Net(), n, tap + 1, two) && Within(old(b.Net()), b.Net())
  {
    var parent := Below(n);
    var phase := Phase(tap);
    var length := Uniform(spec.tapLength);
    ghost var net, bus, line := b.Net(), Bus(Tap(tap), TwoWire(phase), false),
                                Line(Primary(parent), Tap(tap), TwoWire(phase), length);
    FewerWires(net, Primary(parent), FOUR_WIRE, TwoWire(phase));
    TwoWireStage(net, Mark(n, tap, 0, 0, 0), Tally(1 + n, tap, n + tap, 0), two0, [], bus, phase, line,
                 Mark(n, tap + 1, 0, 0, 0));
    PrimariesKept(net, net.AddBus(bus).AddLine(line), n);
    b.AddBus(Tap(tap), TwoWire(phase), false);
    b.AddLine(Primary(parent), Tap(tap), TwoWire(phase), length);
    two := two0 + [TwoWireSite(Tap(tap), phase)];
  }

  type Tie = (nat, nat)

  function Unordered(x: Tie): Tie {
    if x.0 <= x.1 then x else (x.1, x.0)
  }

  /** A tie closes a way of at least the asked number of lines within one feeder. */
  ghost predicate TieOk(spec: Spec, t: Tree, x: Tie) {
    && t.Valid() && x.0 < |t.parent| && x.1 < |t.parent| && t.feeder[x.0] == t.feeder[x.1]
    && Lines(t, x.0, x.1) >= spec.minTieDistance
  }

  /** No two ties join the same two buses. */
  ghost predicate NewPairs(ties: seq<Tie>) {
    forall i, j | 0 <= i < j < |ties| :: ties[i] != ties[j] && (ties[i].0 != ties[j].1 || ties[i].1 != ties[j].0)
  }

  /** A tie runs parallel to the way it closes, over half of its length to all of it. */
  ghost predicate IsTie(t: Tree, l: Line, x: Tie)
    requires t.Valid() && x.0 < |t.parent| && x.1 < |t.parent|
  {
    && l.from == Primary(x.0) && l.to == Primary(x.1) && l.wires == FOUR_WIRE
    && exists part: real :: 0.5 <= part <= 1.0 && PartOf(l.length, part, Metres(t, x.0, x.1))
  }

  ghost predicate PartOf(x: real, part: real, whole: real) {
    x == part * whole
  }

  ghost predicate TieAt(spec: Spec, t: Tree, net: Net, base: nat, ties: seq<Tie>, i: nat) {
    i < |ties| && base + i < |net.lines| && TieOk(spec, t, ties[i]) && IsTie(t, net.lines[base + i], ties[i])
  }

  /** The lines from `base` on are the ties, over pairwise different pairs. */
  ghost predicate Tied(spec: Spec, t: Tree, net: Net, base: nat, ties: seq<Tie>) {
    NewPairs(ties) && forall i: nat | i < |ties| :: TieAt(spec, t, net, base, ties, i)
  }

  /** Look for a pair of one feeder, far enough apart and not tied yet; the
      program gives up after a million attempts. */
  method FindTie(spec: Spec, t: Tree, tied: set<Tie>) returns (tie: Option<(Tie, real)>)
    requires t.Valid() && Grouped(t, t.members) && |t.parent| > 0
    ensures tie.Some? ==> TieOk(spec, t, tie.value.0) && Unordered(tie.value.0) !in tied
                          && tie.value.1 == Metres(t, tie.value.0.0, tie.value.0.1)
  {
    for attempts := 1 to TIE_ATTEMPTS {
      var u := Below(|t.parent|);
      assert AtHome(t, t.members, u);
      var members := t.members[t.feeder[u]];
      var window := Below(TIE_WINDOW);
      var at := t.position[u] + spec.minTieDistance + window;
      if at < |members| {
        var v := members[at];
        var hops, metres := Distance(t, u, v);
        if hops >= spec.minTieDistance && Unordered((u, v)) !in tied {
          return Some(((u, v), metres));
        }
      }
    }
    tie := None;
  }

  /** Source bus, feeders, taps and `k` further lines. */
  ghost predicate BaseStage(spec: Spec, net: Net, two: seq<Site>, k: nat) {
    var (n, taps) := (spec.primaryBuses, spec.primaryTaps);
    && Stage(net, Mark(n, taps, 0, 0, 0), Tally(1 + n, taps, n + taps + k, 0), two, []) && HasPrimaries(net, n)
    && |two| == taps
  }

  lemma BaseTie(spec: Spec, net: Net, two: seq<Site>, k: nat, l: Line)
    requires BaseStage(spec, net, two, k) && LineOk(net, l)
    ensures BaseStage(spec, net.AddLine(l), two, k + 1)
  {
    var (n, taps) := (spec.primaryBuses, spec.primaryTaps);
    TieStage(net, Mark(n, taps, 0, 0, 0), Tally(1 + n, taps, n + taps + k, 0), two, [], l);
    PrimariesKept(net, net.AddLine(l), n);
  }

  lemma TieKept(spec: Spec, t: Tree, net: Net, bigger: Net, base: nat, ties: seq<Tie>, more: seq<Tie>, i: nat)
    requires TieAt(spec, t, net, base, ties, i) && net.lines <= bigger.lines && ties <= more
    ensures TieAt(spec, t, bigger, base, more, i)
  {
  }

  lemma TiedMore(spec: Spec, t: Tree, net: Net, base: nat, ties: seq<Tie>, x: Tie, l: Line)
    requires Tied(spec, t, net, base, ties) && TieOk(spec, t, x) && IsTie(t, l, x) && |net.lines| == base + |ties|
    requires forall i | 0 <= i < |ties| :: Unordered(ties[i]) != Unordered(x)
    ensures Tied(spec, t, net.AddLine(l), base, ties + [x])
  {
    forall i: nat | i < |ties|
      ensures TieAt(spec, t, net.AddLine(l), base, ties + [x], i)
    {
      TieKept(spec, t, net, net.AddLine(l), base, ties, ties + [x], i);
    }
    assert TieAt(spec, t, net.AddLine(l), base, ties + [x], |ties|);
  }

  /** A line between two primary buses keeps the stage. */
  lemma TieBase(spec: Spec, net: Net, two: seq<Site>, k: nat, u: nat, v: nat, length: real)
    requires BaseStage(spec, net, two, k) && u < spec.primaryBuses && v < spec.primaryBuses
    ensures |net.lines| == spec.primaryBuses + spec.primaryTaps + k
    ensures BaseStage(spec, net.AddLine(Line(Primary(u), Primary(v), FOUR_WIRE, length)), two, k + 1)
  {
    assert HasBus(net, Primary(u), FOUR_WIRE) && HasBus(net, Primary(v), FOUR_WIRE);
    BaseTie(spec, net, two, k, Line(Primary(u), Primary(v), FOUR_WIRE, length));
  }

  /** One more tie, unless no place is found for it. */
  method AddTie(b: Builder, spec: Spec, t: Tree, tied: set<Tie>, ghost two: seq<Site>, ghost ties: seq<Tie>)
    returns (tie: Option<Tie>)
    requires BaseStage(spec, b.Net(), two, |ties|) && t.Valid() && Grouped(t, t.members)
             && |t.parent| == spec.primaryBuses > 0
    requires Tied(spec, t, b.Net(), spec.primaryBuses + spec.primaryTaps, ties)
    requires forall i | 0 <= i < |ties| :: Unordered(ties[i]) in tied
    modifies b
    ensures b.loads == old(b.loads) && Within(old(b.Net()), b.Net())
    ensures tie.Some? ==> BaseStage(spec, b.Net(), two, |ties| + 1)
    ensures tie.Some? ==> Tied(spec, t, b.Net(), spec.primaryBuses + spec.primaryTaps, ties + [tie.value])
  {
    var found := FindTie(spec, t, tied);
    if found.None? {
      return None;
    }
    var (x, metres) := found.value;
    var part := Uniform(Span(0.5, 1.0));
    var length := metres * part;
    assert PartOf(length, part, metres);
    TieBase(spec, b.Net(), two, |ties|, x.0, x.1, length);
    TiedMore(spec, t, b.Net(), spec.primaryBuses + spec.primaryTaps, ties, x,
             Line(Primary(x.0), Primary(x.1), FOUR_WIRE, length));
    b.AddLine(Primary(x.0), Primary(x.1), FOUR_WIRE, length);
    tie := Some(x);
  }

  /** The ties asked for, unless no place is found for one. */
  method AddTies(b: Builder, spec: Spec, t: Tree, ghost two: seq<Site>) returns (ok: bool, ghost ties: seq<Tie>)
    requires BaseStage(spec, b.Net(), two, 0) && t.Valid() && Grouped(t, t.members)
             && |t.parent| == spec.primaryBuses > 0 && Follows(b.Net(), t)
    requires spec.groundEvery > 0 && Laid(spec, b.Net(), t)
    modifies b
    ensures b.loads == old(b.loads) && Follows(b.Net(), t) && Laid(spec, b.Net(), t)
    ensures ok ==> |ties| == spec.primaryTies && BaseStage(spec, b.Net(), two, |ties|)
                   && Tied(spec, t, b.Net(), spec.primaryBuses + spec.primaryTaps, ties)
    ensures spec.primaryTies == 0 ==> ok
  {
    var tied: set<Tie> := {};
    ties := [];
    for k := 0 to spec.primaryTies
      invariant Laid(spec, b.Net(), t)
      invariant b.loads == old(b.loads) && Follows(b.Net(), t) && |ties| == k && BaseStage(spec, b.Net(), two, k)
      invariant Tied(spec, t, b.Net(), spec.primaryBuses + spec.primaryTaps, ties)
      invariant forall i | 0 <= i < |ties| :: Unordered(ties[i]) in tied
    {
      ghost var net := b.Net();
      var tie := AddTie(b, spec, t, tied, two, ties);
      FollowsKept(net, b.Net(), t);
      LaidKept(spec, net, b.Net(), t);
      if tie.None? {
        return false, ties;
      }
      tied := tied + {Unordered(tie.value)};
      ties := ties + [tie.value];
    }
    ok := true;
  }

  // ------------------------------------------------------------ secondary clusters

  lemma StageUp(net: Net, m: Mark, t: Tally, two: seq<Site>, four: seq<Site>, m': Mark)
    requires Stage(net, m, t, two, four) && m.UpTo(m')
    ensures Stage(net, m', t, two, four)
  {
  }

  ghost predicate HasMembers(net: Net, cluster: nat, k: nat) {
    forall j: nat | j < k :: HasBus(net, Secondary(cluster, j), FOUR_WIRE)
  }

  lemma MembersKept(net: Net, bigger: Net, cluster: nat, k: nat)
    requires HasMembers(net, cluster, k) && Within(net, bigger)
    ensures HasMembers(bigger, cluster, k)
  {
  }

  /** Inside cluster `c`: `k` four-wire buses and `d` drops so far, on top of a
      network with tally `t`. */
  ghost predicate ClusterStage(net: Net, n: nat, c: nat, k: nat, d: nat, t: Tally, two: seq<Site>, four: seq<Site>) {
    && k > 0 && HasPrimaries(net, n) && HasMembers(net, c, k)
    && Stage(net, Mark(n, 0, c, k, d), Tally(t.four + k, t.two + d, t.lines + k - 1 + d, t.transformers + 1), two, four)
  }

  /** The transformer of a cluster and the bus it feeds, grounded. */
  method AddRoot(b: Builder, n: nat, c: nat, ghost t: Tally, ghost two: seq<Site>, four0: seq<Site>)
    returns (four: seq<Site>)
    requires Stage(b.Net(), Mark(n, 0, c, 0, 0), t, two, four0) && HasPrimaries(b.Net(), n) && c < n
    modifies b
    ensures b.loads == old(b.loads) && |four| == |four0| + 1
    ensures ClusterStage(b.Net(), n, c, 1, 0, t, two, four) && Within(old(b.Net()), b.Net())
  {
    ghost var net, bus, x := b.Net(), Bus(Secondary(c, 0), FOUR_WIRE, true), Transformer(Primary(c), Secondary(c, 0));
    FewerWires(net, Primary(c), FOUR_WIRE, PHASES);
    TransformerStage(net, Mark(n, 0, c, 0, 0), t, two, four0, bus, x, Mark(n, 0, c, 1, 0));
    ghost var bigger := net.AddTransformer(x).AddBus(bus);
    PrimariesKept(net, bigger, n);
    NewBusPresent(net, bigger, bus);
    b.transformers := b.transformers + [Transformer(Primary(c), Secondary(c, 0))];
    b.AddBus(Secondary(c, 0), FOUR_WIRE, true);
    four := four0 + [FourWireSite(Secondary(c, 0))];
  }

  lemma MemberAdded(net: Net, n: nat, c: nat, k: nat, t: Tally, two: seq<Site>, four: seq<Site>, j: nat, length: real,
                    grounded: bool)
    requires ClusterStage(net, n, c, k, 0, t, two, four) && j < k
    ensures var bus := Bus(Secondary(c, k), FOUR_WIRE, grounded);
            var line := Line(Secondary(c, j), Secondary(c, k), FOUR_WIRE, length);
            ClusterStage(net.AddBus(bus).AddLine(line), n, c, k + 1, 0, t, two, four + [FourWireSite(Secondary(c, k))])
  {
    var bus := Bus(Secondary(c, k), FOUR_WIRE, grounded);
    var line := Line(Secondary(c, j), Secondary(c, k), FOUR_WIRE, length);
    var bigger := net.AddBus(bus).AddLine(line);
    FourWireStage(net, Mark(n, 0, c, k, 0), Tally(t.four + k, t.two, t.lines + k - 1, t.transformers + 1), two, four,
                  bus, line, Mark(n, 0, c, k + 1, 0));
    PrimariesKept(net, bigger, n);
    MembersKept(net, bigger, c, k);
    NewBusPresent(net, bigger, bus);
  }

  lemma DropAdded(net: Net, n: nat, c: nat, k: nat, d: nat, t: Tally, two: seq<Site>, four: seq<Site>, j: nat,
                  phase: Terminal, length: real)
    requires ClusterStage(net, n, c, k, d, t, two, four) && j < k && phase in PHASES
    ensures var bus := Bus(Drop(c, d), TwoWire(phase), false);
            var line := Line(Secondary(c, j), Drop(c, d), TwoWire(phase), length);
            ClusterStage(net.AddBus(bus).AddLine(line), n, c, k, d + 1, t, two + [TwoWireSite(Drop(c, d), phase)], four)
  {
    var bus, line := Bus(Drop(c, d), TwoWire(phase), false), Line(Secondary(c, j), Drop(c, d), TwoWire(phase), length);
    var bigger := net.AddBus(bus).AddLine(line);
    FewerWires(net, Secondary(c, j), FOUR_WIRE, TwoWire(phase));
    TwoWireStage(net, Mark(n, 0, c, k, d), Tally(t.four + k, t.two + d, t.lines + k - 1 + d, t.transformers + 1), two,
                 four, bus, phase, line, Mark(n, 0, c, k, d + 1));
    PrimariesKept(net, bigger, n);
    MembersKept(net, bigger, c, k);
  }

  method AddMember(b: Builder, sec: SecondarySpec, n: nat, c: nat, k: nat, lv: nat, ghost t: Tally,
                   ghost two: seq<Site>, four0: seq<Site>)
    returns (four: seq<Site>)
    requires ClusterStage(b.Net(), n, c, k, 0, t, two, four0) && sec.groundEvery > 0
    modifies b
    ensures b.loads == old(b.loads) && |four| == |four0| + 1
    ensures ClusterStage(b.Net(), n, c, k + 1, 0, t, two, four) && Within(old(b.Net()), b.Net())
  {
    var grounded := (lv + 1) % sec.groundEvery == 0;
    var j := Attach(k);
    var length := Uniform(sec.segment);
    MemberAdded(b.Net(), n, c, k, t, two, four0, j, length, grounded);
    b.AddBus(Secondary(c, k), FOUR_WIRE, grounded);
    b.AddLine(Secondary(c, j), Secondary(c, k), FOUR_WIRE, length);
    four := four0 + [FourWireSite(Secondary(c, k))];
  }

  lemma WithinTrans(x: Net, y: Net, z: Net)
    requires Within(x, y) && Within(y, z)
    ensures Within(x, z)
  {
  }

  /** The buses of a cluster below its root. `lv` counts four-wire buses over all clusters. */
  method AddMembers(b: Builder, sec: SecondarySpec, n: nat, c: nat, size: nat, lv0: nat, ghost t: Tally,
                    ghost two: seq<Site>, four0: seq<Site>)
    returns (four: seq<Site>, lv: nat)
    requires ClusterStage(b.Net(), n, c, 1, 0, t, two, four0) && size > 0 && sec.groundEvery > 0
    modifies b
    ensures b.loads == old(b.loads) && |four| == |four0| + size - 1
    ensures ClusterStage(b.Net(), n, c, size, 0, t, two, four) && Within(old(b.Net()), b.Net())
  {
    four, lv := four0, lv0;
    ghost var start := b.Net();
    for k := 1 to size
      invariant b.loads == old(b.loads) && |four| == |four0| + k - 1
      invariant ClusterStage(b.Net(), n, c, k, 0, t, two, four) && Within(start, b.Net())
    {
      ghost var prior := b.Net();
      four := AddMember(b, sec, n, c, k, lv, t, two, four);
      lv := lv + 1;
      WithinTrans(start, prior, b.Net());
    }
  }

  method AddDrop(b: Builder, sec: SecondarySpec, n: nat, c: nat, size: nat, d: nat, total: nat, ghost t: Tally,
                 two0: seq<Site>, ghost four: seq<Site>)
    returns (two: seq<Site>)
    requires ClusterStage(b.Net(), n, c, size, d, t, two0, four)
    modifies b
    ensures b.loads == old(b.loads) && |two| == |two0| + 1
    ensures ClusterStage(b.Net(), n, c, size, d + 1, t, two, four) && Within(old(b.Net()), b.Net())
  {
    var phase := Phase(total);
    var j := Below(size);
    var length := Uniform(sec.service);
    DropAdded(b.Net(), n, c, size, d, t, two0, four, j, phase, length);
    b.AddBus(Drop(c, d), TwoWire(phase), false);
    b.AddLine(Secondary(c, j), Drop(c, d), TwoWire(phase), length);
    two := two0 + [TwoWireSite(Drop(c, d), phase)];
  }

  method AddDrops(b: Builder, sec: SecondarySpec, n: nat, c: nat, size: nat, drops: nat, total0: nat, ghost t: Tally,
                  two0: seq<Site>, ghost four: seq<Site>)
    returns (two: seq<Site>, total: nat)
    requires ClusterStage(b.Net(), n, c, size, 0, t, two0, four)
    modifies b
    ensures b.loads == old(b.loads) && |two| == |two0| + drops
    ensures ClusterStage(b.Net(), n, c, size, drops, t, two, four) && Within(old(b.Net()), b.Net())
  {
    two, total := two0, total0;
    ghost var start := b.Net();
    for d := 0 to drops
      invariant b.loads == old(b.loads) && |two| == |two0| + d
      invariant ClusterStage(b.Net(), n, c, size, d, t, two, four) && Within(start, b.Net())
    {
      ghost var prior := b.Net();
      two := AddDrop(b, sec, n, c, size, d, total, t, two, four);
      total := total + 1;
      WithinTrans(start, prior, b.Net());
    }
  }

  /** Clusters before `c` are complete. */
  ghost predicate ClustersStage(net: Net, n: nat, c: nat, t: Tally, two: seq<Site>, four: seq<Site>) {
    Stage(net, Mark(n, 0, c, 0, 0), t, two, four) && HasPrimaries(net, n)
  }

  /** One cluster: a transformer, `size` four-wire buses and `drops` service drops. */
  method AddCluster(b: Builder, sec: SecondarySpec, n: nat, c: nat, size: nat, drops: nat, lv0: nat, total0: nat,
                    ghost t: Tally, two0: seq<Site>, four0: seq<Site>)
    returns (two: seq<Site>, four: seq<Site>, lv: nat, total: nat)
    requires ClustersStage(b.Net(), n, c, t, two0, four0) && c < n && size > 0 && sec.groundEvery > 0
    modifies b
    ensures b.loads == old(b.loads) && |two| == |two0| + drops && |four| == |four0| + size
    ensures ClustersStage(b.Net(), n, c + 1, Tally(t.four + size, t.two + drops, t.lines + size - 1 + drops,
                                                   t.transformers + 1), two, four)
    ensures Within(old(b.Net()), b.Net())
  {
    four := AddRoot(b, n, c, t, two0, four0);
    four, lv := AddMembers(b, sec, n, c, size, lv0 + 1, t, two0, four);
    two, total := AddDrops(b, sec, n, c, size, drops, total0, t, two0, four);
    StageUp(b.Net(), Mark(n, 0, c, size, drops), Tally(t.four + size, t.two + drops, t.lines + size - 1 + drops,
                                                       t.transformers + 1),
            two, four, Mark(n, 0, c + 1, 0, 0));
  }

  /** One cluster per primary bus. None is empty, so each costs one line less than
      it has buses. */
  method AddClusters(b: Builder, sec: SecondarySpec, n: nat, ghost t0: Tally) returns (two: seq<Site>, four: seq<Site>)
    requires ClustersStage(b.Net(), n, 0, t0, [], []) && n > 0 && t0.transformers == 0 && sec.fourWire >= n
             && sec.groundEvery > 0
    modifies b
    ensures b.loads == old(b.loads) && |two| == sec.twoWire && |four| == sec.fourWire
    ensures ClustersStage(b.Net(), n, n, Tally(t0.four + sec.fourWire, t0.two + sec.twoWire,
                                               t0.lines + sec.fourWire + sec.twoWire - n, n), two, four)
    ensures Within(old(b.Net()), b.Net())
  {
    var sizes := SplitSizes(sec.fourWire, n);
    var drops := SplitSizes(sec.twoWire, n);
    two, four := [], [];
    var lv, total := 0, 0;
    ghost var t, start := t0, b.Net();
    for c := 0 to n
      invariant b.loads == old(b.loads) && Within(start, b.Net())
      invariant |two| == Total(drops[..c]) && |four| == Total(sizes[..c])
      invariant t.four == t0.four + |four| && t.two == t0.two + |two| && t.lines + c == t0.lines + |four| + |two|
                && t.transformers == c
      invariant ClustersStage(b.Net(), n, c, t, two, four)
    {
      TotalPrefix(sizes, c);
      TotalPrefix(drops, c);
      ghost var prior := b.Net();
      two, four, lv, total := AddCluster(b, sec, n, c, sizes[c], drops[c], lv, total, t, two, four);
      WithinTrans(start, prior, b.Net());
      t := Tally(t.four + sizes[c], t.two + drops[c], t.lines + sizes[c] - 1 + drops[c], t.transformers + 1);
    }
    assert sizes[..n] == sizes && drops[..n] == drops;
  }

  // ------------------------------------------------------------ loads

  lemma {:induction false} DistinctOnce(sites: seq<Site>, s: Site)
    requires Distinct(sites)
    ensures multiset(sites)[s] <= 1
  {
    if sites != [] {
      var n := |sites| - 1;
      DistinctOnce(sites[..n], s);
      assert sites == sites[..n] + [sites[n]];
      if sites[n] == s {
        assert s !in sites[..n];
      }
    }
  }

  lemma TwiceAmong(sites: seq<Site>, i: nat, j: nat)
    requires i < j < |sites| && sites[i] == sites[j]
    ensures multiset(sites)[sites[i]] >= 2
  {
    assert sites == sites[..i] + [sites[i]] + sites[i + 1..j] + [sites[j]] + sites[j + 1..];
  }

  /** Reordering keeps sites good and pairwise different. */
  lemma Reordered(net: Net, sites: seq<Site>, r: seq<Site>)
    requires SitesOk(net, sites) && Distinct(sites) && (forall i | 0 <= i < |sites| :: sites[i].FourWireSite?)
    requires multiset(r) == multiset(sites)
    ensures SitesOk(net, r) && Distinct(r) && (forall i | 0 <= i < |r| :: r[i].FourWireSite?)
  {
    forall i | 0 <= i < |r|
      ensures r[i] in sites && SiteOk(net, r[i]) && r[i].FourWireSite?
    {
      assert r[i] in multiset(r);
    }
    forall i, j | 0 <= i < j < |r|
      ensures r[i].bus != r[j].bus
    {
      if r[i].bus == r[j].bus {
        TwiceAmong(r, i, j);
        DistinctOnce(sites, r[i]);
        assert false;
      }
    }
  }

  /** Four-wire sites first, then two-wire ones: still pairwise different. */
  lemma SitesTogether(net: Net, four: seq<Site>, two: seq<Site>)
    requires SitesOk(net, four) && SitesOk(net, two) && Distinct(four) && Distinct(two)
    requires (forall i | 0 <= i < |two| :: two[i].TwoWireSite?) && (forall i | 0 <= i < |four| :: four[i].FourWireSite?)
    ensures SitesOk(net, four + two) && Distinct(four + two)
  {
  }

  function Kinds(loads: seq<Load>): seq<Kind> {
    seq(|loads|, i requires 0 <= i < |loads| => loads[i].kind)
  }

  /** Load `i` sits at site `i`, on conductors its bus has; the first `three` are three-phase. */
  ghost predicate LoadOk(net: Net, l: Load, s: Site, threePhase: bool) {
    l.bus == s.bus && HasBus(net, l.bus, l.wires) && |l.p| == (if threePhase then 3 else 1)
  }

  ghost predicate Loaded(net: Net, loads: seq<Load>, sites: seq<Site>, three: nat) {
    |loads| <= |sites| && forall i | 0 <= i < |loads| :: LoadOk(net, loads[i], sites[i], i < three)
  }

  /** `p` watts are the scaled kilowatts of a range. */
  ghost predicate Scaled(spec: Spec, s: Span, p: real) {
    exists kw: real :: InSpan(kw, s) && PartOf(p, 1000.0 * spec.loadScale, kw)
  }

  /** Every load draws power of its kind's range on every branch: three-phase loads on
      the three phases, with or without the neutral, others on a phase and the neutral,
      which is that of a two-wire site and else the next of the three in turn. */
  ghost predicate Draws(spec: Spec, l: Load, s: Site, threePhase: bool, rank: nat) {
    && (threePhase ==> |l.p| == 3 && (l.wires == FOUR_WIRE || l.wires == PHASES)
                       && forall j | 0 <= j < 3 :: Scaled(spec, spec.threeKw, l.p[j]))
    && (!threePhase ==> |l.p| == 1 && Scaled(spec, spec.singleKw, l.p[0])
                        && match s
                           case TwoWireSite(_, phase) => l.wires == TwoWire(phase)
                           case FourWireSite(_) => l.wires == [[A, B, C][rank % 3], N])
  }

  ghost predicate AllDraw(spec: Spec, loads: seq<Load>, sites: seq<Site>) {
    |loads| <= |sites| && forall i: nat | i < |loads| ::
      Draws(spec, loads[i], sites[i], i < spec.threePhase, Turns(sites, spec.threePhase, i))
  }

  /** Four-wire sites from `three` on, before `n`: those whose phase was drawn in turn. */
  ghost function Turns(sites: seq<Site>, three: nat, n: nat): nat
    requires n <= |sites|
  {
    if n == 0 then 0
    else Turns(sites, three, n - 1) + if n - 1 >= three && sites[n - 1].FourWireSite? then 1 else 0
  }

  /** One load at one site. */
  method MakeLoad(spec: Spec, site: Site, threePhase: bool, rotation0: nat, kind: Kind, ghost net: Net)
    returns (l: Load, rotation: nat)
    requires SiteOk(net, site) && (threePhase ==> site.FourWireSite?)
    ensures LoadOk(net, l, site, threePhase) && l.kind == kind && Draws(spec, l, site, threePhase, rotation0)
    ensures rotation == rotation0 + if !threePhase && site.FourWireSite? then 1 else 0
  {
    rotation := rotation0;
    if threePhase {
      var p0 := Uniform(spec.threeKw);
      var p1 := Uniform(spec.threeKw);
      var p2 := Uniform(spec.threeKw);
      var scale := 1000.0 * spec.loadScale;
      var wye: bool := *;
      FewerWires(net, site.bus, FOUR_WIRE, PHASES);
      assert PartOf(scale * p0, scale, p0) && PartOf(scale * p1, scale, p1) && PartOf(scale * p2, scale, p2);
      l := Load(site.bus, if wye then FOUR_WIRE else PHASES, [scale * p0, scale * p1, scale * p2], kind);
    } else {
      var phase;
      match site {
        case TwoWireSite(_, p) => phase := p;
        case FourWireSite(_) =>
          phase := Phase(rotation);
          assert phase in PHASES;
          rotation := rotation + 1;
          FewerWires(net, site.bus, FOUR_WIRE, TwoWire(phase));
      }
      var p := Uniform(spec.singleKw);
      assert PartOf(1000.0 * spec.loadScale * p, 1000.0 * spec.loadScale, p);
      l := Load(site.bus, TwoWire(phase), [1000.0 * spec.loadScale * p], kind);
    }
  }

  lemma {:induction false} BranchCount(net: Net, loads: seq<Load>, sites: seq<Site>, three: nat)
    requires Loaded(net, loads, sites, three)
    ensures Branches(loads) == |loads| + 2 * (if |loads| < three then |loads| else three)
  {
    if loads != [] {
      var n := |loads| - 1;
      BranchCount(net, loads[..n], sites, three);
      assert LoadOk(net, loads[n], sites[n], n < three);
    }
  }

  lemma OneMoreDraws(spec: Spec, loads: seq<Load>, sites: seq<Site>, l: Load)
    requires AllDraw(spec, loads, sites) && |loads| < |sites|
    requires var i := |loads|; Draws(spec, l, sites[i], i < spec.threePhase, Turns(sites, spec.threePhase, i))
    ensures AllDraw(spec, loads + [l], sites)
  {
    var more := loads + [l];
    forall i: nat | i < |more|
      ensures Draws(spec, more[i], sites[i], i < spec.threePhase, Turns(sites, spec.threePhase, i))
    {
      assert more[i] == if i < |loads| then loads[i] else l;
    }
  }

  lemma OneMoreLoaded(net: Net, loads: seq<Load>, sites: seq<Site>, three: nat, l: Load)
    requires Loaded(net, loads, sites, three) && |loads| < |sites|
    requires LoadOk(net, l, sites[|loads|], |loads| < three)
    ensures Loaded(net, loads + [l], sites, three) && Kinds(loads + [l]) == Kinds(loads) + [l.kind]
  {
  }

  /** The first sites have their loads, with the kinds in order. */
  ghost predicate Loading(spec: Spec, net: Net, loads: seq<Load>, sites: seq<Site>, kinds: seq<Kind>, rotation: nat) {
    && |loads| <= |sites| == |kinds| && Loaded(net, loads, sites, spec.threePhase) && AllDraw(spec, loads, sites)
    && Kinds(loads) == kinds[..|loads|] && rotation == Turns(sites, spec.threePhase, |loads|)
  }

  lemma LoadingMore(spec: Spec, net: Net, loads: seq<Load>, sites: seq<Site>, kinds: seq<Kind>, rotation: nat, l: Load,
                    rotation': nat)
    requires Loading(spec, net, loads, sites, kinds, rotation) && |loads| < |sites|
    requires var i := |loads|;
             && LoadOk(net, l, sites[i], i < spec.threePhase) && l.kind == kinds[i]
             && Draws(spec, l, sites[i], i < spec.threePhase, rotation)
             && rotation' == rotation + if i >= spec.threePhase && sites[i].FourWireSite? then 1 else 0
    ensures Loading(spec, net, loads + [l], sites, kinds, rotation')
  {
    var n := |loads|;
    OneMoreDraws(spec, loads, sites, l);
    OneMoreLoaded(net, loads, sites, spec.threePhase, l);
    assert kinds[..n + 1] == kinds[..n] + [kinds[n]];
    assert |loads + [l]| == n + 1;
  }

  /** A load at every site, with the kinds in order. */
  method AddLoads(b: Builder, spec: Spec, sites: seq<Site>, kinds: seq<Kind>)
    requires b.loads == [] && |sites| == |kinds| && spec.threePhase <= |sites| && SitesOk(b.Net(), sites)
    requires forall i | 0 <= i < spec.threePhase :: sites[i].FourWireSite?
    modifies b`loads
    ensures |b.loads| == |sites| && Loaded(b.Net(), b.loads, sites, spec.threePhase) && Kinds(b.loads) == kinds
    ensures AllDraw(spec, b.loads, sites)
  {
    var rotation := 0;
    ghost var net := b.Net();
    for i := 0 to |sites|
      invariant |b.loads| == i && b.Net() == net && Loading(spec, net, b.loads, sites, kinds, rotation)
    {
      var l, next := MakeLoad(spec, sites[i], i < spec.threePhase, rotation, kinds[i], net);
      LoadingMore(spec, net, b.loads, sites, kinds, rotation, l, next);
      b.loads, rotation := b.loads + [l], next;
    }
  }

  // ------------------------------------------------------------ the whole

  /** The specifications no assertion of the program turns down. */
  ghost predicate Accepts(spec: Spec) {
    && spec.feeders > 0 && spec.primaryBuses >= spec.feeders && spec.groundEvery > 0
    && SecondaryAccepted(spec)
    && spec.singlePhase >= TwoWireBuses(spec)
    && spec.threePhase + spec.singlePhase - TwoWireBuses(spec) <= LoadBuses(spec)
  }

  ghost function TwoWireBuses(spec: Spec): nat {
    spec.primaryTaps + if spec.secondary.Some? then spec.secondary.value.twoWire else 0
  }

  /** Four-wire buses that may carry a load. */
  ghost function LoadBuses(spec: Spec): nat {
    if spec.secondary.Some? then spec.secondary.value.fourWire else spec.primaryBuses
  }

  /** Every load is on conductors of its bus, no bus has two, every two-wire bus
      has one, and the voltage models meet their quotas. */
  ghost predicate LoadsOk(net: Net, loads: seq<Load>) {
    && (forall i | 0 <= i < |loads| :: HasBus(net, loads[i].bus, loads[i].wires))
    && (forall i, j | 0 <= i < j < |loads| :: loads[i].bus != loads[j].bus)
    && (forall i | 0 <= i < |net.buses| && net.buses[i].id.IsTwoWire() ::
          exists k :: 0 <= k < |loads| && loads[k].bus == net.buses[i].id)
    && (forall k :: multiset(Kinds(loads))[k] == Quota(k, |loads|))
  }

  lemma LoadsAreOk(net: Net, loads: seq<Load>, four: seq<Site>, two: seq<Site>, three: nat)
    requires Distinct(four + two) && Covered(net, two) && |loads| == |four + two|
             && Loaded(net, loads, four + two, three)
    requires forall k :: multiset(Kinds(loads))[k] == Quota(k, |loads|)
    ensures LoadsOk(net, loads)
  {
    var sites := four + two;
    forall i, j | 0 <= i < j < |loads|
      ensures loads[i].bus != loads[j].bus
    {
      assert LoadOk(net, loads[i], sites[i], i < three) && LoadOk(net, loads[j], sites[j], j < three);
    }
    forall i | 0 <= i < |net.buses| && net.buses[i].id.IsTwoWire()
      ensures exists k :: 0 <= k < |loads| && loads[k].bus == net.buses[i].id
    {
      assert Holds(two, net.buses[i].id);
      var k :| 0 <= k < |two| && two[k].bus == net.buses[i].id;
      var at := |four| + k;
      assert LoadOk(net, loads[at], sites[at], at < three);
    }
    forall i | 0 <= i < |loads|
      ensures HasBus(net, loads[i].bus, loads[i].wires)
    {
      assert LoadOk(net, loads[i], sites[i], i < three);
    }
  }

  lemma TiedKept(spec: Spec, t: Tree, net: Net, bigger: Net, base: nat, ties: seq<Tie>)
    requires Tied(spec, t, net, base, ties) && Within(net, bigger)
    ensures Tied(spec, t, bigger, base, ties)
  {
    forall i: nat | i < |ties|
      ensures TieAt(spec, t, bigger, base, ties, i)
    {
      TieKept(spec, t, net, bigger, base, ties, ties, i);
    }
  }

  ghost function FinalTally(spec: Spec): Tally {
    match spec.secondary
    case None => Tally(1 + spec.primaryBuses, spec.primaryTaps,
                       spec.primaryBuses + spec.primaryTaps + spec.primaryTies, 0)
    case Some(sec) => Tally(1 + spec.primaryBuses + sec.fourWire, spec.primaryTaps + sec.twoWire,
                            spec.primaryTaps + spec.primaryTies + sec.fourWire + sec.twoWire, spec.primaryBuses)
  }

  /** All buses, lines and transformers are in place. */
  ghost predicate Complete(spec: Spec, net: Net, two: seq<Site>, four: seq<Site>) {
    && Sound(net) && Sited(net, two, four) && Tallied(net, FinalTally(spec))
    && |two| == TwoWireBuses(spec) && |four| == LoadBuses(spec)
  }

  /** Source bus, feeders and taps. */
  method LayPrimary(b: Builder, spec: Spec) returns (t: Tree, two: seq<Site>)
    requires b.Net() == Net([], [], []) && spec.feeders > 0 && spec.primaryBuses > 0 && spec.groundEvery > 0
    modifies b
    ensures b.loads == old(b.loads) && t.Valid() && Grouped(t, t.members) && RootsApart(t) && Follows(b.Net(), t)
    ensures Laid(spec, b.Net(), t)
    ensures BaseStage(spec, b.Net(), two, 0) && |t.parent| == spec.primaryBuses
  {
    t := GrowPrimary(b, spec);
    two := [];
    for tap := 0 to spec.primaryTaps
      invariant b.loads == old(b.loads) && TapStage(b.Net(), spec.primaryBuses, tap, two) && Follows(b.Net(), t)
      invariant Laid(spec, b.Net(), t)
    {
      ghost var net := b.Net();
      two := AddTap(b, spec, spec.primaryBuses, tap, two);
      FollowsKept(net, b.Net(), t);
      LaidKept(spec, net, b.Net(), t);
    }
  }

  lemma CompleteWithClusters(spec: Spec, net: Net, two: seq<Site>, four: seq<Site>)
    requires spec.secondary.Some? && spec.primaryTaps == 0
    requires |two| == spec.secondary.value.twoWire && |four| == spec.secondary.value.fourWire
    requires ClustersStage(net, spec.primaryBuses, spec.primaryBuses, FinalTally(spec), two, four)
    ensures Complete(spec, net, two, four)
  {
  }

  lemma CompleteWithout(spec: Spec, net: Net, two: seq<Site>, four: seq<Site>)
    requires spec.secondary.None? && BaseStage(spec, net, two, spec.primaryTies)
    requires |four| == spec.primaryBuses && (forall i | 0 <= i < |four| :: four[i] == FourWireSite(Primary(i)))
    ensures Complete(spec, net, two, four)
  {
  }

  lemma BeforeClusters(spec: Spec, net: Net, two: seq<Site>, k: nat)
    requires spec.primaryTaps == 0 && BaseStage(spec, net, two, k)
    ensures two == [] && ClustersStage(net, spec.primaryBuses, 0,
                                       Tally(1 + spec.primaryBuses, 0, spec.primaryBuses + k, 0), [], [])
  {
  }

  /** The assertions on a specification's secondaries. */
  ghost predicate SecondaryAccepted(spec: Spec) {
    spec.secondary.Some? ==> spec.primaryTaps == 0 && spec.secondary.value.fourWire >= spec.primaryBuses
                             && spec.secondary.value.groundEvery > 0
  }

  /** The clusters, or the primary buses themselves, as load sites. */
  method LayLoadBuses(b: Builder, spec: Spec, two0: seq<Site>) returns (ok: bool, two: seq<Site>, four: seq<Site>)
    requires BaseStage(spec, b.Net(), two0, spec.primaryTies) && spec.primaryBuses > 0
    modifies b
    ensures b.loads == old(b.loads) && ok == SecondaryAccepted(spec) && Within(old(b.Net()), b.Net())
    ensures ok ==> Complete(spec, b.Net(), two, four)
  {
    two, four, ok := two0, [], true;
    match spec.secondary {
      case Some(sec) =>
        ok := spec.primaryTaps == 0 && sec.fourWire >= spec.primaryBuses && sec.groundEvery > 0;
        if ok {
          BeforeClusters(spec, b.Net(), two0, spec.primaryTies);
          two, four := AddClusters(b, sec, spec.primaryBuses,
                                   Tally(1 + spec.primaryBuses, 0, spec.primaryBuses + spec.primaryTies, 0));
          CompleteWithClusters(spec, b.Net(), two, four);
        }
      case None =>
        four := seq(spec.primaryBuses, i requires 0 <= i < spec.primaryBuses => FourWireSite(Primary(i)));
        CompleteWithout(spec, b.Net(), two, four);
    }
  }

  /** The network is the tree's, and its ties are good. */
  ghost predicate Wired(spec: Spec, net: Net, t: Tree, ties: seq<Tie>) {
    && spec.groundEvery > 0 && Laid(spec, net, t) && Follows(net, t) && |ties| == spec.primaryTies
    && Tied(spec, t, net, spec.primaryBuses + spec.primaryTaps, ties)
  }

  lemma WiredKept(spec: Spec, net: Net, bigger: Net, t: Tree, ties: seq<Tie>)
    requires Wired(spec, net, t, ties) && Within(net, bigger)
    ensures Wired(spec, bigger, t, ties)
  {
    TiedKept(spec, t, net, bigger, spec.primaryBuses + spec.primaryTaps, ties);
    FollowsKept(net, bigger, t);
    LaidKept(spec, net, bigger, t);
  }

  /** Primary, taps and ties. */
  method LayTied(b: Builder, spec: Spec) returns (ok: bool, two: seq<Site>, ghost t: Tree, ghost ties: seq<Tie>)
    requires b.Net() == Net([], [], []) && spec.feeders > 0 && spec.primaryBuses > 0 && spec.groundEvery > 0
    modifies b
    ensures b.loads == old(b.loads) && t.Valid() && RootsApart(t) && |t.parent| == spec.primaryBuses
    ensures ok ==> BaseStage(spec, b.Net(), two, spec.primaryTies) && Wired(spec, b.Net(), t, ties)
    ensures spec.primaryTies == 0 ==> ok
  {
    var tree;
    tree, two := LayPrimary(b, spec);
    t := tree;
    ok, ties := AddTies(b, spec, tree, two);
  }

  /** Everything but the loads. */
  method LayNetwork(b: Builder, spec: Spec) returns (ok: bool, two: seq<Site>, four: seq<Site>, ghost t: Tree,
                                                     ghost ties: seq<Tie>)
    requires b.Net() == Net([], [], []) && spec.feeders > 0 && spec.primaryBuses >= spec.feeders && spec.groundEvery > 0
    modifies b
    ensures b.loads == old(b.loads) && t.Valid() && RootsApart(t) && |t.parent| == spec.primaryBuses
    ensures ok ==> Complete(spec, b.Net(), two, four) && SecondaryAccepted(spec) && Wired(spec, b.Net(), t, ties)
    ensures SecondaryAccepted(spec) && spec.primaryTies == 0 ==> ok
  {
    four := [];
    ok, two, t, ties := LayTied(b, spec);
    if ok {
      ghost var net := b.Net();
      ok, two, four := LayLoadBuses(b, spec, two);
      WiredKept(spec, net, b.Net(), t, ties);
    }
  }

  /** Generate a network. It has exactly the predicted shape, every element refers
      to buses that exist, and every tie spans a long enough way. */
  method GenerateSpec(spec: Spec) returns (r: Option<(Net, seq<Load>)>, ghost t: Tree, ghost ties: seq<Tie>)
    ensures r.Some? ==> Counted(r.value.0, r.value.1) == Predicted(spec)
    ensures r.Some? ==> Sound(r.value.0) && LoadsOk(r.value.0, r.value.1)
    ensures r.Some? ==> t.Valid() && RootsApart(t) && |t.parent| == spec.primaryBuses && Wired(spec, r.value.0, t, ties)
    ensures r.Some? ==> exists sites :: AllDraw(spec, r.value.1, sites)
    ensures r.Some? ==> Accepts(spec)
    ensures Accepts(spec) && spec.primaryTies == 0 ==> r.Some?
  {
    r, ties, t := None, [], Tree([], [], [], [], [], []);
    if spec.feeders == 0 || spec.primaryBuses < spec.feeders || spec.groundEvery == 0 {
      return;
    }
    var b := new Builder();
    var ok, two, four;
    ok, two, four, t, ties := LayNetwork(b, spec);
    if !ok || spec.singlePhase < |two| {
      return;
    }
    var fourSingle := spec.singlePhase - |two|;
    if spec.threePhase + fourSingle > |four| {
      return;
    }
    ghost var net := b.Net();
    ghost var sites := PlaceLoads(b, spec, two, four);
    r := Some((FeederNetworks.Net(b.buses, b.lines, b.transformers), b.loads));
    assert r.value.0 == net;
  }

  /** Loads at the shuffled four-wire sites, then at every two-wire site. */
  method PlaceLoads(b: Builder, spec: Spec, two: seq<Site>, four: seq<Site>) returns (ghost sites: seq<Site>)
    requires b.loads == [] && Sited(b.Net(), two, four) && spec.singlePhase >= |two|
    requires spec.threePhase + spec.singlePhase - |two| <= |four|
    modifies b`loads
    ensures |b.loads| == spec.threePhase + spec.singlePhase
    ensures Branches(b.loads) == 3 * spec.threePhase + spec.singlePhase && LoadsOk(b.Net(), b.loads)
    ensures AllDraw(spec, b.loads, sites)
  {
    var drawn := Shuffle(four);
    Reordered(b.Net(), four, drawn);
    var taken := drawn[..spec.threePhase + spec.singlePhase - |two|];
    var kinds := ModelKinds(spec.threePhase + spec.singlePhase);
    SitesTogether(b.Net(), taken, two);
    AddLoads(b, spec, taken + two, kinds);
    sites := taken + two;
    BranchCount(b.Net(), b.loads, taken + two, spec.threePhase);
    LoadsAreOk(b.Net(), b.loads, taken, two, spec.threePhase);
  }

  // ------------------------------------------------------------ ties in the network built

  /** The node of a bus name: the source bus comes after the primary buses. */
  ghost function NodeOf(id: Id, n: nat): nat {
    if id.Primary? then id.i else n
  }

  ghost function LineArc(l: Line, n: nat): Arc {
    Arc(NodeOf(l.from, n), NodeOf(l.to, n), l.length)
  }

  /** The first `n` lines of a network, those of its radial primary, as a graph. */
  ghost function Radial(net: Net, n: nat): Graph
    requires n <= |net.lines|
  {
    Graph(n + 1, seq(n, i requires 0 <= i < n => LineArc(net.lines[i], n)))
  }

  lemma RadialArc(net: Net, t: Tree, u: nat, v: nat, w: real)
    requires t.Valid() && Follows(net, t) && |t.parent| <= |net.lines| && Radial(net, |t.parent|).HasArc(u, v, w)
    ensures t.Network().HasArc(u, v, w)
  {
    var g, n := Radial(net, |t.parent|), |t.parent|;
    var i: nat :| i < n && (g.arcs[i] == Arc(u, v, w) || g.arcs[i] == Arc(v, u, w));
    assert FollowsAt(net, t, i) && t.BusAt(i);
    assert g.arcs[i] == Arc(t.Up(i), i, t.length[i]);
    assert t.Network().arcs[i] == Arc(i, t.Up(i), t.length[i]);
  }

  lemma {:induction false} RadialPath(net: Net, t: Tree, p: Path)
    requires t.Valid() && Follows(net, t) && |t.parent| <= |net.lines| && IsPath(Radial(net, |t.parent|), p)
    ensures IsPath(t.Network(), p)
  {
    if p.Hop? {
      RadialPath(net, t, p.prefix);
      RadialArc(net, t, p.prefix.v, p.v, p.w);
    }
  }

  /** In the network built, every walk along its radial primary between the ends
      of a tie takes at least the lines asked for. */
  lemma TiesAreLong(spec: Spec, net: Net, t: Tree, ties: seq<Tie>, i: nat, p: Path)
    requires t.Valid() && Wired(spec, net, t, ties) && |t.parent| <= |net.lines| && i < |ties|
    requires IsPath(Radial(net, |t.parent|), p) && p.Start() == ties[i].0 && p.v == ties[i].1
    ensures Hops(p) >= spec.minTieDistance
  {
    assert TieAt(spec, t, net, spec.primaryBuses + spec.primaryTaps, ties, i);
    RadialPath(net, t, p);
    OnlyWay(t, p);
  }
}
