/**
 Multiconductor feeder networks as the benchmark generator builds them, and what
 every step of the build keeps: distinct buses, conductors present at both ends
 of every line, and supply of every bus from the source.
 */
module FeederNetworks {

  datatype Terminal = A | B | C | N

  const PHASES := [A, B, C]
  const FOUR_WIRE := [A, B, C, N]

  function TwoWire(phase: Terminal): seq<Terminal> { [phase, N] }

  /** Bus names: `src`, `p3`, `t3`, `s3_1`, `d3_1`. */
  datatype Id = Src | Primary(i: nat) | Tap(i: nat) | Secondary(cluster: nat, k: nat) | Drop(cluster: nat, k: nat) {
    predicate IsTwoWire() { Tap? || Drop? }
  }

  datatype Bus = Bus(id: Id, terminals: seq<Terminal>, grounded: bool)
  datatype Line = Line(from: Id, to: Id, wires: seq<Terminal>, length: real)
  datatype Transformer = Transformer(high: Id, low: Id)

  datatype Net = Net(buses: seq<Bus>, lines: seq<Line>, transformers: seq<Transformer>) {
    function AddBus(b: Bus): Net { this.(buses := buses + [b]) }
    function AddLine(l: Line): Net { this.(lines := lines + [l]) }
    function AddTransformer(x: Transformer): Net { this.(transformers := transformers + [x]) }
  }

  ghost predicate BusIs(b: Bus, id: Id, wires: seq<Terminal>) {
    b.id == id && forall w | w in wires :: w in b.terminals
  }

  /** The network has a bus of this name with these conductors. */
  ghost predicate HasBus(net: Net, id: Id, wires: seq<Terminal>) {
    exists i :: 0 <= i < |net.buses| && BusIs(net.buses[i], id, wires)
  }

  ghost predicate Named(net: Net, id: Id) {
    exists i :: 0 <= i < |net.buses| && net.buses[i].id == id
  }

  ghost predicate DistinctBuses(net: Net) {
    forall i, j | 0 <= i < j < |net.buses| :: net.buses[i].id != net.buses[j].id
  }

  /** A line stays at its voltage level and in its cluster: primary buses hang from
      the source or each other, taps from primary buses, and secondary buses and
      service drops from earlier secondary buses of their own cluster. */
  ghost predicate Local(l: Line) {
    match l.to
    case Src => false
    case Primary(_) => l.from.Src? || l.from.Primary?
    case Tap(_) => l.from.Primary?
    case Secondary(c, k) => l.from.Secondary? && l.from.cluster == c && l.from.k < k
    case Drop(c, _) => l.from.Secondary? && l.from.cluster == c
  }

  ghost predicate LineOk(net: Net, l: Line) {
    Local(l) && HasBus(net, l.from, l.wires) && HasBus(net, l.to, l.wires)
  }

  /** A transformer feeds the first bus of a cluster from the primary bus of its number. */
  ghost predicate TransformerOk(net: Net, x: Transformer) {
    && x.high.Primary? && x.low == Secondary(x.high.i, 0)
    && HasBus(net, x.high, PHASES) && HasBus(net, x.low, FOUR_WIRE)
  }

  ghost predicate LinesOk(net: Net) {
    forall k | 0 <= k < |net.lines| :: LineOk(net, net.lines[k])
  }

  ghost predicate TransformersOk(net: Net) {
    forall k | 0 <= k < |net.transformers| :: TransformerOk(net, net.transformers[k])
  }

  ghost predicate Linked(net: Net, x: Id, y: Id) {
    || (exists k :: 0 <= k < |net.lines| && net.lines[k].from == x && net.lines[k].to == y)
    || (exists k :: 0 <= k < |net.transformers| && net.transformers[k] == Transformer(x, y))
  }

  /** Bus `i` hangs from a bus created before it. */
  ghost predicate FedAt(net: Net, i: nat)
    requires i < |net.buses|
  {
    exists j :: 0 <= j < i && Linked(net, net.buses[j].id, net.buses[i].id)
  }

  ghost predicate Rooted(net: Net) {
    |net.buses| > 0 && net.buses[0].id == Src && forall i | 0 < i < |net.buses| :: FedAt(net, i)
  }

  ghost predicate Sound(net: Net) {
    DistinctBuses(net) && LinesOk(net) && TransformersOk(net) && Rooted(net)
  }

  /** `bigger` has all of `net`, in place. */
  ghost predicate Within(net: Net, bigger: Net) {
    net.buses <= bigger.buses && net.lines <= bigger.lines && net.transformers <= bigger.transformers
  }

  // ------------------------------------------------------------ growth keeps soundness

  lemma HasBusKept(net: Net, bigger: Net, id: Id, wires: seq<Terminal>)
    requires HasBus(net, id, wires) && Within(net, bigger)
    ensures HasBus(bigger, id, wires)
  {
    var i :| 0 <= i < |net.buses| && BusIs(net.buses[i], id, wires);
    assert bigger.buses[i] == net.buses[i];
  }

  lemma LineKept(net: Net, bigger: Net, l: Line)
    requires LineOk(net, l) && Within(net, bigger)
    ensures LineOk(bigger, l)
  {
    HasBusKept(net, bigger, l.from, l.wires);
    HasBusKept(net, bigger, l.to, l.wires);
  }

  lemma LinkedKept(net: Net, bigger: Net, x: Id, y: Id)
    requires Linked(net, x, y) && Within(net, bigger)
    ensures Linked(bigger, x, y)
  {
    if k :| 0 <= k < |net.lines| && net.lines[k].from == x && net.lines[k].to == y {
      assert bigger.lines[k] == net.lines[k];
    } else {
      var k :| 0 <= k < |net.transformers| && net.transformers[k] == Transformer(x, y);
      assert bigger.transformers[k] == net.transformers[k];
    }
  }

  lemma FedKept(net: Net, bigger: Net, i: nat)
    requires i < |net.buses| && FedAt(net, i) && Within(net, bigger)
    ensures FedAt(bigger, i)
  {
    var j :| 0 <= j < i && Linked(net, net.buses[j].id, net.buses[i].id);
    LinkedKept(net, bigger, net.buses[j].id, net.buses[i].id);
    assert bigger.buses[j] == net.buses[j] && bigger.buses[i] == net.buses[i];
  }

  lemma LinesKept(net: Net, bigger: Net)
    requires LinesOk(net) && Within(net, bigger)
    requires forall k | |net.lines| <= k < |bigger.lines| :: LineOk(bigger, bigger.lines[k])
    ensures LinesOk(bigger)
  {
    forall k | 0 <= k < |net.lines|
      ensures LineOk(bigger, bigger.lines[k])
    {
      LineKept(net, bigger, net.lines[k]);
    }
  }

  lemma TransformersKept(net: Net, bigger: Net)
    requires TransformersOk(net) && Within(net, bigger)
    requires forall k | |net.transformers| <= k < |bigger.transformers| :: TransformerOk(bigger, bigger.transformers[k])
    ensures TransformersOk(bigger)
  {
    forall k | 0 <= k < |net.transformers|
      ensures TransformerOk(bigger, bigger.transformers[k])
    {
      assert bigger.transformers[k] == net.transformers[k];
      HasBusKept(net, bigger, net.transformers[k].high, PHASES);
      HasBusKept(net, bigger, net.transformers[k].low, FOUR_WIRE);
    }
  }

  lemma RootedKept(net: Net, bigger: Net)
    requires Rooted(net) && Within(net, bigger)
    requires forall i | |net.buses| <= i < |bigger.buses| :: FedAt(bigger, i)
    ensures Rooted(bigger)
  {
    forall i | 0 < i < |net.buses|
      ensures FedAt(bigger, i)
    {
      FedKept(net, bigger, i);
    }
    assert bigger.buses[0] == net.buses[0];
  }

  lemma NewBus(net: Net, b: Bus, bigger: Net, wires: seq<Terminal>)
    requires DistinctBuses(net) && !Named(net, b.id) && bigger.buses == net.buses + [b]
    requires forall w | w in wires :: w in b.terminals
    ensures DistinctBuses(bigger) && HasBus(bigger, b.id, wires)
  {
    assert bigger.buses[|net.buses|] == b;
    assert BusIs(bigger.buses[|net.buses|], b.id, wires);
    forall i, j | 0 <= i < j < |bigger.buses|
      ensures bigger.buses[i].id != bigger.buses[j].id
    {
      assert bigger.buses[i] == net.buses[i];
    }
  }

  lemma FedFrom(net: Net, from: Id, wires: seq<Terminal>, b: Bus, bigger: Net)
    requires HasBus(net, from, wires) && bigger.buses == net.buses + [b] && Linked(bigger, from, b.id)
    ensures FedAt(bigger, |net.buses|)
  {
    var j :| 0 <= j < |net.buses| && BusIs(net.buses[j], from, wires);
    assert bigger.buses[j] == net.buses[j];
  }

  /** A new bus on a line from an existing one. */
  lemma GrowByLine(net: Net, b: Bus, l: Line)
    requires Sound(net) && !Named(net, b.id) && l.to == b.id && Local(l)
    requires HasBus(net, l.from, l.wires) && forall w | w in l.wires :: w in b.terminals
    ensures Sound(net.AddBus(b).AddLine(l))
  {
    var bigger := net.AddBus(b).AddLine(l);
    assert Within(net, bigger);
    NewBus(net, b, bigger, l.wires);
    HasBusKept(net, bigger, l.from, l.wires);
    assert bigger.lines[|net.lines|] == l;
    LinesKept(net, bigger);
    TransformersKept(net, bigger);
    FedFrom(net, l.from, l.wires, b, bigger);
    RootedKept(net, bigger);
  }

  /** A new bus behind a transformer. */
  lemma GrowByTransformer(net: Net, b: Bus, x: Transformer)
    requires Sound(net) && !Named(net, b.id) && x.high.Primary? && x.low == b.id == Secondary(x.high.i, 0)
    requires HasBus(net, x.high, PHASES) && b.terminals == FOUR_WIRE
    ensures Sound(net.AddTransformer(x).AddBus(b))
  {
    var bigger := net.AddTransformer(x).AddBus(b);
    assert Within(net, bigger);
    NewBus(net, b, bigger, FOUR_WIRE);
    HasBusKept(net, bigger, x.high, PHASES);
    LinesKept(net, bigger);
    assert bigger.transformers[|net.transformers|] == x;
    TransformersKept(net, bigger);
    FedFrom(net, x.high, PHASES, b, bigger);
    RootedKept(net, bigger);
  }

  /** A line between existing buses. */
  lemma GrowByTie(net: Net, l: Line)
    requires Sound(net) && LineOk(net, l)
    ensures Sound(net.AddLine(l))
  {
    var bigger := net.AddLine(l);
    assert Within(net, bigger);
    LineKept(net, bigger, l);
    LinesKept(net, bigger);
    TransformersKept(net, bigger);
    RootedKept(net, bigger);
  }

  // ------------------------------------------------------------ supply

  /** A chain of lines and transformers leads from the source bus to bus `i`. */
  ghost predicate Supplied(net: Net, i: nat)
    requires i < |net.buses|
    decreases i
  {
    i == 0 || exists j :: 0 <= j < i && Linked(net, net.buses[j].id, net.buses[i].id) && Supplied(net, j)
  }

  /** Every bus of a sound network is supplied from the source bus. */
  lemma {:induction false} AllSupplied(net: Net, i: nat)
    requires Sound(net) && i < |net.buses|
    ensures Supplied(net, i) && net.buses[0].id == Src
    decreases i
  {
    if i > 0 {
      assert FedAt(net, i);
      var j :| 0 <= j < i && Linked(net, net.buses[j].id, net.buses[i].id);
      AllSupplied(net, j);
    }
  }

  // ------------------------------------------------------------ counting

  ghost function TerminalCount(buses: seq<Bus>): nat {
    if buses == [] then 0 else TerminalCount(buses[..|buses| - 1]) + |buses[|buses| - 1].terminals|
  }

  lemma TerminalsAdded(buses: seq<Bus>, b: Bus)
    ensures TerminalCount(buses + [b]) == TerminalCount(buses) + |b.terminals|
  {
    assert (buses + [b])[..|buses|] == buses;
  }
}
