/**
 Electrical islands of a network, the sub-network built for each, and the
 mapping of per-island results back to rows of the full network.
 */
module Islands {
  import opened Options
  import opened Forests
  import opened UnionFind

  datatype BusKind = Pq | Pv | Ref | Isolated

  datatype Bus = Bus(id: nat, kind: BusKind)
  datatype Branch = Branch(from: nat, to: nat, inService: bool)
  datatype Gen = Gen(bus: nat, inService: bool, pmax: real, pmin: real, pg: real)

  datatype Load = Load(bus: nat, p: real)
  datatype Hvdc = Hvdc(from: nat, to: nat, pf: real, pt: real, inService: bool)

  datatype Network = Network(buses: seq<Bus>, branches: seq<Branch>, gens: seq<Gen>, loads: seq<Load>,
                             hvdc: seq<Hvdc>) {
    /** Bus ids are distinct. */
    ghost predicate Valid() {
      forall i, j | 0 <= i < j < |buses| :: buses[i].id != buses[j].id
    }

    ghost predicate HasId(id: nat) {
      exists i :: 0 <= i < |buses| && buses[i].id == id
    }
  }

  /** Row of every bus id. */
  method IndexBuses(net: Network) returns (index: map<nat, nat>)
    requires net.Valid()
    ensures forall id :: id in index <==> net.HasId(id)
    ensures forall id | id in index :: index[id] < |net.buses| && net.buses[index[id]].id == id
    ensures forall i | 0 <= i < |net.buses| :: net.buses[i].id in index && index[net.buses[i].id] == i
  {
    index := map[];
    for i := 0 to |net.buses|
      invariant forall id | id in index :: index[id] < i && net.buses[index[id]].id == id
      invariant forall k | 0 <= k < i :: net.buses[k].id in index && index[net.buses[k].id] == k
    {
      index := index[net.buses[i].id := i];
    }
    forall id | net.HasId(id)
      ensures id in index
    {
      var i :| 0 <= i < |net.buses| && net.buses[i].id == id;
    }
  }

  /** The link a branch makes between bus rows: none if out of service or dangling. */
  ghost function LinkOf(net: Network, index: map<nat, nat>, k: nat): set<Edge>
    requires k < |net.branches|
  {
    var b := net.branches[k];
    if b.inService && b.from in index && b.to in index then {Link(index[b.from], index[b.to])} else {}
  }

  /** Links of the first `k` branches. */
  ghost function Links(net: Network, index: map<nat, nat>, k: nat): set<Edge>
    requires k <= |net.branches|
  {
    if k == 0 then {} else Links(net, index, k - 1) + LinkOf(net, index, k - 1)
  }

  lemma {:induction false} LinkIn(net: Network, index: map<nat, nat>, j: nat, k: nat)
    requires j < k <= |net.branches|
    ensures LinkOf(net, index, j) <= Links(net, index, k)
  {
    if j < k - 1 {
      LinkIn(net, index, j, k - 1);
    }
  }

  /** Join the ends of every in-service branch. */
  method JoinBranches(net: Network, index: map<nat, nat>) returns (uf: Sets)
    requires forall id | id in index :: index[id] < |net.buses|
    ensures fresh(uf) && fresh(uf.parent) && uf.Valid() && |uf.rep| == |net.buses|
    ensures Tracks(uf.rep, Links(net, index, |net.branches|))
  {
    uf := new Sets(|net.buses|);
    NoEdges(|net.buses|);
    for k := 0 to |net.branches|
      invariant uf.Valid() && fresh(uf) && fresh(uf.parent) && |uf.rep| == |net.buses|
      invariant Tracks(uf.rep, Links(net, index, k))
    {
      var b := net.branches[k];
      if b.inService && b.from in index && b.to in index {
        ghost var was := uf.rep;
        var _ := uf.Union(index[b.from], index[b.to]);
        MergeTracks(was, uf.rep, Links(net, index, k), index[b.from], index[b.to]);
      } else {
        assert Links(net, index, k + 1) == Links(net, index, k);
      }
    }
  }

  // ------------------------------------------------------------ grouping

  type Groups = map<nat, seq<nat>>

  /** The first `n` rows are grouped by root, each row once, in order. */
  ghost predicate Grouped(rep: Roots, groups: Groups, n: nat) {
    && n <= |rep|
    && (forall i: nat | i < n :: InGroup(rep, groups, i))
    && (forall r | r in groups :: GroupOk(rep, groups[r], r, n))
  }

  ghost predicate InGroup(rep: Roots, groups: Groups, i: nat) {
    i < |rep| && rep[i] in groups && i in groups[rep[i]]
  }

  ghost predicate GroupOk(rep: Roots, group: seq<nat>, r: nat, n: nat) {
    group != [] && Ascends(group) && forall i | i in group :: i < n && i < |rep| && rep[i] == r
  }

  ghost predicate Ascends(s: seq<nat>) {
    forall i, j | 0 <= i < j < |s| :: s[i] < s[j]
  }

  lemma GroupGrows(rep: Roots, group: seq<nat>, r: nat, n: nat)
    requires n < |rep| && rep[n] == r && (group == [] || GroupOk(rep, group, r, n))
    ensures GroupOk(rep, group + [n], r, n + 1)
  {
    assert forall i | 0 <= i < |group| :: group[i] in group;
  }

  lemma GroupOne(rep: Roots, groups: Groups, n: nat)
    requires Grouped(rep, groups, n) && n < |rep|
    ensures Grouped(rep, groups[rep[n] := (if rep[n] in groups then groups[rep[n]] else []) + [n]], n + 1)
  {
    var prior := if rep[n] in groups then groups[rep[n]] else [];
    var next := groups[rep[n] := prior + [n]];
    GroupGrows(rep, prior, rep[n], n);
    forall i: nat | i < n + 1
      ensures InGroup(rep, next, i)
    {
      assert i < n ==> InGroup(rep, groups, i);
    }
    forall r | r in next
      ensures GroupOk(rep, next[r], r, n + 1)
    {
      assert r != rep[n] ==> GroupOk(rep, groups[r], r, n);
    }
  }

  /** `out` lists the groups of `keys`, in the same order. */
  ghost predicate Listed(groups: Groups, keys: seq<nat>, out: seq<seq<nat>>) {
    && |keys| == |out|
    && (forall k | 0 <= k < |keys| :: keys[k] in groups && out[k] == groups[keys[k]])
    && (forall j, k | 0 <= j < k < |keys| :: keys[j] != keys[k])
  }

  /** Larger islands first, then by their first bus. */
  predicate Precedes(a: seq<nat>, b: seq<nat>) {
    |a| > |b| || (|a| == |b| && (a == [] || b == [] || a[0] <= b[0]))
  }

  ghost predicate Sorted(out: seq<seq<nat>>) {
    forall i, j | 0 <= i < j < |out| ::
      |out[i]| > |out[j]| || (|out[i]| == |out[j]| && (out[i] == [] || out[j] == [] || out[i][0] <= out[j][0]))
  }

  /** Insert a group behind those that precede it. */
  method Insert(groups: Groups, ghost keys: seq<nat>, out: seq<seq<nat>>, r: nat)
    returns (out': seq<seq<nat>>, ghost keys': seq<nat>)
    requires Listed(groups, keys, out) && Sorted(out) && r in groups && r !in keys
    requires forall k | k in groups :: groups[k] != []
    ensures Listed(groups, keys', out') && Sorted(out')
    ensures forall k :: k in keys' <==> k in keys || k == r
  {
    var p, g := 0, groups[r];
    while p < |out| && Precedes(out[p], g)
      invariant p <= |out| && (forall i | 0 <= i < p :: Precedes(out[i], g))
    {
      p := p + 1;
    }
    out' := out[..p] + [g] + out[p..];
    keys' := keys[..p] + [r] + keys[p..];
    InsertedListed(groups, keys, out, r, p);
    InsertedSorted(groups, keys, out, g, p);
  }

  lemma InsertedListed(groups: Groups, keys: seq<nat>, out: seq<seq<nat>>, r: nat, p: nat)
    requires Listed(groups, keys, out) && r in groups && r !in keys && p <= |out|
    ensures Listed(groups, keys[..p] + [r] + keys[p..], out[..p] + [groups[r]] + out[p..])
    ensures forall k :: k in keys[..p] + [r] + keys[p..] <==> k in keys || k == r
  {
  }

  lemma InsertedSorted(groups: Groups, keys: seq<nat>, out: seq<seq<nat>>, g: seq<nat>, p: nat)
    requires Listed(groups, keys, out) && Sorted(out) && (forall k | k in groups :: groups[k] != []) && g != []
             && p <= |out|
    requires (forall i | 0 <= i < p :: Precedes(out[i], g)) && (p < |out| ==> !Precedes(out[p], g))
    ensures Sorted(out[..p] + [g] + out[p..])
  {
  }

  ghost predicate HasPart(parts: seq<seq<nat>>, i: nat) {
    exists k :: 0 <= k < |parts| && i in parts[k]
  }

  /** Every row lies in a part, and two rows share a part exactly when they are
      connected: the parts are the connected components. */
  ghost predicate Components(n: nat, edges: set<Edge>, parts: seq<seq<nat>>) {
    && (forall i: nat | i < n :: HasPart(parts, i))
    && (forall k | 0 <= k < |parts| :: parts[k] != [] && Ascends(parts[k]) && forall i | i in parts[k] :: i < n)
    && (forall j, k, x, y | 0 <= j < |parts| && 0 <= k < |parts| && x in parts[j] && y in parts[k] ::
          Connected(edges, x, y) <==> j == k)
  }

  lemma ListedIsComponents(rep: Roots, edges: set<Edge>, groups: Groups, keys: seq<nat>, out: seq<seq<nat>>)
    requires Tracks(rep, edges) && Grouped(rep, groups, |rep|) && Listed(groups, keys, out)
             && (forall r | r in groups :: r in keys)
    ensures Components(|rep|, edges, out)
  {
    forall i: nat | i < |rep|
      ensures HasPart(out, i)
    {
      assert InGroup(rep, groups, i);
      var k :| 0 <= k < |keys| && keys[k] == rep[i];
      assert i in out[k];
    }
    assert forall k | 0 <= k < |keys| :: GroupOk(rep, groups[keys[k]], keys[k], |rep|);
    forall j, k, x, y | 0 <= j < |out| && 0 <= k < |out| && x in out[j] && y in out[k]
      ensures Connected(edges, x, y) <==> j == k
    {
      assert rep[x] == keys[j] && rep[y] == keys[k];
    }
  }

  /** The electrical islands: the connected components of the in-service
      branches, largest first. */
  method FindIslands(net: Network) returns (parts: seq<seq<nat>>, ghost index: map<nat, nat>)
    requires net.Valid()
    ensures forall i | 0 <= i < |net.buses| :: net.buses[i].id in index && index[net.buses[i].id] == i
    ensures forall id | id in index :: index[id] < |net.buses| && net.buses[index[id]].id == id
    ensures Components(|net.buses|, Links(net, index, |net.branches|), parts) && Sorted(parts)
  {
    var rows := IndexBuses(net);
    index := rows;
    var uf := JoinBranches(net, rows);
    var groups: Groups := map[];
    for i := 0 to |net.buses|
      invariant uf.Valid() && |uf.rep| == |net.buses| && Tracks(uf.rep, Links(net, index, |net.branches|))
                && fresh(uf) && fresh(uf.parent)
      invariant Grouped(uf.rep, groups, i)
    {
      var r := uf.Find(i);
      GroupOne(uf.rep, groups, i);
      groups := groups[r := (if r in groups then groups[r] else []) + [i]];
    }
    parts := SortGroups(uf.rep, Links(net, index, |net.branches|), groups);
  }

  /** List the groups, largest first. */
  method SortGroups(ghost rep: Roots, ghost edges: set<Edge>, groups: Groups) returns (parts: seq<seq<nat>>)
    requires Tracks(rep, edges) && Grouped(rep, groups, |rep|)
    ensures Components(|rep|, edges, parts) && Sorted(parts)
  {
    parts := [];
    ghost var keys: seq<nat> := [];
    var left := groups.Keys;
    assert forall r | r in groups :: GroupOk(rep, groups[r], r, |rep|);
    while left != {}
      invariant left <= groups.Keys && Listed(groups, keys, parts) && Sorted(parts)
      invariant forall r :: r in keys <==> r in groups && r !in left
      decreases left
    {
      var r :| r in left;
      parts, keys := Insert(groups, keys, parts, r);
      left := left - {r};
    }
    ListedIsComponents(rep, edges, groups, keys, parts);
  }

  // ------------------------------------------------------------ one island

  datatype Island = Island(buses: seq<Bus>, branchRows: seq<nat>, genRows: seq<nat>, busRows: seq<nat>)

  ghost function IdsOf(net: Network, members: seq<nat>): set<nat>
    requires forall i | i in members :: i < |net.buses|
  {
    set i | i in members :: net.buses[i].id
  }

  /** The generator rows of an island: in service, on one of its buses. */
  method GenRows(net: Network, ids: set<nat>) returns (rows: seq<nat>)
    ensures Ascends(rows)
    ensures forall k: nat :: k in rows <==> k < |net.gens| && net.gens[k].inService && net.gens[k].bus in ids
  {
    rows := [];
    for k := 0 to |net.gens|
      invariant Ascends(rows)
      invariant forall j: nat :: j in rows <==> j < k && net.gens[j].inService && net.gens[j].bus in ids
    {
      if net.gens[k].inService && net.gens[k].bus in ids {
        assert forall i | 0 <= i < |rows| :: rows[i] in rows;
        rows := rows + [k];
      }
    }
  }

  /** The branch rows of an island: both ends on its buses, in service or not. */
  method BranchRows(net: Network, ids: set<nat>) returns (rows: seq<nat>)
    ensures Ascends(rows)
    ensures forall k: nat ::
              k in rows <==> k < |net.branches| && net.branches[k].from in ids && net.branches[k].to in ids
  {
    rows := [];
    for k := 0 to |net.branches|
      invariant Ascends(rows)
      invariant forall j: nat :: j in rows <==> j < k && net.branches[j].from in ids && net.branches[j].to in ids
    {
      if net.branches[k].from in ids && net.branches[k].to in ids {
        assert forall i | 0 <= i < |rows| :: rows[i] in rows;
        rows := rows + [k];
      }
    }
  }

  ghost predicate IsRef(buses: seq<Bus>, i: nat) {
    i < |buses| && buses[i].kind == Ref
  }

  /** Exactly one reference bus. */
  ghost predicate OneRef(buses: seq<Bus>) {
    exists i: nat :: IsRef(buses, i) && forall j: nat :: IsRef(buses, j) ==> j == i
  }

  method CountRefs(buses: seq<Bus>) returns (count: nat)
    ensures count == 1 <==> OneRef(buses)
  {
    count := 0;
    ghost var at := 0;
    for i := 0 to |buses|
      invariant count == 0 <==> forall j: nat | j < i :: !IsRef(buses, j)
      invariant count == 1 ==> at < i && IsRef(buses, at) && forall j: nat | j < i && IsRef(buses, j) :: j == at
      invariant count > 1 ==> exists j: nat, k: nat :: j < k < i && IsRef(buses, j) && IsRef(buses, k)
    {
      if buses[i].kind == Ref {
        assert IsRef(buses, i);
        if count == 0 {
          at := i;
        }
        count := count + 1;
      }
    }
  }

  /** `id` is the bus of the largest generator among the rows, the last of equals. */
  ghost predicate LargestAt(net: Network, rows: seq<nat>, id: nat)
    requires forall k | 0 <= k < |rows| :: rows[k] < |net.gens|
  {
    exists k :: 0 <= k < |rows| && net.gens[rows[k]].bus == id && LargestOf(net, rows, k, |rows|)
  }

  ghost predicate LargestOf(net: Network, rows: seq<nat>, k: int, n: int)
    requires 0 <= k < |rows| && n <= |rows| && forall j | 0 <= j < |rows| :: rows[j] < |net.gens|
  {
    && (forall j | 0 <= j < n :: net.gens[rows[j]].pmax <= net.gens[rows[k]].pmax)
    && (forall j | k < j < n :: net.gens[rows[j]].pmax < net.gens[rows[k]].pmax)
  }

  /** The bus of the island's largest generator, the last one on ties. */
  method LargestGenBus(net: Network, rows: seq<nat>) returns (id: nat)
    requires rows != [] && (forall k | 0 <= k < |rows| :: rows[k] < |net.gens|)
    ensures LargestAt(net, rows, id) && exists k :: 0 <= k < |rows| && net.gens[rows[k]].bus == id
  {
    var best := 0;
    for k := 0 to |rows|
      invariant best < |rows| && (k == 0 ==> best == 0) && (k > 0 ==> best < k) && LargestOf(net, rows, best, k)
    {
      if net.gens[rows[k]].pmax >= net.gens[rows[best]].pmax {
        best := k;
      }
    }
    id := net.gens[rows[best]].bus;
  }

  function Rekind(b: Bus, best: nat): Bus {
    if b.id == best then b.(kind := Ref) else if b.kind == Ref then b.(kind := Pv) else b
  }

  function Rekinded(buses: seq<Bus>, best: nat): seq<Bus> {
    seq(|buses|, i requires 0 <= i < |buses| => Rekind(buses[i], best))
  }

  ghost predicate DistinctIds(buses: seq<Bus>) {
    forall i, j | 0 <= i < j < |buses| :: buses[i].id != buses[j].id
  }

  lemma RekindOneRef(buses: seq<Bus>, best: nat, at: nat)
    requires at < |buses| && buses[at].id == best && DistinctIds(buses)
    ensures OneRef(Rekinded(buses, best))
  {
    var out := Rekinded(buses, best);
    assert IsRef(out, at);
    forall j: nat | IsRef(out, j)
      ensures j == at
    {
      assert buses[j].id == best;
    }
  }

  ghost predicate HasBus(buses: seq<Bus>, id: nat) {
    exists i :: 0 <= i < |buses| && buses[i].id == id
  }

  /** A single reference bus stays; else the bus of the largest generator becomes it
      and every other one a voltage bus. */
  ghost predicate Referenced(net: Network, genRows: seq<nat>, was: seq<Bus>, buses: seq<Bus>)
    requires forall k | 0 <= k < |genRows| :: genRows[k] < |net.gens|
  {
    if OneRef(was) then buses == was
    else exists best: nat :: LargestAt(net, genRows, best) && RefOnlyAt(was, buses, best)
  }

  /** The bus `best` is made the reference, others that were become voltage buses, and
      nothing else changes. */
  ghost predicate RefOnlyAt(was: seq<Bus>, buses: seq<Bus>, best: nat) {
    && |buses| == |was|
    && forall i | 0 <= i < |was| ::
         && buses[i].id == was[i].id && (was[i].id == best ==> buses[i].kind == Ref)
         && (was[i].id != best ==> buses[i].kind == if was[i].kind == Ref then Pv else was[i].kind)
  }

  /** The buses of an island with exactly one reference. */
  method WithOneRef(net: Network, genRows: seq<nat>, was: seq<Bus>) returns (buses: seq<Bus>)
    requires genRows != [] && DistinctIds(was)
    requires forall k | 0 <= k < |genRows| :: genRows[k] < |net.gens| && HasBus(was, net.gens[genRows[k]].bus)
    ensures OneRef(buses) && Referenced(net, genRows, was, buses) && |buses| == |was|
  {
    buses := was;
    var refs := CountRefs(buses);
    if refs != 1 {
      var best := LargestGenBus(net, genRows);
      ghost var at: nat :| at < |was| && was[at].id == best;
      RekindOneRef(was, best, at);
      buses := Rekinded(was, best);
      assert RefOnlyAt(was, buses, best);
    }
  }

  function Members(net: Network, members: seq<nat>): seq<Bus>
    requires forall i | i in members :: i < |net.buses|
  {
    seq(|members|, i requires 0 <= i < |members| => assert members[i] in members; net.buses[members[i]])
  }

  lemma MembersDistinct(net: Network, members: seq<nat>)
    requires net.Valid() && Ascends(members) && (forall i | i in members :: i < |net.buses|)
    ensures DistinctIds(Members(net, members))
  {
    assert forall i | 0 <= i < |members| :: members[i] in members;
  }

  lemma GenBusesListed(net: Network, members: seq<nat>, genRows: seq<nat>)
    requires forall i | i in members :: i < |net.buses|
    requires forall k: nat :: k in genRows <==> k < |net.gens| && net.gens[k].inService
                                                && net.gens[k].bus in IdsOf(net, members)
    ensures forall k | 0 <= k < |genRows| :: genRows[k] < |net.gens|
                                             && HasBus(Members(net, members), net.gens[genRows[k]].bus)
  {
    forall k | 0 <= k < |genRows|
      ensures genRows[k] < |net.gens| && HasBus(Members(net, members), net.gens[genRows[k]].bus)
    {
      assert genRows[k] in genRows;
      var x :| x in members && net.buses[x].id == net.gens[genRows[k]].bus;
      var i :| 0 <= i < |members| && members[i] == x;
      assert Members(net, members)[i].id == net.gens[genRows[k]].bus;
    }
  }

  /** One island as a network of its own: exactly one reference bus, and the rows
      of its branches and generators in the full network. None without generation. */
  method IslandNetwork(net: Network, members: seq<nat>) returns (island: Option<Island>)
    requires net.Valid() && Ascends(members) && (forall i | i in members :: i < |net.buses|)
    ensures island.None? <==> forall k | 0 <= k < |net.gens| ::
                                !(net.gens[k].inService && net.gens[k].bus in IdsOf(net, members))
    ensures island.Some? ==> OneRef(island.value.buses) && SubNetwork(net, members, island.value)
  {
    var ids := set i | i in members :: net.buses[i].id;
    assert ids == IdsOf(net, members);
    var genRows := GenRows(net, ids);
    GenBusesListed(net, members, genRows);
    if genRows == [] {
      return None;
    }
    assert genRows[0] in genRows;
    MembersDistinct(net, members);
    var buses := WithOneRef(net, genRows, Members(net, members));
    var branchRows := BranchRows(net, ids);
    island := Some(Island(buses, branchRows, genRows, members));
  }

  /** Same buses up to the reference; exactly the island's rows. */
  ghost predicate SubNetwork(net: Network, members: seq<nat>, island: Island)
    requires forall i | i in members :: i < |net.buses|
  {
    && island.busRows == members && (forall k | 0 <= k < |island.genRows| :: island.genRows[k] < |net.gens|)
    && Referenced(net, island.genRows, Members(net, members), island.buses)
    && Ascends(island.genRows) && Ascends(island.branchRows)
    && (forall k: nat :: k in island.genRows <==> k < |net.gens| && net.gens[k].inService
                                                  && net.gens[k].bus in IdsOf(net, members))
    && (forall k: nat :: k in island.branchRows <==> k < |net.branches| && net.branches[k].from in IdsOf(net, members)
                                                     && net.branches[k].to in IdsOf(net, members))
  }

  /** Bus `id` belongs to one island only. */
  lemma IdInOnePart(net: Network, index: map<nat, nat>, parts: seq<seq<nat>>, id: nat) returns (p: nat)
    requires net.Valid() && net.HasId(id) && Components(|net.buses|, Links(net, index, |net.branches|), parts)
    ensures p < |parts| && id in IdsOf(net, parts[p])
    ensures forall q | 0 <= q < |parts| && id in IdsOf(net, parts[q]) :: q == p
  {
    var i: nat :| i < |net.buses| && net.buses[i].id == id;
    assert HasPart(parts, i);
    p :| 0 <= p < |parts| && i in parts[p];
    forall q | 0 <= q < |parts| && id in IdsOf(net, parts[q])
      ensures q == p
    {
      var j :| j in parts[q] && net.buses[j].id == id;
      assert j == i;
      Reflexive(Links(net, index, |net.branches|), i);
    }
  }

  /** Every in-service branch between known buses lies wholly in one island. */
  lemma BranchInOnePart(net: Network, index: map<nat, nat>, parts: seq<seq<nat>>, k: nat) returns (p: nat)
    requires net.Valid() && Components(|net.buses|, Links(net, index, |net.branches|), parts)
    requires forall i | 0 <= i < |net.buses| :: net.buses[i].id in index && index[net.buses[i].id] == i
    requires k < |net.branches| && net.branches[k].inService && net.HasId(net.branches[k].from)
             && net.HasId(net.branches[k].to)
    ensures p < |parts| && net.branches[k].from in IdsOf(net, parts[p]) && net.branches[k].to in IdsOf(net, parts[p])
    ensures forall q | 0 <= q < |parts| && net.branches[k].from in IdsOf(net, parts[q]) :: q == p
    ensures forall q | 0 <= q < |parts| && net.branches[k].to in IdsOf(net, parts[q]) :: q == p
  {
    var b, edges := net.branches[k], Links(net, index, |net.branches|);
    p := IdInOnePart(net, index, parts, b.from);
    var q := IdInOnePart(net, index, parts, b.to);
    var x :| x in parts[p] && net.buses[x].id == b.from;
    var y :| y in parts[q] && net.buses[y].id == b.to;
    LinkIn(net, index, k, |net.branches|);
    assert Link(x, y) in edges;
    Adjacent(edges, x, y);
  }

  // ------------------------------------------------------------ results back to rows

  /** A reported dispatch: one-based generator number within its island, and MW. */
  datatype Report = Report(gen: nat, pg: real)

  /** Every island's solve reports a generator at most once. */
  ghost predicate OncePerGen(reports: seq<Report>) {
    forall i, j | 0 <= i < j < |reports| :: reports[i].gen != reports[j].gen
  }

  ghost predicate DistinctRows(dispatch: seq<(nat, real)>) {
    forall i, j | 0 <= i < j < |dispatch| :: dispatch[i].0 != dispatch[j].0
  }

  /** Report `r` of island `p` names a row of the original network. */
  ghost predicate Names(islands: seq<Island>, p: nat, r: Report, n: nat, row: nat) {
    && p < |islands| && 1 <= r.gen <= |islands[p].genRows|
    && islands[p].genRows[r.gen - 1] == row && row < n
  }

  /** Entry `d` comes from one of the first `p` islands, or the first `j` reports of island `p`. */
  ghost predicate FromReport(islands: seq<Island>, reports: seq<seq<Report>>, n: nat, p: nat, j: nat, d: (nat, real)) {
    exists q: nat, i: nat :: q < |reports| && i < |reports[q]| && (q < p || (q == p && i < j))
                             && Names(islands, q, reports[q][i], n, d.0) && reports[q][i].pg == d.1
  }

  ghost predicate Disjoint(islands: seq<Island>) {
    forall p, q, row | 0 <= p < |islands| && 0 <= q < |islands| && row in islands[p].genRows
                       && row in islands[q].genRows :: p == q
  }

  /** Collect the dispatch of all islands. `n` counts the original generators:
      rows from `n` on are the fixed transfers that stand in for HVDC links. */
  method Aggregate(islands: seq<Island>, reports: seq<seq<Report>>, n: nat) returns (dispatch: seq<(nat, real)>)
    requires |islands| == |reports| && Disjoint(islands)
    requires forall p | 0 <= p < |islands| :: Ascends(islands[p].genRows) && OncePerGen(reports[p])
    ensures DistinctRows(dispatch)
    ensures forall d | d in dispatch :: d.0 < n && FromReport(islands, reports, n, |reports|, 0, d)
    ensures forall p: nat, i: nat, row: nat | p < |reports| && i < |reports[p]| ::
              Names(islands, p, reports[p][i], n, row) ==> (row, reports[p][i].pg) in dispatch
  {
    dispatch := [];
    for p := 0 to |islands|
      invariant Collected(islands, reports, n, p, 0, dispatch)
    {
      for j := 0 to |reports[p]|
        invariant Collected(islands, reports, n, p, j, dispatch)
      {
        var g := reports[p][j];
        if 1 <= g.gen <= |islands[p].genRows| && islands[p].genRows[g.gen - 1] < n {
          var row := islands[p].genRows[g.gen - 1];
          CollectOne(islands, reports, n, p, j, dispatch, row);
          dispatch := dispatch + [(row, g.pg)];
        } else {
          CollectNone(islands, reports, n, p, j, dispatch);
        }
      }
      NextIsland(islands, reports, n, p, dispatch);
    }
    assert forall d | d in dispatch :: FromReport(islands, reports, n, |reports|, 0, d);
  }

  /** `dispatch` holds exactly the reports handled so far. */
  ghost predicate Collected(islands: seq<Island>, reports: seq<seq<Report>>, n: nat, p: nat, j: nat,
                            dispatch: seq<(nat, real)>) {
    && DistinctRows(dispatch)
    && (forall d | d in dispatch :: FromReport(islands, reports, n, p, j, d))
    && (forall q: nat, i: nat, row: nat | q < |reports| && i < |reports[q]| && (q < p || (q == p && i < j))
                                          && Names(islands, q, reports[q][i], n, row) ::
          (row, reports[q][i].pg) in dispatch)
  }

  lemma CollectOne(islands: seq<Island>, reports: seq<seq<Report>>, n: nat, p: nat, j: nat,
                   dispatch: seq<(nat, real)>, row: nat)
    requires Collected(islands, reports, n, p, j, dispatch) && |islands| == |reports| && Disjoint(islands)
    requires p < |reports| && j < |reports[p]| && Ascends(islands[p].genRows) && OncePerGen(reports[p])
    requires Names(islands, p, reports[p][j], n, row)
    ensures Collected(islands, reports, n, p, j + 1, dispatch + [(row, reports[p][j].pg)])
  {
    var more := dispatch + [(row, reports[p][j].pg)];
    forall d | d in more
      ensures FromReport(islands, reports, n, p, j + 1, d)
    {
      if d in dispatch {
        FromReportLater(islands, reports, n, p, j, p, j + 1, d);
      }
    }
    forall i | 0 <= i < |dispatch|
      ensures dispatch[i].0 != row
    {
      assert dispatch[i] in dispatch;
      RowIsNew(islands, reports, n, p, j, dispatch[i], row);
    }
  }

  /** Two reports that name one row are one report. */
  lemma RowIsNew(islands: seq<Island>, reports: seq<seq<Report>>, n: nat, p: nat, j: nat, d: (nat, real), row: nat)
    requires FromReport(islands, reports, n, p, j, d) && |islands| == |reports| && Disjoint(islands)
    requires p < |reports| && j < |reports[p]| && Ascends(islands[p].genRows) && OncePerGen(reports[p])
    requires Names(islands, p, reports[p][j], n, row)
    ensures d.0 != row
  {
    var q: nat, i: nat :| q < |reports| && i < |reports[q]| && (q < p || (q == p && i < j))
                          && Names(islands, q, reports[q][i], n, d.0) && reports[q][i].pg == d.1;
    assert islands[q].genRows[reports[q][i].gen - 1] in islands[q].genRows;
    assert islands[p].genRows[reports[p][j].gen - 1] in islands[p].genRows;
  }

  lemma FromReportLater(islands: seq<Island>, reports: seq<seq<Report>>, n: nat, p: nat, j: nat, p': nat, j': nat,
                        d: (nat, real))
    requires FromReport(islands, reports, n, p, j, d) && (p < p' || (p == p' && j <= j'))
    ensures FromReport(islands, reports, n, p', j', d)
  {
  }

  lemma CollectNone(islands: seq<Island>, reports: seq<seq<Report>>, n: nat, p: nat, j: nat, dispatch: seq<(nat, real)>)
    requires Collected(islands, reports, n, p, j, dispatch) && p < |reports| && j < |reports[p]|
    requires forall row: nat :: !Names(islands, p, reports[p][j], n, row)
    ensures Collected(islands, reports, n, p, j + 1, dispatch)
  {
  }

  lemma NextIsland(islands: seq<Island>, reports: seq<seq<Report>>, n: nat, p: nat, dispatch: seq<(nat, real)>)
    requires p < |reports| && Collected(islands, reports, n, p, |reports[p]|, dispatch)
    ensures Collected(islands, reports, n, p + 1, 0, dispatch)
  {
  }

  /** Islands of one network never share a generator row. */
  lemma IslandsDisjoint(net: Network, index: map<nat, nat>, parts: seq<seq<nat>>, islands: seq<Island>, from: seq<nat>)
    requires net.Valid() && Components(|net.buses|, Links(net, index, |net.branches|), parts)
    requires |from| == |islands|
    requires forall p | 0 <= p < |islands| :: from[p] < |parts| && SubNetwork(net, parts[from[p]], islands[p])
    requires forall p, q | 0 <= p < q < |from| :: from[p] != from[q]
    ensures Disjoint(islands)
  {
    forall p, q, row | 0 <= p < |islands| && 0 <= q < |islands| && row in islands[p].genRows
                       && row in islands[q].genRows
      ensures p == q
    {
      var id := net.gens[row].bus;
      assert id in IdsOf(net, parts[from[p]]) && id in IdsOf(net, parts[from[q]]);
      var i :| i in parts[from[p]] && net.buses[i].id == id;
      var at := IdInOnePart(net, index, parts, id);
    }
  }

  function Clamp(x: real, lo: real, hi: real): real {
    if x < lo then lo else if x > hi then hi else x
  }

  function Dispatched(g: Gen, pg: real): Gen {
    g.(pg := Clamp(pg, if g.pmin < g.pmax then g.pmin else g.pmax, g.pmax))
  }

  /** The last value that the first `n` entries give to a row. */
  ghost function LastFor(dispatch: seq<(nat, real)>, row: nat, n: nat): Option<real>
    requires n <= |dispatch|
  {
    if n == 0 then None else if dispatch[n - 1].0 == row then Some(dispatch[n - 1].1) else LastFor(dispatch, row, n - 1)
  }

  /** Only the output is set, to the value given or the limit it is beyond; a lower
      limit above the upper one counts as the upper one. */
  ghost predicate DispatchedAs(was: Gen, now: Gen, pg: Option<real>) {
    var least := if was.pmin <= was.pmax then was.pmin else was.pmax;
    && now == was.(pg := now.pg)
    && match pg
       case None => now.pg == was.pg
       case Some(x) =>
         && least <= now.pg <= was.pmax && (least <= x <= was.pmax ==> now.pg == x)
         && (x < least ==> now.pg == least) && (x > was.pmax ==> now.pg == was.pmax)
  }

  /** Write a dispatch onto the generators: the last value for a row counts,
      clamped to the generator's limits, and rows not named stay. */
  method ApplyDispatch(gens: array<Gen>, dispatch: seq<(nat, real)>)
    modifies gens
    ensures forall i | 0 <= i < gens.Length :: DispatchedAs(old(gens[i]), gens[i], LastFor(dispatch, i, |dispatch|))
  {
    for j := 0 to |dispatch|
      invariant forall i | 0 <= i < gens.Length :: DispatchedAs(old(gens[i]), gens[i], LastFor(dispatch, i, j))
    {
      var (row, pg) := dispatch[j];
      if row < gens.Length {
        gens[row] := Dispatched(gens[row], pg);
      }
    }
  }

  /** With distinct rows every entry counts. */
  lemma {:induction false} EveryEntryCounts(dispatch: seq<(nat, real)>, k: nat, n: nat)
    requires DistinctRows(dispatch) && k < n <= |dispatch|
    ensures LastFor(dispatch, dispatch[k].0, n) == Some(dispatch[k].1)
  {
    if k < n - 1 {
      EveryEntryCounts(dispatch, k, n - 1);
    }
  }

  // ------------------------------------------------------------ HVDC links as fixed transfers

  function InService(links: seq<Hvdc>): seq<Hvdc> {
    if links == [] then [] else
    var l := links[|links| - 1];
    InService(links[..|links| - 1]) + if l.inService then [l] else []
  }

  /** The withdrawal and the fixed injection that stand for a link. */
  function Withdrawal(l: Hvdc): Load { Load(l.from, l.pf) }

  function Injection(l: Hvdc): Gen {
    var p := if l.pt > 0.0 then l.pt else 0.0;
    Gen(l.to, true, p, p, p)
  }

  /** `copy` is `net` with the first `k` of the links replaced by transfers, each
      appended after the rows there were. */
  ghost predicate Substituted(net: Network, copy: Network, links: seq<Hvdc>, k: nat) {
    && k <= |links| && copy.buses == net.buses && copy.branches == net.branches
    && |copy.gens| == |net.gens| + k && net.gens <= copy.gens && |copy.loads| == |net.loads| + k
    && net.loads <= copy.loads
    && (forall i | 0 <= i < k :: Transfers(links[i], copy.loads[|net.loads| + i], copy.gens[|net.gens| + i]))
    && |copy.hvdc| == |net.hvdc|
    && (forall i | 0 <= i < |net.hvdc| && links != [] :: copy.hvdc[i] == net.hvdc[i].(inService := false))
  }

  /** The load draws at the sending end what the link takes there; the generator is
      fixed at what arrives at the other end, never less than nothing. */
  ghost predicate Transfers(l: Hvdc, load: Load, g: Gen) {
    && load.bus == l.from && load.p == l.pf
    && g.bus == l.to && g.inService && g.pmin == g.pmax == g.pg && g.pg >= 0.0
    && (l.pt >= 0.0 ==> g.pg == l.pt) && (l.pt < 0.0 ==> g.pg == 0.0)
  }

  /** The links in service, in order. */
  method LinksInService(links: seq<Hvdc>) returns (out: seq<Hvdc>)
    ensures out == InService(links)
  {
    out := [];
    for k := 0 to |links|
      invariant out == InService(links[..k])
    {
      assert links[..k + 1][..k] == links[..k];
      if links[k].inService {
        out := out + [links[k]];
      }
    }
    assert links[..|links|] == links;
  }

  /** Replace the links in service by fixed transfers. Buses, branches and the rows
      of generators and loads there were stay as they are. */
  method ValidationCopy(net: Network) returns (copy: Network, count: nat)
    ensures count == |InService(net.hvdc)| && Substituted(net, copy, InService(net.hvdc), count)
    ensures if count == 0 then copy == net else InService(copy.hvdc) == []
  {
    var links := LinksInService(net.hvdc);
    copy, count := net, |links|;
    if count == 0 {
      return;
    }
    copy := copy.(hvdc := seq(|net.hvdc|, i requires 0 <= i < |net.hvdc| => net.hvdc[i].(inService := false)));
    NoneInService(copy.hvdc);
    for k := 0 to count
      invariant Substituted(net, copy, links, k) && InService(copy.hvdc) == []
    {
      copy := copy.(loads := copy.loads + [Withdrawal(links[k])], gens := copy.gens + [Injection(links[k])]);
    }
  }

  lemma {:induction false} NoneInService(links: seq<Hvdc>)
    requires forall i | 0 <= i < |links| :: !links[i].inService
    ensures InService(links) == []
  {
    if links != [] {
      NoneInService(links[..|links| - 1]);
    }
  }

  // ------------------------------------------------------------ a whole solve

  /** Bus rows of a part, in order. */
  ghost predicate PartOk(net: Network, part: seq<nat>) {
    Ascends(part) && forall i | i in part :: i < |net.buses|
  }

  /** `island` is part `p`, and `reports` what its solve says. */
  ghost predicate Solved(net: Network, parts: seq<seq<nat>>, solve: Island -> seq<Report>, p: nat, island: Island,
                         reports: seq<Report>) {
    p < |parts| && PartOk(net, parts[p]) && SubNetwork(net, parts[p], island) && reports == solve(island)
  }

  /** Some generator in service is on a bus of the part. */
  ghost predicate HasGeneration(net: Network, part: seq<nat>)
    requires PartOk(net, part)
  {
    exists k :: 0 <= k < |net.gens| && net.gens[k].inService && net.gens[k].bus in IdsOf(net, part)
  }

  /** Every one of the first `n` parts that has generation is among `from`. */
  ghost predicate NoneMissed(net: Network, parts: seq<seq<nat>>, from: seq<nat>, n: nat) {
    n <= |parts| && forall p: nat | p < n && PartOk(net, parts[p]) && HasGeneration(net, parts[p]) :: p in from
  }

  /** The islands with generation among the first `n` parts, and their solves. */
  ghost predicate Gathered(net: Network, parts: seq<seq<nat>>, solve: Island -> seq<Report>, islands: seq<Island>,
                           reports: seq<seq<Report>>, from: seq<nat>, n: nat) {
    && |islands| == |reports| == |from| && (forall k | 0 <= k < |from| :: from[k] < n)
    && NoneMissed(net, parts, from, n)
    && (forall k: nat | k < |from| :: Solved(net, parts, solve, from[k], islands[k], reports[k]))
    && (forall j, k | 0 <= j < k < |from| :: from[j] < from[k])
  }

  /** Build and solve every island with generation. */
  method SolveIslands(net: Network, parts: seq<seq<nat>>, solve: Island -> seq<Report>)
    returns (islands: seq<Island>, reports: seq<seq<Report>>, ghost from: seq<nat>)
    requires net.Valid() && forall p | 0 <= p < |parts| :: PartOk(net, parts[p])
    ensures Gathered(net, parts, solve, islands, reports, from, |parts|)
  {
    islands, reports, from := [], [], [];
    for p := 0 to |parts|
      invariant Gathered(net, parts, solve, islands, reports, from, p)
    {
      var island := IslandNetwork(net, parts[p]);
      if island.Some? {
        assert Solved(net, parts, solve, p, island.value, solve(island.value));
        islands, reports, from := islands + [island.value], reports + [solve(island.value)], from + [p];
      }
    }
  }

  lemma GatheredDisjoint(net: Network, index: map<nat, nat>, parts: seq<seq<nat>>, solve: Island -> seq<Report>,
                         islands: seq<Island>, reports: seq<seq<Report>>, from: seq<nat>)
    requires net.Valid() && Components(|net.buses|, Links(net, index, |net.branches|), parts)
    requires Gathered(net, parts, solve, islands, reports, from, |parts|)
    ensures Disjoint(islands) && forall k | 0 <= k < |islands| :: Ascends(islands[k].genRows)
  {
    forall k: nat | k < |islands|
      ensures from[k] < |parts| && SubNetwork(net, parts[from[k]], islands[k]) && Ascends(islands[k].genRows)
    {
      assert Solved(net, parts, solve, from[k], islands[k], reports[k]);
    }
    IslandsDisjoint(net, index, parts, islands, from);
  }

  /** A row named by a report is in service, and an original one if it is below their number. */
  lemma NamedInService(net: Network, copy: Network, parts: seq<seq<nat>>, solve: Island -> seq<Report>,
                       islands: seq<Island>, reports: seq<seq<Report>>,
                       from: seq<nat>, d: (nat, real))
    requires net.gens <= copy.gens && Gathered(copy, parts, solve, islands, reports, from, |parts|)
    requires d.0 < |net.gens| && FromReport(islands, reports, |net.gens|, |reports|, 0, d)
    ensures net.gens[d.0].inService
  {
    var q: nat, i: nat :| q < |reports| && i < |reports[q]| && Names(islands, q, reports[q][i], |net.gens|, d.0)
                          && reports[q][i].pg == d.1;
    assert islands[q].genRows[reports[q][i].gen - 1] in islands[q].genRows;
    assert Solved(copy, parts, solve, from[q], islands[q], reports[q]);
    assert copy.gens[d.0] == net.gens[d.0];
  }

  /** How a dispatch came about: the copy with transfers, its islands, and what the
      solves of those with generation reported. */
  datatype Solution = Solution(copy: Network, index: map<nat, nat>, parts: seq<seq<nat>>, islands: seq<Island>,
                               reports: seq<seq<Report>>, from: seq<nat>)

  /** The parts are the islands of the copy, and every one with generation was solved. */
  ghost predicate SolutionOf(net: Network, solve: Island -> seq<Report>, z: Solution) {
    && Substituted(net, z.copy, InService(net.hvdc), |InService(net.hvdc)|)
    && (forall i | 0 <= i < |z.copy.buses| :: z.copy.buses[i].id in z.index && z.index[z.copy.buses[i].id] == i)
    && (forall id | id in z.index :: z.index[id] < |z.copy.buses| && z.copy.buses[z.index[id]].id == id)
    && Components(|z.copy.buses|, Links(z.copy, z.index, |z.copy.branches|), z.parts) && Sorted(z.parts)
    && Gathered(z.copy, z.parts, solve, z.islands, z.reports, z.from, |z.parts|)
  }

  /** The DC OPF dispatch of a network: HVDC links become transfers, every island
      with generation is solved, and the reports are gathered, exactly those that
      name an original generator. No row is named twice, and every row named is an
      original generator in service. */
  method RunDcOpf(net: Network, solve: Island -> seq<Report>) returns (dispatch: seq<(nat, real)>, ghost z: Solution)
    requires net.Valid() && forall i: Island :: OncePerGen(solve(i))
    ensures DistinctRows(dispatch)
    ensures forall d | d in dispatch :: d.0 < |net.gens| && net.gens[d.0].inService
    ensures SolutionOf(net, solve, z)
    ensures forall d | d in dispatch :: FromReport(z.islands, z.reports, |net.gens|, |z.reports|, 0, d)
    ensures forall p: nat, i: nat, row: nat | p < |z.reports| && i < |z.reports[p]| ::
              Names(z.islands, p, z.reports[p][i], |net.gens|, row) ==> (row, z.reports[p][i].pg) in dispatch
  {
    var copy, _ := ValidationCopy(net);
    var parts;
    ghost var index;
    parts, index := FindIslands(copy);
    PartsOk(copy, index, parts);
    var islands, reports;
    ghost var from;
    islands, reports, from := SolveIslands(copy, parts, solve);
    z := Solution(copy, index, parts, islands, reports, from);
    GatheredDisjoint(copy, index, parts, solve, islands, reports, from);
    ReportsOnce(copy, parts, solve, islands, reports, from);
    dispatch := Aggregate(islands, reports, |net.gens|);
    forall d | d in dispatch
      ensures d.0 < |net.gens| && net.gens[d.0].inService
    {
      NamedInService(net, copy, parts, solve, islands, reports, from, d);
    }
  }

  lemma PartsOk(net: Network, index: map<nat, nat>, parts: seq<seq<nat>>)
    requires Components(|net.buses|, Links(net, index, |net.branches|), parts)
    ensures forall p | 0 <= p < |parts| :: PartOk(net, parts[p])
  {
  }

  lemma ReportsOnce(net: Network, parts: seq<seq<nat>>, solve: Island -> seq<Report>, islands: seq<Island>,
                    reports: seq<seq<Report>>, from: seq<nat>)
    requires Gathered(net, parts, solve, islands, reports, from, |parts|) && forall i: Island :: OncePerGen(solve(i))
    ensures forall p | 0 <= p < |islands| :: OncePerGen(reports[p])
  {
    forall p: nat | p < |islands|
      ensures OncePerGen(reports[p])
    {
      assert Solved(net, parts, solve, from[p], islands[p], reports[p]);
    }
  }
}
