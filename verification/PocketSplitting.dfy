/**
 Splitting of pockets: while a pocket of a level is heavier than its feeders or
 reaches too far for its voltage, its heaviest or farthest unfed member becomes
 a source of its own, stepped down from a new bus of the level above.
 */
module PocketSplitting {
  import opened Options
  import opened ShortestPaths
  import opened Pockets
  import opened Geometry
  import opened Forests
  import opened Sums

  const ROUNDS := 24
  const KM_PER_DEGREE := 111.0

  datatype Bus = Bus(lon: real, lat: real, site: nat, tier: nat, island: nat, kv: real, load: real)

  /** The network under construction. */
  datatype Design = Design(buses: seq<Bus>, points: seq<Point>, fed: seq<bool>, transformers: seq<Edge>,
                           edges: set<Edge>) {
    ghost predicate Valid() {
      |buses| == |points| == |fed|
    }
  }

  /** What splitting one level of one island never changes. */
  datatype Frame = Frame(g: Graph, members: seq<nat>, host: seq<real>, cap: real, reach: real, upper: seq<nat>,
                         dist: Metric, project: (real, real) -> Point, offsetKm: real) {
    ghost predicate Valid() {
      && g.Valid() && |members| == g.n == |host|
      && (forall i, j | 0 <= i < j < |members| :: members[i] != members[j])
    }

    ghost predicate Within(n: nat) {
      (forall i | 0 <= i < |members| :: members[i] < n) && (forall i | 0 <= i < |upper| :: upper[i] < n)
    }

    function At(sources: seq<nat>): Level {
      Level(g, members, sources)
    }

    /** The bus added above `v`: `near` copied to the site of `v`, without load. */
    function Copy(buses: seq<Bus>, v: nat, near: nat): Bus
      requires v < |buses| && near < |buses|
    {
      buses[near].(lon := buses[v].lon, lat := buses[v].lat + offsetKm / KM_PER_DEGREE, site := buses[v].site,
      load := 0.0)
    }

    /** `near` is the upper bus closest to `v`, lowest index on ties. */
    ghost predicate Nearest(points: seq<Point>, v: nat, near: nat) {
      && near in upper && v < |points| && near < |points|
      && forall u | u in upper && u < |points| ::
           dist(points[near], points[v]) < dist(points[u], points[v])
           || (dist(points[near], points[v]) == dist(points[u], points[v]) && near <= u)
    }
  }

  // ------------------------------------------------------------ what splitting keeps

  /** The `k`th bus added feeds source `v` by a transformer and is tapped off `near`. */
  ghost predicate FedFromAbove(f: Frame, start: Design, d: Design, k: nat, v: nat, near: nat) {
    var up := |start.buses| + k;
    && v in f.members && v < |start.buses| && near < |start.buses| && up < |d.buses|
    && |start.transformers| + k < |d.transformers|
    && f.Nearest(start.points, v, near)
    && d.buses[up] == f.Copy(start.buses, v, near)
    && up < |d.points| && d.points[up] == f.project(d.buses[up].lon, d.buses[up].lat)
    && d.transformers[|start.transformers| + k] == Link(v, up)
  }

  ghost predicate AllFedFromAbove(f: Frame, start: Design, d: Design, added: seq<nat>, nears: seq<nat>) {
    |added| == |nears| && forall k: nat | k < |added| :: FedFromAbove(f, start, d, k, added[k], nears[k])
  }

  ghost function TapLines(n: nat, nears: seq<nat>): set<Edge> {
    set k: nat | k < |nears| :: Link(n + k, nears[k])
  }

  /** `d` is `start` and one bus, one transformer and one line per source added. */
  ghost predicate Extends(f: Frame, start: Design, d: Design, added: seq<nat>, nears: seq<nat>) {
    && d.Valid() && |d.buses| == |start.buses| + |added|
    && start.buses <= d.buses && start.points <= d.points && start.transformers <= d.transformers
    && |d.transformers| == |start.transformers| + |added|
    && AllFedFromAbove(f, start, d, added, nears)
    && d.edges == start.edges + TapLines(|start.buses|, nears)
  }

  /** The fed members are the sources, each once; no other bus changed its mark,
      and no added bus is fed. */
  ghost predicate SourcesAreFed(f: Frame, start: Design, d: Design, sources: seq<nat>) {
    && |d.fed| >= |start.fed|
    && (forall i, j | 0 <= i < j < |sources| :: sources[i] != sources[j])
    && (forall s | s in sources :: s in f.members)
    && (forall i: nat | i < |d.fed| ::
          d.fed[i] == (i in sources || (i < |start.fed| && i !in f.members && start.fed[i])))
  }

  /** Members hanging from pocket `o`. */
  ghost function PocketLoad(f: Frame, owner: seq<nat>, o: nat): real
    requires |owner| == |f.host|
  {
    Deposited(f.host, Owners(owner), o, |owner|)
  }

  ghost function Owners(owner: seq<nat>): seq<Option<nat>> {
    seq(|owner|, i requires 0 <= i < |owner| => Some(owner[i]))
  }

  ghost predicate Carved(f: Frame, sources: seq<nat>, owner: seq<nat>, far: Dists) {
    && |owner| == f.g.n && Exact(f.g, f.At(sources).SourceNodes(), far)
    && (forall l | 0 <= l < |owner| :: owner[l] < |sources|)
    && (forall v: nat | v < f.g.n && far[v].Some? :: exists p :: PocketPath(f.At(sources), owner, far, v, p))
  }

  /** No pocket is heavier than its feeders or reaches too far. */
  ghost predicate AllServed(f: Frame, owner: seq<nat>, far: Dists) {
    && |owner| == |far| == |f.host|
    && forall l | 0 <= l < |owner| :: PocketLoad(f, owner, owner[l]) <= f.cap && AtMost(far[l], f.reach)
  }

  // ------------------------------------------------------------ choosing

  /** Order of keys, `None` standing for infinity. */
  predicate Over(a: Option<real>, b: Option<real>) {
    b.Some? && (a.None? || a.value > b.value)
  }

  function Moment(load: real, d: real): real { load * d }

  /** What a pocket is split by: load times distance, or the distance along its graph. */
  function Key(f: Frame, points: seq<Point>, src: nat, far: Dists, byLoad: bool, l: nat): Option<real>
    requires l < |f.members| == |f.host| == |far| && f.members[l] < |points| && src < |points|
  {
    if byLoad then Some(Moment(f.host[l], f.dist(points[f.members[l]], points[src]))) else far[l]
  }

  predicate Splittable(f: Frame, fed: seq<bool>, owner: seq<nat>, o: nat, l: nat)
    requires l < |f.members| == |owner|
  {
    owner[l] == o && f.members[l] < |fed| && !fed[f.members[l]]
  }

  /** The unfed member of pocket `o` with the largest key, lowest index on ties. */
  ghost predicate BestPick(f: Frame, d: Design, src: nat, owner: seq<nat>, far: Dists, o: nat, byLoad: bool, l: nat)
    requires |owner| == |far| == |f.members| == |f.host| && d.Valid() && f.Within(|d.buses|) && src < |d.points|
  {
    && l < |owner| && Splittable(f, d.fed, owner, o, l)
    && forall k: nat | k < |owner| && Splittable(f, d.fed, owner, o, k) ::
         var (x, y) := (Key(f, d.points, src, far, byLoad, k), Key(f, d.points, src, far, byLoad, l));
         Over(y, x) || (x == y && l <= k)
  }

  ghost predicate AllFed(f: Frame, fed: seq<bool>, owner: seq<nat>, o: nat)
    requires |owner| == |f.members|
  {
    forall l: nat | l < |owner| :: !Splittable(f, fed, owner, o, l)
  }

  ghost predicate BestUpTo(f: Frame, d: Design, src: nat, owner: seq<nat>, far: Dists, o: nat, byLoad: bool,
                           pick: Option<nat>, n: nat)
    requires n <= |owner| == |far| == |f.members| == |f.host| && d.Valid() && f.Within(|d.buses|) && src < |d.points|
  {
    match pick
    case None => forall k: nat | k < n :: !Splittable(f, d.fed, owner, o, k)
    case Some(l) =>
      && l < n && Splittable(f, d.fed, owner, o, l)
      && forall k: nat | k < n && Splittable(f, d.fed, owner, o, k) ::
           var (x, y) := (Key(f, d.points, src, far, byLoad, k), Key(f, d.points, src, far, byLoad, l));
           Over(y, x) || (x == y && l <= k)
  }

  method PickMember(f: Frame, d: Design, src: nat, owner: seq<nat>, far: Dists, o: nat, byLoad: bool)
    returns (pick: Option<nat>)
    requires f.Valid() && d.Valid() && f.Within(|d.buses|) && src < |d.points| && |owner| == |far| == |f.members|
    ensures match pick
            case None => AllFed(f, d.fed, owner, o)
            case Some(l) => BestPick(f, d, src, owner, far, o, byLoad, l)
  {
    pick := None;
    for i := 0 to |f.members|
      invariant BestUpTo(f, d, src, owner, far, o, byLoad, pick, i)
    {
      if Splittable(f, d.fed, owner, o, i)
         && (pick.None? || Over(Key(f, d.points, src, far, byLoad, i),
                                Key(f, d.points, src, far, byLoad, pick.value))) {
        pick := Some(i);
      }
    }
  }

  method NearestUpper(f: Frame, points: seq<Point>, v: nat) returns (near: nat)
    requires |f.upper| > 0 && v < |points| && (forall i | 0 <= i < |f.upper| :: f.upper[i] < |points|)
    ensures f.Nearest(points, v, near)
  {
    near := f.upper[0];
    for i := 1 to |f.upper|
      invariant near in f.upper
      invariant forall k | 0 <= k < i :: f.dist(points[near], points[v]) < f.dist(points[f.upper[k]], points[v])
                                         || (f.dist(points[near], points[v]) == f.dist(points[f.upper[k]], points[v])
                                             && near <= f.upper[k])
    {
      var u := f.upper[i];
      var (x, y) := (f.dist(points[u], points[v]), f.dist(points[near], points[v]));
      if x < y || (x == y && u < near) {
        near := u;
      }
    }
  }

  /** What the first `k` members bring to every pocket's load. */
  ghost predicate LoadTallied(f: Frame, owner: seq<nat>, load: map<nat, real>, k: nat)
    requires k <= |owner| == |f.host|
  {
    && (forall o: nat :: o in load <==> o in owner[..k])
    && (forall o: nat :: Entry(load, o) == Deposited(f.host, Owners(owner), o, k))
  }

  function Entry(load: map<nat, real>, o: nat): real {
    if o in load then load[o] else 0.0
  }

  /** Every pocket's farthest among the first `k` members. */
  ghost predicate SpanTallied(owner: seq<nat>, far: Dists, span: map<nat, Option<real>>, k: nat)
    requires k <= |owner| == |far|
  {
    && (forall l | 0 <= l < k :: owner[l] in span && !Over(far[l], span[owner[l]]))
    && (forall o: nat | o in span :: span[o] == Some(0.0) || Attained(owner, far, o, span[o], k))
  }

  ghost predicate Attained(owner: seq<nat>, far: Dists, o: nat, x: Option<real>, k: nat)
    requires k <= |owner| == |far|
  {
    exists l :: 0 <= l < k && owner[l] == o && far[l] == x
  }

  lemma LoadTallyOne(f: Frame, owner: seq<nat>, load: map<nat, real>, k: nat)
    requires k < |owner| == |f.host| && LoadTallied(f, owner, load, k)
    ensures LoadTallied(f, owner, load[owner[k] := Entry(load, owner[k]) + f.host[k]], k + 1)
  {
    assert owner[..k + 1] == owner[..k] + [owner[k]];
    var next := load[owner[k] := Entry(load, owner[k]) + f.host[k]];
    forall o: nat
      ensures Entry(next, o) == Deposited(f.host, Owners(owner), o, k + 1)
    {
      assert Entry(load, o) == Deposited(f.host, Owners(owner), o, k);
    }
  }

  lemma SpanTallyOne(owner: seq<nat>, far: Dists, span: map<nat, Option<real>>, k: nat, r: Option<real>)
    requires k < |owner| == |far| && SpanTallied(owner, far, span, k)
    requires r == if owner[k] in span then span[owner[k]] else Some(0.0)
    ensures SpanTallied(owner, far, span[owner[k] := if Over(far[k], r) then far[k] else r], k + 1)
  {
    var next := span[owner[k] := if Over(far[k], r) then far[k] else r];
    forall o: nat | o in next
      ensures next[o] == Some(0.0) || Attained(owner, far, o, next[o], k + 1)
    {
      if o == owner[k] && Over(far[k], r) {
        assert Attained(owner, far, o, far[k], k + 1);
      } else if o in span && span[o] != Some(0.0) {
        assert Attained(owner, far, o, span[o], k);
      }
    }
  }

  /** Load of every pocket and its farthest member. */
  method Tally(f: Frame, owner: seq<nat>, far: Dists) returns (load: map<nat, real>, span: map<nat, Option<real>>)
    requires |owner| == |far| == |f.host|
    ensures LoadTallied(f, owner, load, |owner|) && SpanTallied(owner, far, span, |owner|)
  {
    load, span := map[], map[];
    for l := 0 to |owner|
      invariant LoadTallied(f, owner, load, l) && SpanTallied(owner, far, span, l)
    {
      LoadTallyOne(f, owner, load, l);
      var r := if owner[l] in span then span[owner[l]] else Some(0.0);
      SpanTallyOne(owner, far, span, l, r);
      load := load[owner[l] := Entry(load, owner[l]) + f.host[l]];
      span := span[owner[l] := if Over(far[l], r) then far[l] else r];
    }
  }

  // ------------------------------------------------------------ one split

  lemma AddTap(n: nat, nears: seq<nat>, near: nat)
    ensures TapLines(n, nears + [near]) == TapLines(n, nears) + {Link(n + |nears|, near)}
  {
    var next := nears + [near];
    assert next[|nears|] == near;
    forall e | e in TapLines(n, nears)
      ensures e in TapLines(n, next)
    {
      var k: nat :| k < |nears| && e == Link(n + k, nears[k]);
      assert next[k] == nears[k];
    }
  }

  lemma FedFromAboveKept(f: Frame, start: Design, d: Design, e: Design, k: nat, v: nat, near: nat)
    requires FedFromAbove(f, start, d, k, v, near) && d.buses <= e.buses && d.points <= e.points
    requires d.transformers <= e.transformers
    ensures FedFromAbove(f, start, e, k, v, near)
  {
  }

  lemma FedFromAboveMore(f: Frame, start: Design, d: Design, e: Design, added: seq<nat>, nears: seq<nat>, v: nat,
                         near: nat)
    requires AllFedFromAbove(f, start, d, added, nears) && d.buses <= e.buses && d.points <= e.points
    requires d.transformers <= e.transformers
    requires FedFromAbove(f, start, e, |added|, v, near)
    ensures AllFedFromAbove(f, start, e, added + [v], nears + [near])
  {
    forall k: nat | k < |added|
      ensures FedFromAbove(f, start, e, k, added[k], nears[k])
    {
      FedFromAboveKept(f, start, d, e, k, added[k], nears[k]);
    }
  }

  lemma SplitExtends(f: Frame, start: Design, d: Design, e: Design, added: seq<nat>, nears: seq<nat>, v: nat, near: nat)
    requires Extends(f, start, d, added, nears)
    requires v in f.members && v < |start.buses| && near < |start.buses| && f.Nearest(start.points, v, near)
    requires var bus := f.Copy(d.buses, v, near);
             e.buses == d.buses + [bus] && e.points == d.points + [f.project(bus.lon, bus.lat)] && e.Valid()
    requires e.transformers == d.transformers + [Link(v, |d.buses|)]
    requires e.edges == d.edges + {Link(|d.buses|, near)}
    ensures Extends(f, start, e, added + [v], nears + [near])
  {
    AddTap(|start.buses|, nears, near);
    assert FedFromAbove(f, start, e, |added|, v, near);
    FedFromAboveMore(f, start, d, e, added, nears, v, near);
    assert start.buses <= e.buses && start.points <= e.points && start.transformers <= e.transformers;
  }

  lemma SplitFeeds(f: Frame, start: Design, d: Design, sources: seq<nat>, v: nat)
    requires start.Valid() && f.Within(|start.buses|) && d.Valid() && |d.fed| >= |start.fed|
    requires SourcesAreFed(f, start, d, sources) && v in f.members && v < |d.fed| && !d.fed[v]
    ensures v !in sources
    ensures forall e: Design | e.fed == (d.fed + [false])[v := true] :: SourcesAreFed(f, start, e, sources + [v])
  {
    assert v !in sources;
    assert |d.fed| !in f.members;
    forall e: Design | e.fed == (d.fed + [false])[v := true]
      ensures SourcesAreFed(f, start, e, sources + [v])
    {
      forall i: nat | i < |e.fed|
        ensures e.fed[i] == (i in sources + [v] || (i < |start.fed| && i !in f.members && start.fed[i]))
      {
        if i == |d.fed| {
          assert i !in sources && i !in f.members;
        }
      }
    }
  }

  lemma NearestKept(f: Frame, start: Design, d: Design, v: nat, near: nat)
    requires f.Within(|start.points|) && start.points <= d.points && v < |start.points| && f.Nearest(d.points, v, near)
    ensures f.Nearest(start.points, v, near)
  {
  }

  // ------------------------------------------------------------ rounds

  /** Pocket `o` is over its limits: too heavy, or else too long. */
  ghost predicate OverLimit(f: Frame, owner: seq<nat>, far: Dists, o: nat)
    requires |owner| == |far| == |f.host|
  {
    && o in owner
    && (|| PocketLoad(f, owner, o) > f.cap
        || exists l :: 0 <= l < |owner| && owner[l] == o && Over(far[l], Some(f.reach)))
  }

  type Heavy = seq<(nat, bool)>

  ghost predicate HeavyUpTo(f: Frame, owner: seq<nat>, far: Dists, heavy: Heavy, n: nat)
    requires |owner| == |far| == |f.host|
  {
    && (forall i | 0 <= i < |heavy| :: heavy[i].0 < n && OverLimit(f, owner, far, heavy[i].0)
                                       && (heavy[i].1 <==> PocketLoad(f, owner, heavy[i].0) > f.cap))
    && (forall o: nat | OverLimit(f, owner, far, o) && o < n :: exists i :: 0 <= i < |heavy| && heavy[i].0 == o)
    && Ascending(heavy)
  }

  lemma HeavyMore(f: Frame, owner: seq<nat>, far: Dists, heavy: Heavy, n: nat, byLoad: bool)
    requires |owner| == |far| == |f.host| && HeavyUpTo(f, owner, far, heavy, n)
    ensures !OverLimit(f, owner, far, n) ==> HeavyUpTo(f, owner, far, heavy, n + 1)
    ensures OverLimit(f, owner, far, n) && (byLoad <==> PocketLoad(f, owner, n) > f.cap)
            ==> HeavyUpTo(f, owner, far, heavy + [(n, byLoad)], n + 1)
  {
    var more := heavy + [(n, byLoad)];
    assert more[|heavy|].0 == n;
    assert forall i | 0 <= i < |heavy| :: more[i] == heavy[i];
  }

  /** The pockets over their limits, in order, and whether by load. */
  method HeavyPockets(f: Frame, owner: seq<nat>, far: Dists, pockets: nat) returns (heavy: Heavy)
    requires |owner| == |far| == |f.host| && NotNegative(far)
    ensures HeavyUpTo(f, owner, far, heavy, pockets)
  {
    var load, span := Tally(f, owner, far);
    heavy := [];
    for o := 0 to pockets
      invariant HeavyUpTo(f, owner, far, heavy, o)
    {
      TallyDecides(f, owner, far, load, span, o);
      HeavyMore(f, owner, far, heavy, o, o in load && load[o] > f.cap);
      if o in load {
        if load[o] > f.cap {
          heavy := heavy + [(o, true)];
        } else if Over(span[o], Some(f.reach)) {
          heavy := heavy + [(o, false)];
        }
      }
    }
  }

  lemma TallyDecides(f: Frame, owner: seq<nat>, far: Dists, load: map<nat, real>, span: map<nat, Option<real>>, o: nat)
    requires |owner| == |far| == |f.host| && NotNegative(far)
    requires LoadTallied(f, owner, load, |owner|) && SpanTallied(owner, far, span, |owner|)
    ensures o in load ==> o in span && load[o] == PocketLoad(f, owner, o)
    ensures OverLimit(f, owner, far, o) <==> o in load && (load[o] > f.cap || Over(span[o], Some(f.reach)))
  {
    assert owner[..|owner|] == owner;
    if o in load {
      assert Entry(load, o) == Deposited(f.host, Owners(owner), o, |owner|);
      var l :| 0 <= l < |owner| && owner[l] == o;
      if Over(span[o], Some(f.reach)) {
        assert span[o] != Some(0.0) ==> Attained(owner, far, o, span[o], |owner|);
        assert span[o] == Some(0.0) ==> Over(far[l], Some(f.reach));
      }
    }
  }

  ghost predicate NotNegative(far: Dists) {
    forall l | 0 <= l < |far| && far[l].Some? :: far[l].value >= 0.0
  }

  lemma CarvedNotNegative(f: Frame, sources: seq<nat>, owner: seq<nat>, far: Dists)
    requires f.Valid() && Carved(f, sources, owner, far)
    ensures NotNegative(far)
  {
    forall v: nat | v < |far| && far[v].Some?
      ensures far[v].value >= 0.0
    {
      var p :| PocketPath(f.At(sources), owner, far, v, p);
      PathCostNonNegative(f.g, p);
    }
  }

  /** A carved level at the start of a round. */
  ghost predicate Ready(f: Frame, d: Design, sources: seq<nat>, owner: seq<nat>, far: Dists) {
    && f.Valid() && d.Valid() && f.Within(|d.buses|) && |owner| == |far| == |f.members|
    && (forall l | 0 <= l < |owner| :: owner[l] < |sources|)
    && (forall i | 0 <= i < |sources| :: sources[i] < |d.buses|)
  }

  /** What a round picks for pocket `o`: its best member, or nothing because all
      of it is fed. */
  ghost predicate Handled(f: Frame, d: Design, sources: seq<nat>, owner: seq<nat>, far: Dists, picks: map<nat, nat>,
                          o: nat)
    requires Ready(f, d, sources, owner, far) && o in owner
  {
    if o in picks
    then BestPick(f, d, sources[o], owner, far, o, PocketLoad(f, owner, o) > f.cap, picks[o])
    else AllFed(f, d.fed, owner, o)
  }

  /** The picks of a round, by pocket: exactly the pockets over their limits that
      have an unfed member are split, each at its best member. */
  ghost predicate RoundPicks(f: Frame, d: Design, sources: seq<nat>, owner: seq<nat>, far: Dists, picks: map<nat, nat>)
    requires Ready(f, d, sources, owner, far)
  {
    && (forall o | o in picks :: OverLimit(f, owner, far, o))
    && (forall o: nat | OverLimit(f, owner, far, o) :: Handled(f, d, sources, owner, far, picks, o))
  }

  /** What a round has done: the sources added, and the pockets they split at which members. */
  datatype Log = Log(added: seq<nat>, picks: map<nat, nat>, pockets: seq<nat>) {
    function Add(f: Frame, o: nat, l: nat): Log
      requires l < |f.members|
    {
      Log(added + [f.members[l]], picks[o := l], pockets + [o])
    }
  }

  /** The sources added are the picks, in order of their pockets. */
  ghost predicate FromPicks(f: Frame, log: Log) {
    && |log.added| == |log.pockets| == |log.picks|
    && (forall i, j | 0 <= i < j < |log.pockets| :: log.pockets[i] < log.pockets[j])
    && (forall i | 0 <= i < |log.pockets| :: PickedAt(f, log, i))
  }

  ghost predicate PickedAt(f: Frame, log: Log, i: nat)
    requires i < |log.pockets| == |log.added|
  {
    var o := log.pockets[i];
    o in log.picks && log.picks[o] < |f.members| && log.added[i] == f.members[log.picks[o]]
  }

  /** Pocket `o` looks the same in `d` as in `was`. */
  ghost predicate SamePocket(f: Frame, was: Design, d: Design, owner: seq<nat>, o: nat) {
    && was.points <= d.points && |was.fed| <= |d.fed|
    && forall l: nat | l < |owner| && l < |f.members| && owner[l] == o && f.members[l] < |was.fed| ::
         d.fed[f.members[l]] == was.fed[f.members[l]]
  }

  lemma SplittableSame(f: Frame, was: Design, d: Design, owner: seq<nat>, o: nat, l: nat)
    requires SamePocket(f, was, d, owner, o) && l < |owner| == |f.members| && f.members[l] < |was.fed|
    ensures Splittable(f, d.fed, owner, o, l) <==> Splittable(f, was.fed, owner, o, l)
  {
  }

  lemma KeySame(f: Frame, was: seq<Point>, points: seq<Point>, src: nat, far: Dists, byLoad: bool, l: nat)
    requires l < |f.members| == |f.host| == |far| && f.members[l] < |was| && src < |was| && was <= points
    ensures Key(f, points, src, far, byLoad, l) == Key(f, was, src, far, byLoad, l)
  {
    var m := f.members[l];
    assert was[m] == points[m] && was[src] == points[src];
  }

  lemma PickTransfers(f: Frame, was: Design, d: Design, src: nat, owner: seq<nat>, far: Dists, o: nat, byLoad: bool,
                      pick: Option<nat>)
    requires f.Valid() && was.Valid() && d.Valid() && f.Within(|was.buses|) && f.Within(|d.buses|) && src < |was.points|
    requires |owner| == |far| == |f.members| && SamePocket(f, was, d, owner, o)
    requires match pick
             case None => AllFed(f, d.fed, owner, o)
             case Some(l) => BestPick(f, d, src, owner, far, o, byLoad, l)
    ensures match pick
            case None => AllFed(f, was.fed, owner, o)
            case Some(l) => BestPick(f, was, src, owner, far, o, byLoad, l)
  {
    forall k: nat | k < |owner|
      ensures Splittable(f, d.fed, owner, o, k) <==> Splittable(f, was.fed, owner, o, k)
      ensures Key(f, d.points, src, far, byLoad, k) == Key(f, was.points, src, far, byLoad, k)
    {
      SplittableSame(f, was, d, owner, o, k);
      KeySame(f, was.points, d.points, src, far, byLoad, k);
    }
  }

  /** The picks so far are at some of the first `h` heavy pockets. */
  ghost predicate PickedAmong(heavy: Heavy, h: nat, picks: map<nat, nat>) {
    h <= |heavy| && forall o: nat | o in picks :: exists i :: 0 <= i < h && heavy[i].0 == o
  }

  /** The heavy pockets from `h` on are as they were. */
  ghost predicate Untouched(f: Frame, was: Design, d: Design, owner: seq<nat>, heavy: Heavy, h: nat) {
    forall i | 0 <= h <= i < |heavy| :: SamePocket(f, was, d, owner, heavy[i].0)
  }

  ghost predicate HandledUpTo(f: Frame, was: Design, before: seq<nat>, owner: seq<nat>, far: Dists, heavy: Heavy,
                              h: nat, picks: map<nat, nat>)
    requires Ready(f, was, before, owner, far)
  {
    h <= |heavy| && forall i | 0 <= i < h :: HandledAt(f, was, before, owner, far, picks, heavy[i].0)
  }

  ghost predicate HandledAt(f: Frame, was: Design, before: seq<nat>, owner: seq<nat>, far: Dists,
                            picks: map<nat, nat>, o: nat)
    requires Ready(f, was, before, owner, far)
  {
    o in owner && Handled(f, was, before, owner, far, picks, o)
  }

  /** The first `h` heavy pockets of a round have been handled, the others are as they were. */
  ghost predicate Rounding(f: Frame, was: Design, before: seq<nat>, owner: seq<nat>, far: Dists, heavy: Heavy, h: nat,
                           d: Design, log: Log)
    requires Ready(f, was, before, owner, far)
  {
    && FromPicks(f, log) && PickedAmong(heavy, h, log.picks)
    && Untouched(f, was, d, owner, heavy, h)
    && HandledUpTo(f, was, before, owner, far, heavy, h, log.picks)
  }

  ghost predicate Ascending(heavy: Heavy) {
    forall i, j | 0 <= i < j < |heavy| :: heavy[i].0 < heavy[j].0
  }

  lemma HandledKept(f: Frame, was: Design, before: seq<nat>, owner: seq<nat>, far: Dists, picks: map<nat, nat>,
                    o: nat, p: nat, l: nat)
    requires Ready(f, was, before, owner, far) && o != p && HandledAt(f, was, before, owner, far, picks, o)
    ensures HandledAt(f, was, before, owner, far, picks[p := l], o)
  {
  }

  lemma HandledUpToKept(f: Frame, was: Design, before: seq<nat>, owner: seq<nat>, far: Dists, heavy: Heavy, h: nat,
                        picks: map<nat, nat>, l: nat)
    requires Ready(f, was, before, owner, far) && h < |heavy| && Ascending(heavy)
    requires HandledUpTo(f, was, before, owner, far, heavy, h, picks)
    ensures HandledUpTo(f, was, before, owner, far, heavy, h, picks[heavy[h].0 := l])
  {
    forall i | 0 <= i < h
      ensures HandledAt(f, was, before, owner, far, picks[heavy[h].0 := l], heavy[i].0)
    {
      HandledKept(f, was, before, owner, far, picks, heavy[i].0, heavy[h].0, l);
    }
  }

  lemma NewPocket(heavy: Heavy, h: nat, picks: map<nat, nat>, l: nat)
    requires h < |heavy| && Ascending(heavy) && PickedAmong(heavy, h, picks)
    ensures forall o | o in picks :: o < heavy[h].0
    ensures PickedAmong(heavy, h + 1, picks) && PickedAmong(heavy, h + 1, picks[heavy[h].0 := l])
  {
  }

  lemma FromPicksMore(f: Frame, log: Log, o: nat, l: nat)
    requires FromPicks(f, log) && (forall p | p in log.picks :: p < o) && l < |f.members|
    ensures FromPicks(f, log.Add(f, o, l))
  {
    assert o !in log.picks;
    var more := log.Add(f, o, l);
    assert more.picks.Keys == log.picks.Keys + {o};
    assert |more.picks| == |more.picks.Keys| == |log.picks.Keys| + 1;
    forall i | 0 <= i < |more.pockets|
      ensures PickedAt(f, more, i)
    {
      assert i < |log.pockets| ==> PickedAt(f, log, i);
    }
    forall i, j | 0 <= i < j < |more.pockets|
      ensures more.pockets[i] < more.pockets[j]
    {
      assert PickedAt(f, log, i);
    }
  }

  lemma SamePocketFed(f: Frame, was: Design, d: Design, e: Design, owner: seq<nat>, o: nat, p: nat, l: nat)
    requires f.Valid() && SamePocket(f, was, d, owner, p) && o != p && l < |owner| == |f.members| && owner[l] == o
    requires d.points <= e.points && f.members[l] < |d.fed| && e.fed == (d.fed + [false])[f.members[l] := true]
    ensures SamePocket(f, was, e, owner, p)
  {
  }

  lemma UntouchedFed(f: Frame, was: Design, d: Design, e: Design, owner: seq<nat>, heavy: Heavy, h: nat, l: nat)
    requires f.Valid() && Untouched(f, was, d, owner, heavy, h) && h < |heavy| && Ascending(heavy)
    requires l < |owner| == |f.members| && owner[l] == heavy[h].0
    requires d.points <= e.points && f.members[l] < |d.fed| && e.fed == (d.fed + [false])[f.members[l] := true]
    ensures Untouched(f, was, e, owner, heavy, h + 1)
  {
    forall i | h + 1 <= i < |heavy|
      ensures SamePocket(f, was, e, owner, heavy[i].0)
    {
      SamePocketFed(f, was, d, e, owner, heavy[h].0, heavy[i].0, l);
    }
  }

  /** How a round treated pocket `o`, on the way from `d` to `e`. */
  ghost predicate Treated(f: Frame, was: Design, before: seq<nat>, owner: seq<nat>, far: Dists, o: nat, byLoad: bool,
                          d: Design, e: Design, pick: Option<nat>)
    requires Ready(f, was, before, owner, far) && o < |before|
  {
    match pick
    case None => AllFed(f, was.fed, owner, o) && e == d
    case Some(l) =>
      && BestPick(f, was, before[o], owner, far, o, byLoad, l) && d.points <= e.points && |d.buses| <= |e.buses|
      && f.members[l] < |d.fed| && e.fed == (d.fed + [false])[f.members[l] := true]
  }

  lemma NoPick(f: Frame, was: Design, before: seq<nat>, owner: seq<nat>, far: Dists, heavy: Heavy, h: nat, d: Design,
               log: Log)
    requires Ready(f, was, before, owner, far) && h < |heavy| && Ascending(heavy) && heavy[h].0 in owner
    requires Rounding(f, was, before, owner, far, heavy, h, d, log) && AllFed(f, was.fed, owner, heavy[h].0)
    ensures Rounding(f, was, before, owner, far, heavy, h + 1, d, log)
  {
    NewPocket(heavy, h, log.picks, 0);
    assert HandledAt(f, was, before, owner, far, log.picks, heavy[h].0);
  }

  lemma OnePick(f: Frame, was: Design, before: seq<nat>, owner: seq<nat>, far: Dists, heavy: Heavy, h: nat, d: Design,
                e: Design, log: Log, l: nat)
    requires Ready(f, was, before, owner, far) && h < |heavy| && Ascending(heavy) && heavy[h].0 in owner
    requires heavy[h].1 <==> PocketLoad(f, owner, heavy[h].0) > f.cap
    requires Rounding(f, was, before, owner, far, heavy, h, d, log) && heavy[h].0 < |before|
    requires Treated(f, was, before, owner, far, heavy[h].0, heavy[h].1, d, e, Some(l)) && l < |f.members|
    ensures Rounding(f, was, before, owner, far, heavy, h + 1, e, log.Add(f, heavy[h].0, l))
  {
    var o := heavy[h].0;
    NewPocket(heavy, h, log.picks, l);
    FromPicksMore(f, log, o, l);
    UntouchedFed(f, was, d, e, owner, heavy, h, l);
    HandledUpToKept(f, was, before, owner, far, heavy, h, log.picks, l);
    assert HandledAt(f, was, before, owner, far, log.picks[o := l], o);
  }

  lemma AllHandled(f: Frame, was: Design, before: seq<nat>, owner: seq<nat>, far: Dists, heavy: Heavy, d: Design,
                   log: Log)
    requires Ready(f, was, before, owner, far) && HeavyUpTo(f, owner, far, heavy, |before|)
    requires Rounding(f, was, before, owner, far, heavy, |heavy|, d, log)
    ensures RoundPicks(f, was, before, owner, far, log.picks)
  {
    forall o: nat | OverLimit(f, owner, far, o)
      ensures Handled(f, was, before, owner, far, log.picks, o)
    {
      var l :| 0 <= l < |owner| && owner[l] == o;
      var i :| 0 <= i < |heavy| && heavy[i].0 == o;
      assert HandledAt(f, was, before, owner, far, log.picks, heavy[i].0);
    }
  }

  lemma AppendAssociates(a: seq<nat>, b: seq<nat>, c: seq<nat>)
    ensures (a + b) + c == a + (b + c)
  {
  }

  /** No pocket over its limits: the level is served. */
  lemma NoneOverLimit(f: Frame, owner: seq<nat>, far: Dists, n: nat)
    requires |owner| == |far| == |f.host| && HeavyUpTo(f, owner, far, [], n)
             && (forall l | 0 <= l < |owner| :: owner[l] < n)
    ensures AllServed(f, owner, far)
  {
    forall l | 0 <= l < |owner|
      ensures PocketLoad(f, owner, owner[l]) <= f.cap && AtMost(far[l], f.reach)
    {
      assert !OverLimit(f, owner, far, owner[l]);
    }
  }

  method FedMembers(f: Frame, d: Design) returns (sources: seq<nat>)
    requires f.Valid() && d.Valid() && f.Within(|d.buses|)
    ensures forall i, j | 0 <= i < j < |sources| :: sources[i] != sources[j]
    ensures forall s: nat :: s in sources <==> s in f.members && s < |d.fed| && d.fed[s]
  {
    sources := [];
    for l := 0 to |f.members|
      invariant forall i, j | 0 <= i < j < |sources| :: sources[i] != sources[j]
      invariant forall s: nat :: s in sources <==> s in f.members[..l] && s < |d.fed| && d.fed[s]
    {
      assert f.members[..l + 1] == f.members[..l] + [f.members[l]];
      assert f.members[l] !in f.members[..l];
      if d.fed[f.members[l]] {
        sources := sources + [f.members[l]];
      }
    }
    assert f.members[..|f.members|] == f.members;
  }

  ghost function Loads(buses: seq<Bus>): seq<real> {
    seq(|buses|, i requires 0 <= i < |buses| => buses[i].load)
  }

  /** Splitting neither adds nor loses load: the buses it adds carry none. */
  lemma {:induction false} LoadConserved(f: Frame, start: Design, d: Design, added: seq<nat>, nears: seq<nat>, n: nat)
    requires Extends(f, start, d, added, nears) && |start.buses| <= n <= |d.buses|
    ensures Sum(Loads(d.buses[..n])) == Sum(Loads(start.buses))
    decreases n
  {
    if n == |start.buses| {
      assert d.buses[..n] == start.buses;
    } else {
      var k := n - 1 - |start.buses|;
      LoadConserved(f, start, d, added, nears, n - 1);
      assert FedFromAbove(f, start, d, k, added[k], nears[k]);
      assert Loads(d.buses[..n])[..n - 1] == Loads(d.buses[..n - 1]);
    }
  }

  /** Every added source is joined, through its new bus, to the nearest bus of the
      level above; the new bus is of that level, at the source's site, `offsetKm`
      north of it, and carries no load. */
  lemma AddedSourceIsJoined(f: Frame, start: Design, d: Design, added: seq<nat>, nears: seq<nat>, k: nat)
    requires Extends(f, start, d, added, nears) && k < |added|
    ensures nears[k] in f.upper && Connected(d.edges + (set t | t in d.transformers), added[k], nears[k])
    ensures |start.buses| + k < |d.buses| && added[k] < |start.buses| && nears[k] < |start.buses|
    ensures var (up, v, near) := (d.buses[|start.buses| + k], start.buses[added[k]], start.buses[nears[k]]);
            && up.tier == near.tier && up.kv == near.kv && up.island == near.island && up.site == v.site
            && up.lon == v.lon && (up.lat - v.lat) * 111.0 == f.offsetKm && up.load == 0.0
  {
    assert FedFromAbove(f, start, d, k, added[k], nears[k]);
    var all, up := d.edges + (set t | t in d.transformers), |start.buses| + k;
    assert d.transformers[|start.transformers| + k] in d.transformers;
    assert Link(up, nears[k]) in TapLines(|start.buses|, nears);
    var t := Step(Step(Here(added[k]), up), nears[k]);
    assert t.Start() == t.prefix.Start() == t.prefix.prefix.Start() == added[k];
    assert Joins(all, t, added[k], nears[k]);
  }

  /** No member is farther than its exact distance to the sources `first`. */
  ghost predicate NeverFarther(f: Frame, first: seq<nat>, far: Dists)
    requires |far| == f.g.n
  {
    forall e: Dists, v: nat | Exact(f.g, f.At(first).SourceNodes(), e) && v < f.g.n && e[v].Some? ::
      AtMost(far[v], e[v].value)
  }

  /** The state between two rounds. */
  datatype Snapshot = Snapshot(d: Design, sources: seq<nat>, nears: seq<nat>, owner: seq<nat>, far: Dists)

  /** The design is the first one and the buses added, its fed members are the
      sources, and owners and distances are exact for them. */
  ghost predicate SnapshotOk(f: Frame, start: Design, first: seq<nat>, s: Snapshot) {
    && first <= s.sources && Extends(f, start, s.d, s.sources[|first|..], s.nears)
    && SourcesAreFed(f, start, s.d, s.sources) && Carved(f, s.sources, s.owner, s.far)
  }

  /** A round leads from `s` to `t`: some pocket was over its limits, and exactly
      those that were and had an unfed member were split, as the log says. */
  ghost predicate RoundMade(f: Frame, s: Snapshot, log: Log, t: Snapshot) {
    && Ready(f, s.d, s.sources, s.owner, s.far) && f.upper != [] && !AllServed(f, s.owner, s.far)
    && RoundPicks(f, s.d, s.sources, s.owner, s.far, log.picks) && FromPicks(f, log)
    && t.sources == s.sources + log.added
  }

  /** The rounds made, from the first carving on. */
  ghost predicate History(f: Frame, start: Design, first: seq<nat>, history: seq<Snapshot>, logs: seq<Log>) {
    && |history| == |logs| + 1 && history[0].d == start && history[0].sources == first
    && AllSnapshotsOk(f, start, first, history) && AllRoundsMade(f, history, logs)
  }

  ghost predicate AllSnapshotsOk(f: Frame, start: Design, first: seq<nat>, history: seq<Snapshot>) {
    forall k: nat | k < |history| :: SnapshotOk(f, start, first, history[k])
  }

  ghost predicate AllRoundsMade(f: Frame, history: seq<Snapshot>, logs: seq<Log>) {
    |history| == |logs| + 1 && forall k: nat | k < |logs| :: RoundAt(f, history, logs, k)
  }

  ghost predicate RoundAt(f: Frame, history: seq<Snapshot>, logs: seq<Log>, k: nat)
    requires k < |logs| && k + 1 < |history|
  {
    RoundMade(f, history[k], logs[k], history[k + 1])
  }

  /** Member `l` is where pocket `o` is split: of its unfed members the one with the
      most load times distance when it is too heavy, the farthest along the graph
      when it is only too long, and the first of equals. */
  ghost predicate SplitAt(f: Frame, s: Snapshot, o: nat, l: nat)
    requires Ready(f, s.d, s.sources, s.owner, s.far) && o < |s.sources|
  {
    && Unfed(f, s, o, l)
    && forall k: nat | Unfed(f, s, o, k) ::
         var src := s.d.points[s.sources[o]];
         var x := f.host[k] * f.dist(s.d.points[f.members[k]], src);
         var y := f.host[l] * f.dist(s.d.points[f.members[l]], src);
         if PocketLoad(f, s.owner, o) > f.cap then x < y || (x == y && l <= k)
         else if s.far[l].None? then s.far[k].Some? || l <= k
         else s.far[k].Some? && (s.far[k].value < s.far[l].value || (s.far[k] == s.far[l] && l <= k))
  }

  ghost predicate Unfed(f: Frame, s: Snapshot, o: nat, k: nat)
    requires Ready(f, s.d, s.sources, s.owner, s.far)
  {
    k < |s.owner| && s.owner[k] == o && !s.d.fed[f.members[k]]
  }

  /** Whatever a round splits, it splits there, and feeds that member. */
  lemma RoundSplitsAt(f: Frame, s: Snapshot, log: Log, t: Snapshot, i: nat)
    requires RoundMade(f, s, log, t) && i < |log.pockets|
    ensures var o := log.pockets[i];
            && o in log.picks && OverLimit(f, s.owner, s.far, o) && SplitAt(f, s, o, log.picks[o])
            && |s.sources| + i < |t.sources| && t.sources[|s.sources| + i] == f.members[log.picks[o]]
  {
    var o := log.pockets[i];
    assert PickedAt(f, log, i) && Handled(f, s.d, s.sources, s.owner, s.far, log.picks, o);
    var l, byLoad := log.picks[o], PocketLoad(f, s.owner, o) > f.cap;
    forall k: nat | Unfed(f, s, o, k)
      ensures var (x, y) := (Key(f, s.d.points, s.sources[o], s.far, byLoad, k),
                             Key(f, s.d.points, s.sources[o], s.far, byLoad, l));
              Over(y, x) || (x == y && l <= k)
    {
      assert Splittable(f, s.d.fed, s.owner, o, k);
    }
  }

  /** ... and a pocket over its limits is passed over only when all of it is fed. */
  lemma RoundPassesOver(f: Frame, s: Snapshot, log: Log, t: Snapshot, o: nat, k: nat)
    requires RoundMade(f, s, log, t) && OverLimit(f, s.owner, s.far, o) && Unfed(f, s, o, k)
    ensures o in log.picks && o in log.pockets
  {
    assert Handled(f, s.d, s.sources, s.owner, s.far, log.picks, o);
    assert Splittable(f, s.d.fed, s.owner, o, k);
    PicksListed(f, log, o);
  }

  lemma {:induction false} PicksListed(f: Frame, log: Log, o: nat)
    requires FromPicks(f, log) && o in log.picks
    ensures o in log.pockets
  {
    var listed := Members(log.pockets);
    SizeOfAscending(log.pockets);
    forall p | p in listed
      ensures p in log.picks
    {
      var i :| 0 <= i < |log.pockets| && log.pockets[i] == p;
      assert PickedAt(f, log, i);
    }
    assert |log.picks.Keys| == |log.picks|;
    if o !in listed {
      SubsetSize(listed + {o}, log.picks.Keys);
    }
  }

  lemma {:induction false} SizeOfAscending(s: seq<nat>)
    requires forall i, j | 0 <= i < j < |s| :: s[i] < s[j]
    ensures |Members(s)| == |s|
  {
    if s == [] {
      assert Members(s) == {};
    } else {
      var n := |s| - 1;
      SizeOfAscending(s[..n]);
      assert s == s[..n] + [s[n]];
      assert Members(s) == Members(s[..n]) + {s[n]};
    }
  }

  ghost function Members(s: seq<nat>): set<nat> {
    set x | x in s
  }

  lemma SubsetSize(a: set<nat>, b: set<nat>)
    requires a <= b
    ensures |a| <= |b|
  {
    assert b == a + (b - a);
  }

  lemma RoundsMore(f: Frame, history: seq<Snapshot>, logs: seq<Log>, log: Log, t: Snapshot)
    requires AllRoundsMade(f, history, logs) && RoundMade(f, history[|logs|], log, t)
    ensures AllRoundsMade(f, history + [t], logs + [log])
  {
    var more, all := history + [t], logs + [log];
    forall k: nat | k < |all|
      ensures RoundAt(f, more, all, k)
    {
      if k < |logs| {
        assert RoundAt(f, history, logs, k);
        assert more[k] == history[k] && more[k + 1] == history[k + 1] && all[k] == logs[k];
      }
    }
  }

  lemma SnapshotsMore(f: Frame, start: Design, first: seq<nat>, history: seq<Snapshot>, t: Snapshot)
    requires AllSnapshotsOk(f, start, first, history) && SnapshotOk(f, start, first, t)
    ensures AllSnapshotsOk(f, start, first, history + [t])
  {
    var more := history + [t];
    forall k: nat | k < |more|
      ensures SnapshotOk(f, start, first, more[k])
    {
      assert more[k] == if k < |history| then history[k] else t;
    }
  }

  lemma HistoryMore(f: Frame, start: Design, first: seq<nat>, history: seq<Snapshot>, logs: seq<Log>, log: Log,
                    t: Snapshot)
    requires History(f, start, first, history, logs) && SnapshotOk(f, start, first, t)
    requires RoundMade(f, history[|logs|], log, t)
    ensures History(f, start, first, history + [t], logs + [log])
  {
    SnapshotsMore(f, start, first, history, t);
    RoundsMore(f, history, logs, log, t);
  }

  lemma HeavyNotServed(f: Frame, owner: seq<nat>, far: Dists, heavy: Heavy, n: nat)
    requires |owner| == |far| == |f.host| && HeavyUpTo(f, owner, far, heavy, n) && heavy != []
    ensures !AllServed(f, owner, far)
  {
    var o := heavy[0].0;
    assert OverLimit(f, owner, far, o);
    var l :| 0 <= l < |owner| && owner[l] == o;
  }

  /** Splitting one level. */
  class Splitter {
    const f: Frame
    var d: Design
    var sources: seq<nat>
    var owner: seq<nat>
    var far: Dists
    ghost const start: Design
    ghost const first: seq<nat>
    ghost var nears: seq<nat>

    ghost predicate Grown()
      reads this
    {
      && f.Valid() && start.Valid() && f.Within(|start.buses|)
      && |first| > 0 && first <= sources
      && Extends(f, start, d, sources[|first|..], nears)
      && SourcesAreFed(f, start, d, sources)
    }

    ghost predicate Valid()
      reads this
    {
      Grown() && Carved(f, sources, owner, far)
    }

    ghost function Now(): Snapshot
      reads this
    {
      Snapshot(d, sources, nears, owner, far)
    }

    /** The fed members of a level are its first sources. */
    constructor (f: Frame, d: Design)
      requires f.Valid() && d.Valid() && f.Within(|d.buses|)
      requires exists i :: 0 <= i < |f.members| && d.fed[f.members[i]]
      ensures Grown() && this.f == f && this.d == d && start == d && sources == first
    {
      var fed := FedMembers(f, d);
      this.f, this.d, this.start := f, d, d;
      sources, first := fed, fed;
      owner, far, nears := [], [], [];
      assert fed[|fed|..] == [];
      assert TapLines(|d.buses|, []) == {};
    }

    /** The fed members, taken again after splitting, are the sources. */
    method Protected() returns (again: seq<nat>)
      requires Valid()
      ensures forall i, j | 0 <= i < j < |again| :: again[i] != again[j]
      ensures forall s :: s in again <==> s in sources
    {
      again := FedMembers(f, d);
    }

    /** Feed member `l` from a new bus of the level above. */
    method Feed(l: nat)
      requires Grown() && |f.upper| > 0 && l < |f.members| && f.members[l] < |d.fed| && !d.fed[f.members[l]]
      modifies this`d, this`sources, this`nears
      ensures Grown() && sources == old(sources) + [f.members[l]]
      ensures d.fed == (old(d.fed) + [false])[f.members[l] := true]
      ensures old(d.points) <= d.points && |old(d.buses)| <= |d.buses|
    {
      var v := f.members[l];
      assert f.members[l] < |start.buses|;
      var near := NearestUpper(f, d.points, v);
      var up := |d.buses|;
      var bus := f.Copy(d.buses, v, near);
      ghost var was := d;
      NearestKept(f, start, d, v, near);
      SplitFeeds(f, start, d, sources, v);
      d := Design(d.buses + [bus], d.points + [f.project(bus.lon, bus.lat)], (d.fed + [false])[v := true],
                  d.transformers + [Link(v, up)], d.edges + {Link(up, near)});
      SplitExtends(f, start, was, d, sources[|first|..], nears, v, near);
      assert (sources + [v])[|first|..] == sources[|first|..] + [v];
      sources := sources + [v];
      nears := nears + [near];
    }

    lemma ValidIsReady()
      requires Valid()
      ensures Ready(f, d, sources, owner, far)
    {
      forall i | 0 <= i < |sources|
        ensures sources[i] < |d.buses|
      {
        assert sources[i] in f.members;
      }
    }

    /** The member a pocket is split at, as it was when the round began. */
    method Choose(o: nat, byLoad: bool, ghost was: Design, ghost before: seq<nat>) returns (pick: Option<nat>)
      requires Grown() && Ready(f, was, before, owner, far) && before <= sources && o < |before|
      requires SamePocket(f, was, d, owner, o)
      ensures match pick
              case None => AllFed(f, was.fed, owner, o)
              case Some(l) => BestPick(f, was, before[o], owner, far, o, byLoad, l) && f.members[l] < |d.fed|
                              && !d.fed[f.members[l]]
    {
      assert sources[o] == before[o];
      pick := PickMember(f, d, sources[o], owner, far, o, byLoad);
      PickTransfers(f, was, d, sources[o], owner, far, o, byLoad, pick);
    }

    /** Split one pocket over its limits, unless all of it is fed. */
    method SplitPocket(o: nat, byLoad: bool, ghost was: Design, ghost before: seq<nat>) returns (pick: Option<nat>)
      requires Grown() && |f.upper| > 0 && Ready(f, was, before, owner, far) && before <= sources && o < |before|
      requires SamePocket(f, was, d, owner, o)
      modifies this`d, this`sources, this`nears
      ensures Grown()
      ensures Treated(f, was, before, owner, far, o, byLoad, old(d), d, pick)
      ensures pick.None? ==> sources == old(sources)
      ensures pick.Some? ==> pick.value < |f.members| && sources == old(sources) + [f.members[pick.value]]
    {
      pick := Choose(o, byLoad, was, before);
      if pick.Some? {
        Feed(pick.value);
      }
    }

    method HandlePocket(o: nat, byLoad: bool, ghost was: Design, ghost before: seq<nat>, ghost heavy: Heavy,
                        ghost h: nat, ghost log0: Log)
      returns (ghost log: Log)
      requires Grown() && |f.upper| > 0 && Ready(f, was, before, owner, far) && sources == before + log0.added
      requires h < |heavy| && heavy[h] == (o, byLoad) && HeavyUpTo(f, owner, far, heavy, |before|)
      requires Rounding(f, was, before, owner, far, heavy, h, d, log0)
      modifies this`d, this`sources, this`nears
      ensures Grown() && sources == before + log.added
      ensures Rounding(f, was, before, owner, far, heavy, h + 1, d, log)
    {
      ghost var prior := d;
      var pick := SplitPocket(o, byLoad, was, before);
      log := log0;
      if pick.None? {
        NoPick(f, was, before, owner, far, heavy, h, d, log0);
      } else {
        var l := pick.value;
        OnePick(f, was, before, owner, far, heavy, h, prior, d, log0, l);
        log := log0.Add(f, o, l);
        AppendAssociates(before, log0.added, [f.members[l]]);
      }
    }

    /** Split every pocket over its limits, once each, or stop. */
    method Round() returns (done: bool, ghost log: Log)
      requires Valid()
      modifies this`d, this`sources, this`nears
      ensures Grown() && Ready(f, old(d), old(sources), owner, far) && sources == old(sources) + log.added
      ensures done ==> d == old(d) && log.added == [] && nears == old(nears)
                       && (f.upper == [] || AllServed(f, owner, far))
      ensures !done ==> RoundPicks(f, old(d), old(sources), owner, far, log.picks) && FromPicks(f, log)
      ensures !done ==> f.upper != [] && !AllServed(f, owner, far)
    {
      log := Log([], map[], []);
      ValidIsReady();
      CarvedNotNegative(f, sources, owner, far);
      var heavy := HeavyPockets(f, owner, far, |sources|);
      done := |heavy| == 0 || |f.upper| == 0;
      if done {
        if |heavy| == 0 {
          NoneOverLimit(f, owner, far, |sources|);
        }
        return;
      }
      HeavyNotServed(f, owner, far, heavy, |sources|);
      ghost var was, before := d, sources;
      for h := 0 to |heavy|
        invariant Grown() && sources == before + log.added
        invariant Rounding(f, was, before, owner, far, heavy, h, d, log)
      {
        var (o, byLoad) := heavy[h];
        log := HandlePocket(o, byLoad, was, before, heavy, h, log);
      }
      AllHandled(f, was, before, owner, far, heavy, d, log);
    }

    /** Carve the level into the pockets of its present sources. */
    method Carve()
      requires Grown()
      modifies this`owner, this`far
      ensures Valid()
    {
      assert f.At(sources).Valid();
      owner, far := PocketsWithDistance(f.At(sources));
      forall l | 0 <= l < |owner|
        ensures owner[l] < |sources|
      {
        if far[l].Some? {
          var p :| PocketPath(f.At(sources), owner, far, l, p);
        }
      }
    }

    method RoundAndCarve() returns (done: bool, ghost log: Log)
      requires Valid()
      modifies this
      ensures Valid()
      ensures done ==> Now() == old(Now()) && (f.upper == [] || AllServed(f, owner, far))
      ensures !done ==> RoundMade(f, old(Now()), log, Now())
    {
      done, log := Round();
      if !done {
        Carve();
      } else {
        assert sources == old(sources);
      }
    }

    /** Split round by round, at most `ROUNDS` times, as the history says: every round
        splits exactly the pockets it should. What was fed stays fed, no member ends
        farther from a source than it began, and stopping early means that every
        pocket is within its limits or that there is no level above. */
    method Run() returns (rounds: nat, ghost history: seq<Snapshot>, ghost logs: seq<Log>)
      requires Grown() && sources == first && d == start
      modifies this
      ensures Valid() && rounds <= 24
      ensures History(f, start, first, history, logs) && |logs| == rounds && history[rounds] == Now()
      ensures rounds < 24 ==> f.upper == [] || AllServed(f, owner, far)
      ensures NeverFarther(f, first, far)
    {
      Carve();
      rounds, history, logs := 0, [Now()], [];
      while rounds < ROUNDS
        invariant Valid() && rounds <= ROUNDS
        invariant History(f, start, first, history, logs) && |logs| == rounds && history[rounds] == Now()
      {
        ghost var log;
        var done;
        done, log := RoundAndCarve();
        if done {
          break;
        }
        HistoryMore(f, start, first, history, logs, log, Now());
        history, logs := history + [Now()], logs + [log];
        rounds := rounds + 1;
      }
      MoreNeverFarther();
    }

    lemma MoreNeverFarther()
      requires Valid()
      ensures NeverFarther(f, first, far)
    {
      assert forall s | s in first :: s in sources;
      forall e: Dists, v: nat | Exact(f.g, f.At(first).SourceNodes(), e) && v < f.g.n && e[v].Some?
        ensures AtMost(far[v], e[v].value)
      {
        MoreSourcesNeverFarther(f.g, f.At(first).SourceNodes(), f.At(sources).SourceNodes(), e, far, v);
      }
    }
  }
}
