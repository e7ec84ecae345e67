/**
 Siting of a hierarchical network: every level ends with exactly the buses it
 was given, some standing alone and some stepped down at the sites of higher
 levels, and no site has two buses of one level.
 */
module Siting {
  import opened Options
  import opened Geometry
  import opened Quotas
  import opened LevelCounts

  // ------------------------------------------------------------ planning the steps

  /** The `k`th entry of a per-level list, or its last entry beyond it. */
  function PerLevel(list: seq<real>, k: nat): real {
    if k < |list| then list[k] else if list != [] then list[|list| - 1] else 0.0
  }

  /** Rounding to a count: what is negative becomes none. */
  function RoundCount(x: real): nat {
    var r := Round(x);
    if r < 0 then 0 else r
  }

  function Least(a: nat, b: nat): nat {
    if a < b then a else b
  }

  /** Step-downs level `j` has received from the levels above `k`. */
  ghost function Received(down: seq<nat>, skip: seq<nat>, j: nat, k: nat): nat {
    (if 1 <= j <= k && j - 1 < |down| then down[j - 1] else 0)
    + (if 2 <= j && j - 2 < k && j - 2 < |skip| then skip[j - 2] else 0)
  }

  /** Levels before `k` are planned: no level steps down more buses than it has or
      receives more than it wants. */
  ghost predicate Planned(want: seq<nat>, down: seq<nat>, skip: seq<nat>, colocated: seq<nat>, k: nat) {
    && |down| == |skip| == |colocated| == |want|
    && (forall j: nat | j < |want| :: StepsFit(want, down, skip, k, j))
    && (forall j: nat | j < |want| :: Receives(want, down, skip, colocated, k, j))
  }

  ghost predicate StepsFit(want: seq<nat>, down: seq<nat>, skip: seq<nat>, k: nat, j: nat)
    requires j < |down| == |skip| == |want|
  {
    down[j] + skip[j] <= want[j] && (j >= k ==> down[j] == skip[j] == 0) && (j + 1 >= |want| ==> down[j] == 0)
    && (j + 2 >= |want| ==> skip[j] == 0)
  }

  ghost predicate Receives(want: seq<nat>, down: seq<nat>, skip: seq<nat>, colocated: seq<nat>, k: nat, j: nat)
    requires j < |colocated| == |want|
  {
    colocated[j] == Received(down, skip, j, k) <= want[j]
  }

  /** A level's share, rounded. */
  function ShareCount(per: seq<real>, want: seq<nat>, k: nat): nat
    requires k < |want|
  {
    RoundCount(PerLevel(per, k) * want[k] as real)
  }

  function Room(want: nat, taken: nat): nat {
    if want > taken then want - taken else 0
  }

  /** Level `j` steps down its rounded share, as far as it has buses and the next
      level has room beside what skips to it; and past it what is left of its share. */
  ghost predicate Rounded(want: seq<nat>, perDown: seq<real>, perSkip: seq<real>, down: seq<nat>, skip: seq<nat>,
                          j: nat)
    requires j < |down| == |skip| == |want|
  {
    && down[j] == (if j + 1 >= |want| then 0 else
                   Least(Least(ShareCount(perDown, want, j), want[j]),
                         Room(want[j + 1], if j > 0 then skip[j - 1] else 0)))
    && skip[j] == (if j + 2 >= |want| then 0 else
                   Least(Least(ShareCount(perSkip, want, j), Room(want[j], down[j])), want[j + 2]))
  }

  ghost predicate AllRounded(want: seq<nat>, perDown: seq<real>, perSkip: seq<real>, down: seq<nat>, skip: seq<nat>,
                             k: nat)
    requires |down| == |skip| == |want|
  {
    forall j: nat | j < k && j < |want| :: Rounded(want, perDown, perSkip, down, skip, j)
  }

  /** `x` is the `k`th entry of a per-level list: its last one beyond it, none if it is empty. */
  ghost predicate EntryIs(list: seq<real>, k: nat, x: real) {
    (k < |list| && x == list[k]) || (0 < |list| <= k && x == list[|list| - 1]) || (list == [] && x == 0.0)
  }

  /** `r` is `x` times `have` rounded to the nearest count, halves up, none if negative. */
  ghost predicate NearestCount(x: real, have: nat, r: nat) {
    var y := x * have as real;
    (r == 0 && y < 0.5) || r as real - 0.5 <= y < r as real + 0.5
  }

  /** `d` is the rounded share of `have` buses that list gives level `k`, as far as
      `most` and `room` allow. */
  ghost predicate IsShare(list: seq<real>, k: nat, have: nat, most: nat, room: nat, d: nat) {
    d <= most && d <= room && exists x: real, r: nat :: EntryIs(list, k, x) && NearestCount(x, have, r)
                                                        && d <= r && (d == r || d == most || d == room)
  }

  /** The plan of level `j`: it steps down its share to the next level, as far as it
      has buses and that level has room beside what skips to it from two above; and of
      the buses left its share past the next level, as far as there is room. */
  ghost predicate PlannedAt(want: seq<nat>, perDown: seq<real>, perSkip: seq<real>, down: seq<nat>, skip: seq<nat>,
                            j: nat)
    requires j < |down| == |skip| == |want|
  {
    && (if j + 1 >= |want| then down[j] == 0 else
        (j > 0 ==> skip[j - 1] <= want[j + 1])
        && IsShare(perDown, j, want[j], want[j], want[j + 1] - if j > 0 then skip[j - 1] else 0, down[j]))
    && (if j + 2 >= |want| then skip[j] == 0 else
        down[j] <= want[j] && IsShare(perSkip, j, want[j], want[j] - down[j], want[j + 2], skip[j]))
  }

  lemma ShareIs(list: seq<real>, want: seq<nat>, k: nat, most: nat, room: nat)
    requires k < |want|
    ensures IsShare(list, k, want[k], most, room, Least(Least(ShareCount(list, want, k), most), room))
  {
    assert EntryIs(list, k, PerLevel(list, k));
    assert NearestCount(PerLevel(list, k), want[k], ShareCount(list, want, k));
  }

  /** Every level is planned so. */
  lemma PlanMeans(want: seq<nat>, perDown: seq<real>, perSkip: seq<real>, down: seq<nat>, skip: seq<nat>,
                  colocated: seq<nat>)
    requires Planned(want, down, skip, colocated, |want|)
    requires AllRounded(want, perDown, perSkip, down, skip, |want|)
    ensures forall j: nat | j < |want| :: PlannedAt(want, perDown, perSkip, down, skip, j)
  {
    forall j: nat | j < |want|
      ensures PlannedAt(want, perDown, perSkip, down, skip, j)
    {
      assert Rounded(want, perDown, perSkip, down, skip, j) && StepsFit(want, down, skip, |want|, j);
      if j + 1 < |want| {
        assert Receives(want, down, skip, colocated, |want|, j + 1);
        ShareIs(perDown, want, j, want[j], want[j + 1] - if j > 0 then skip[j - 1] else 0);
      }
      if j + 2 < |want| {
        ShareIs(perSkip, want, j, want[j] - down[j], want[j + 2]);
      }
    }
  }

  /** One level's step-downs: to the next level, and past it. */
  method PlanLevel(want: seq<nat>, perDown: seq<real>, perSkip: seq<real>, k: nat, down0: seq<nat>, skip0: seq<nat>,
                   col0: seq<nat>)
    returns (down: seq<nat>, skip: seq<nat>, colocated: seq<nat>)
    requires Planned(want, down0, skip0, col0, k) && k < |want| && AllRounded(want, perDown, perSkip, down0, skip0, k)
    ensures Planned(want, down, skip, colocated, k + 1) && AllRounded(want, perDown, perSkip, down, skip, k + 1)
  {
    down, skip, colocated := down0, skip0, col0;
    assert StepsFit(want, down0, skip0, k, k);
    if k + 1 < |want| {
      assert Receives(want, down0, skip0, col0, k, k + 1);
      var n := Least(Least(ShareCount(perDown, want, k), want[k]), Room(want[k + 1], colocated[k + 1]));
      down := down[k := n];
      colocated := colocated[k + 1 := colocated[k + 1] + n];
    }
    if k + 2 < |want| {
      assert Receives(want, down0, skip0, col0, k, k + 2);
      var n := Least(Least(ShareCount(perSkip, want, k), want[k] - down[k]), Room(want[k + 2], colocated[k + 2]));
      skip := skip[k := n];
      colocated := colocated[k + 2 := colocated[k + 2] + n];
    }
    PlanKeeps(want, k, down0, skip0, col0, down, skip, colocated);
    PlanRounds(want, perDown, perSkip, k, down0, skip0, down, skip);
  }

  /** Levels above and below `k` keep their plan; `k` has its own. */
  lemma PlanKeeps(want: seq<nat>, k: nat, down0: seq<nat>, skip0: seq<nat>, col0: seq<nat>, down: seq<nat>,
                  skip: seq<nat>, colocated: seq<nat>)
    requires Planned(want, down0, skip0, col0, k) && k < |want|
    requires |down| == |skip| == |colocated| == |want| && down0 == down[k := 0] && skip0 == skip[k := 0]
    requires down[k] + skip[k] <= want[k] && (k + 1 >= |want| ==> down[k] == 0) && (k + 2 >= |want| ==> skip[k] == 0)
    requires forall j: nat | j < |want| ::
               colocated[j] == col0[j] + (if j == k + 1 then down[k] else 0) + (if j == k + 2 then skip[k] else 0)
    requires (k + 1 < |want| ==> colocated[k + 1] <= want[k + 1])
             && (k + 2 < |want| ==> colocated[k + 2] <= want[k + 2])
    ensures Planned(want, down, skip, colocated, k + 1)
  {
    var next := k + 1;
    forall j: nat | j < |want|
      ensures StepsFit(want, down, skip, next, j)
    {
      assert StepsFit(want, down0, skip0, k, j);
    }
    forall j: nat | j < |want|
      ensures Receives(want, down, skip, colocated, next, j)
    {
      assert Receives(want, down0, skip0, col0, k, j);
    }
  }

  lemma PlanRounds(want: seq<nat>, perDown: seq<real>, perSkip: seq<real>, k: nat, down0: seq<nat>, skip0: seq<nat>,
                   down: seq<nat>, skip: seq<nat>)
    requires |down| == |skip| == |want| && k < |want| && down0 == down[k := 0] && skip0 == skip[k := 0]
    requires AllRounded(want, perDown, perSkip, down0, skip0, k) && Rounded(want, perDown, perSkip, down, skip, k)
    ensures AllRounded(want, perDown, perSkip, down, skip, k + 1)
  {
    forall j: nat | j < k + 1
      ensures Rounded(want, perDown, perSkip, down, skip, j)
    {
      assert j < k ==> Rounded(want, perDown, perSkip, down0, skip0, j);
    }
  }

  method PlanSteps(want: seq<nat>, stepDown: seq<real>, stepSkip: seq<real>)
    returns (down: seq<nat>, skip: seq<nat>, colocated: seq<nat>)
    ensures Planned(want, down, skip, colocated, |want|) && AllRounded(want, stepDown, stepSkip, down, skip, |want|)
    ensures forall j: nat | j < |want| :: PlannedAt(want, stepDown, stepSkip, down, skip, j)
  {
    down, skip, colocated := seq(|want|, _ => 0), seq(|want|, _ => 0), seq(|want|, _ => 0);
    for k := 0 to |want|
      invariant Planned(want, down, skip, colocated, k) && AllRounded(want, stepDown, stepSkip, down, skip, k)
    {
      down, skip, colocated := PlanLevel(want, stepDown, stepSkip, k, down, skip, colocated);
    }
    PlanMeans(want, stepDown, stepSkip, down, skip, colocated);
  }

  // ------------------------------------------------------------ levels of the standalone sites

  type Levels = seq<Option<nat>>

  ghost function Count(levels: Levels, k: nat): nat {
    multiset(levels)[Some(k)]
  }

  ghost function Open(levels: Levels): nat {
    multiset(levels)[None]
  }

  /** `levels` is `was` with `taken` open candidates given level `k`. */
  ghost predicate Taken(was: Levels, levels: Levels, k: nat, taken: nat) {
    && |levels| == |was| && Open(levels) + taken == Open(was) && Count(levels, k) == Count(was, k) + taken
    && (forall j: nat | j != k :: Count(levels, j) == Count(was, j))
  }

  lemma TakeOne(was: Levels, levels: Levels, k: nat, taken: nat, i: nat)
    requires Taken(was, levels, k, taken) && i < |levels| && levels[i].None?
    ensures Taken(was, levels[i := Some(k)], k, taken + 1)
  {
  }

  /** `levels` is `was` with the open candidates `picks`, in order, given level `k`. */
  ghost predicate GivenTo(was: Levels, levels: Levels, k: nat, picks: seq<nat>) {
    && |levels| == |was| && (forall i, j | 0 <= i < j < |picks| :: picks[i] < picks[j])
    && (forall p | 0 <= p < |picks| :: picks[p] < |was| && was[picks[p]].None?)
    && (forall i: nat | i < |was| :: levels[i] == if i in picks then Some(k) else was[i])
  }

  /** `j` was passed over: all that are wanted were found before it, or it is too near
      to one found before it. */
  ghost predicate PassedOver(dist: Metric, xy: seq<Point>, spacing: real, picks: seq<nat>, full: bool, j: nat)
    requires j < |xy|
  {
    || (full && forall p | 0 <= p < |picks| :: picks[p] < j)
    || exists p :: 0 <= p < |picks| && picks[p] < j && dist(xy[picks[p]], xy[j]) < spacing
  }

  /** The first pass, over the first `n` candidates: open ones in order, each at least
      the spacing from those before it, up to the count, and no other is passed over. */
  ghost predicate SpreadPass(dist: Metric, xy: seq<Point>, spacing: real, count: nat, was: Levels, picks: seq<nat>,
                             n: nat)
    requires n <= |xy| == |was| && forall p | 0 <= p < |picks| :: picks[p] < |xy|
  {
    && |picks| <= count && (forall p | 0 <= p < |picks| :: picks[p] < n)
    && (forall p, q | 0 <= p < q < |picks| :: dist(xy[picks[p]], xy[picks[q]]) >= spacing)
    && (forall j: nat | j < n && was[j].None? && j !in picks ::
          PassedOver(dist, xy, spacing, picks, |picks| == count, j))
  }

  /** The second pass: open candidates in order until the count is reached. */
  ghost predicate FillPass(was: Levels, picks: seq<nat>, count: nat, n: nat)
    requires n <= |was|
  {
    && |picks| <= count && (forall p | 0 <= p < |picks| :: picks[p] < n)
    && (forall j: nat | j < n && was[j].None? && j !in picks ::
          |picks| == count && forall p | 0 <= p < |picks| :: picks[p] < j)
  }

  lemma GiveOne(was: Levels, levels: Levels, k: nat, picks: seq<nat>, i: nat)
    requires GivenTo(was, levels, k, picks) && i < |was| && was[i].None? && forall p | 0 <= p < |picks| :: picks[p] < i
    ensures GivenTo(was, levels[i := Some(k)], k, picks + [i])
  {
    assert forall j :: j in picks + [i] <==> j in picks || j == i;
  }

  lemma SpreadOne(dist: Metric, xy: seq<Point>, spacing: real, count: nat, was: Levels, picks: seq<nat>, n: nat)
    requires n < |xy| == |was| && (forall p | 0 <= p < |picks| :: picks[p] < |xy|)
    requires SpreadPass(dist, xy, spacing, count, was, picks, n) && |picks| < count
    requires forall p | 0 <= p < |picks| :: dist(xy[picks[p]], xy[n]) >= spacing
    ensures SpreadPass(dist, xy, spacing, count, was, picks + [n], n + 1)
  {
    var more := picks + [n];
    forall j: nat | j < n + 1 && was[j].None? && j !in more
      ensures PassedOver(dist, xy, spacing, more, |more| == count, j)
    {
      assert j !in picks && j < n;
      var p :| 0 <= p < |picks| && picks[p] < j && dist(xy[picks[p]], xy[j]) < spacing;
      assert more[p] == picks[p];
    }
  }

  lemma SpreadSkip(dist: Metric, xy: seq<Point>, spacing: real, count: nat, was: Levels, picks: seq<nat>, n: nat)
    requires n < |xy| == |was| && (forall p | 0 <= p < |picks| :: picks[p] < |xy|) && n !in picks
    requires SpreadPass(dist, xy, spacing, count, was, picks, n)
    requires was[n].Some? || |picks| == count || exists p :: 0 <= p < |picks| && dist(xy[picks[p]], xy[n]) < spacing
    ensures SpreadPass(dist, xy, spacing, count, was, picks, n + 1)
  {
    forall j: nat | j < n + 1 && was[j].None? && j !in picks
      ensures PassedOver(dist, xy, spacing, picks, |picks| == count, j)
    {
      assert j < n ==> PassedOver(dist, xy, spacing, picks, |picks| == count, j);
    }
  }

  /** The first pass under way: `chosen` are the positions of the picks. */
  ghost predicate Passing(dist: Metric, xy: seq<Point>, spacing: real, k: nat, count: nat, was: Levels, levels: Levels,
                          chosen: seq<Point>, picks: seq<nat>, i: nat) {
    && i <= |xy| == |was| && GivenTo(was, levels, k, picks) && SpreadPass(dist, xy, spacing, count, was, picks, i)
    && |chosen| == |picks| && Taken(was, levels, k, |picks|)
    && (forall p | 0 <= p < |picks| :: chosen[p] == xy[picks[p]])
  }

  lemma PassTakes(dist: Metric, xy: seq<Point>, spacing: real, k: nat, count: nat, was: Levels, levels: Levels,
                  chosen: seq<Point>, picks: seq<nat>, i: nat)
    requires Passing(dist, xy, spacing, k, count, was, levels, chosen, picks, i) && i < |xy|
    requires |picks| < count && levels[i].None? && forall c | 0 <= c < |chosen| :: dist(chosen[c], xy[i]) >= spacing
    ensures Passing(dist, xy, spacing, k, count, was, levels[i := Some(k)], chosen + [xy[i]], picks + [i], i + 1)
  {
    TakeOne(was, levels, k, |picks|, i);
    GiveOne(was, levels, k, picks, i);
    SpreadOne(dist, xy, spacing, count, was, picks, i);
  }

  lemma PassSkips(dist: Metric, xy: seq<Point>, spacing: real, k: nat, count: nat, was: Levels, levels: Levels,
                  chosen: seq<Point>, picks: seq<nat>, i: nat)
    requires Passing(dist, xy, spacing, k, count, was, levels, chosen, picks, i) && i < |xy|
    requires |picks| == count || levels[i].Some? || !forall c | 0 <= c < |chosen| :: dist(chosen[c], xy[i]) >= spacing
    ensures Passing(dist, xy, spacing, k, count, was, levels, chosen, picks, i + 1)
  {
    assert levels[i] == was[i];
    SpreadSkip(dist, xy, spacing, count, was, picks, i);
  }

  /** The candidates of a level that stand apart. */
  method PassApart(dist: Metric, xy: seq<Point>, spacing: real, k: nat, count: nat, levels0: Levels)
    returns (levels: Levels, taken: nat, ghost picks: seq<nat>)
    requires |xy| == |levels0|
    ensures GivenTo(levels0, levels, k, picks) && SpreadPass(dist, xy, spacing, count, levels0, picks, |xy|)
    ensures taken == |picks| && Taken(levels0, levels, k, taken)
  {
    levels, taken, picks := levels0, 0, [];
    var chosen: seq<Point> := [];
    for i := 0 to |levels0|
      invariant taken == |picks| && Passing(dist, xy, spacing, k, count, levels0, levels, chosen, picks, i)
    {
      if taken < count && levels[i].None? && forall c | 0 <= c < |chosen| :: dist(chosen[c], xy[i]) >= spacing {
        PassTakes(dist, xy, spacing, k, count, levels0, levels, chosen, picks, i);
        levels, chosen, taken := levels[i := Some(k)], chosen + [xy[i]], taken + 1;
        picks := picks + [i];
      } else {
        PassSkips(dist, xy, spacing, k, count, levels0, levels, chosen, picks, i);
      }
    }
  }

  /** ... and any others, until there are enough. */
  method PassAny(k: nat, count: nat, levels0: Levels) returns (levels: Levels, taken: nat, ghost picks: seq<nat>)
    ensures GivenTo(levels0, levels, k, picks) && FillPass(levels0, picks, count, |levels0|)
    ensures taken == |picks| && Taken(levels0, levels, k, taken)
    ensures taken == count || forall i | 0 <= i < |levels| :: levels[i].Some?
  {
    levels, taken, picks := levels0, 0, [];
    for i := 0 to |levels0|
      invariant GivenTo(levels0, levels, k, picks) && FillPass(levels0, picks, count, i)
      invariant taken == |picks| && Taken(levels0, levels, k, taken)
      invariant taken == count || forall j | 0 <= j < i :: levels[j].Some?
    {
      if taken < count && levels[i].None? {
        TakeOne(levels0, levels, k, taken, i);
        GiveOne(levels0, levels, k, picks, i);
        levels, taken := levels[i := Some(k)], taken + 1;
        picks := picks + [i];
      }
    }
  }

  lemma NoneOpen(levels: Levels)
    requires forall i | 0 <= i < |levels| :: levels[i].Some?
    ensures Open(levels) == 0
  {
    assert None !in levels;
  }

  /** Exactly `count` open candidates get level `k`: those the first pass finds apart,
      and then those the second needs. */
  ghost predicate SpreadOver(dist: Metric, xy: seq<Point>, spacing: real, k: nat, count: nat, was: Levels,
                             levels: Levels)
    requires |xy| == |was|
  {
    exists between: Levels, first: seq<nat>, second: seq<nat> ::
      SpreadBy(dist, xy, spacing, k, count, was, levels, between, first, second)
  }

  ghost predicate SpreadBy(dist: Metric, xy: seq<Point>, spacing: real, k: nat, count: nat, was: Levels,
                           levels: Levels, between: Levels, first: seq<nat>, second: seq<nat>)
    requires |xy| == |was|
  {
    && GivenTo(was, between, k, first) && SpreadPass(dist, xy, spacing, count, was, first, |xy|)
    && GivenTo(between, levels, k, second) && FillPass(between, second, count - |first|, |xy|)
    && |first| + |second| == count
  }

  method Spread(dist: Metric, xy: seq<Point>, spacing: real, k: nat, count: nat, levels0: Levels)
    returns (levels: Levels)
    requires |xy| == |levels0| && count <= Open(levels0)
    ensures Taken(levels0, levels, k, count) && SpreadOver(dist, xy, spacing, k, count, levels0, levels)
  {
    var between, taken;
    ghost var first, second;
    between, taken, first := PassApart(dist, xy, spacing, k, count, levels0);
    var rest;
    levels, rest, second := PassAny(k, count - taken, between);
    if taken + rest < count {
      NoneOpen(levels);
    }
    assert SpreadBy(dist, xy, spacing, k, count, levels0, levels, between, first, second);
  }

  /** Levels before `k` have their standalone sites, the others none yet. */
  ghost predicate Settled(standalone: seq<nat>, levels: Levels, k: nat) {
    && k <= |standalone| && Open(levels) + Total(standalone[..k]) == |levels|
    && (forall j: nat :: Count(levels, j) == if j < k then standalone[j] else 0)
  }

  lemma SettleMore(standalone: seq<nat>, was: Levels, levels: Levels, k: nat)
    requires Settled(standalone, was, k) && k < |standalone| && Taken(was, levels, k, standalone[k])
    ensures Settled(standalone, levels, k + 1)
  {
    TotalPrefix(standalone, k);
  }

  lemma {:induction false} TotalGrows(s: seq<nat>, k: nat)
    requires k <= |s|
    ensures Total(s[..k]) <= Total(s)
    decreases |s| - k
  {
    if k < |s| {
      TotalPrefix(s, k);
      TotalGrows(s, k + 1);
    } else {
      assert s[..k] == s;
    }
  }

  lemma AllOpen(standalone: seq<nat>, n: nat)
    ensures Settled(standalone, Repeat<Option<nat>>(None, n), 0)
  {
    RepeatCounts<Option<nat>>(None, n, None);
    forall j: nat
      ensures Count(Repeat(None, n), j) == 0
    {
      RepeatCounts<Option<nat>>(None, n, Some(j));
    }
  }

  /** The levels below the spread ones, as often as they need standalone sites. */
  method Pool(standalone: seq<nat>, from: nat) returns (pool: seq<nat>)
    requires from <= |standalone|
    ensures |pool| == Total(standalone) - Total(standalone[..from])
    ensures forall j: nat :: multiset(pool)[j] == if from <= j < |standalone| then standalone[j] else 0
  {
    pool := [];
    for k := from to |standalone|
      invariant |pool| == Total(standalone[..k]) - Total(standalone[..from])
      invariant forall j: nat :: multiset(pool)[j] == if from <= j < k then standalone[j] else 0
    {
      TotalPrefix(standalone, k);
      forall j: nat
        ensures multiset(Repeat<nat>(k, standalone[k]))[j] == if j == k then standalone[k] else 0
      {
        RepeatCounts<nat>(k, standalone[k], j);
      }
      pool := pool + Repeat<nat>(k, standalone[k]);
    }
    assert standalone[..|standalone|] == standalone;
    pool := Shuffle(pool);
  }

  /** The first `i` candidates have their level, the open ones from the pool. */
  ghost predicate Filled(levels: Levels, pool: seq<nat>, out: seq<nat>, i: nat, p: nat) {
    && i <= |levels| && p <= |pool| && |out| == i && p == Open(levels[..i])
    && (forall j: nat :: multiset(out)[j] == Count(levels[..i], j) + multiset(pool[..p])[j])
  }

  lemma FillKnown(levels: Levels, pool: seq<nat>, out: seq<nat>, i: nat, p: nat)
    requires Filled(levels, pool, out, i, p) && i < |levels| && levels[i].Some?
    ensures Filled(levels, pool, out + [levels[i].value], i + 1, p)
  {
    assert levels[..i + 1] == levels[..i] + [levels[i]];
  }

  lemma FillOpen(levels: Levels, pool: seq<nat>, out: seq<nat>, i: nat, p: nat)
    requires Filled(levels, pool, out, i, p) && i < |levels| && levels[i].None? && |pool| == Open(levels)
    ensures p < |pool| && Filled(levels, pool, out + [pool[p]], i + 1, p + 1)
  {
    assert levels == levels[..i] + [levels[i]] + levels[i + 1..];
    assert levels[..i + 1] == levels[..i] + [levels[i]];
    assert pool[..p + 1] == pool[..p] + [pool[p]];
  }

  /** Give every open candidate a level from the pool, which has exactly one for each. */
  method Fill(levels: Levels, pool: seq<nat>) returns (out: seq<nat>)
    requires |pool| == Open(levels)
    ensures |out| == |levels| && forall j: nat :: multiset(out)[j] == Count(levels, j) + multiset(pool)[j]
    ensures forall i | 0 <= i < |levels| && levels[i].Some? :: out[i] == levels[i].value
  {
    out := [];
    var p := 0;
    for i := 0 to |levels|
      invariant Filled(levels, pool, out, i, p)
      invariant forall j | 0 <= j < i && levels[j].Some? :: out[j] == levels[j].value
    {
      if levels[i].Some? {
        FillKnown(levels, pool, out, i, p);
        out := out + [levels[i].value];
      } else {
        FillOpen(levels, pool, out, i, p);
        out := out + [pool[p]];
        p := p + 1;
      }
    }
    assert levels[..|levels|] == levels && pool[..p] == pool;
  }

  /** The top levels are spread out one after the other, each over the candidates left
      by those above, and keep what they got. */
  ghost predicate SpreadLevels(dist: Metric, xy: seq<Point>, standalone: seq<nat>, spacing: seq<real>,
                               stages: seq<Levels>, out: seq<nat>) {
    && |stages| == Least(|spacing|, |standalone|) + 1 && |out| == |xy|
    && |stages[0]| == |xy| && (forall i | 0 <= i < |xy| :: stages[0][i].None?)
    && (forall k: nat | k + 1 < |stages| :: SpreadAt(dist, xy, standalone, spacing, stages, k))
    && |stages[|stages| - 1]| == |xy|
    && (forall i | 0 <= i < |xy| && stages[|stages| - 1][i].Some? :: out[i] == stages[|stages| - 1][i].value)
  }

  ghost predicate SpreadAt(dist: Metric, xy: seq<Point>, standalone: seq<nat>, spacing: seq<real>,
                           stages: seq<Levels>, k: nat) {
    && k < |spacing| && k < |standalone| && k + 1 < |stages| && |stages[k]| == |xy|
    && SpreadOver(dist, xy, spacing[k], k, standalone[k], stages[k], stages[k + 1])
  }

  /** Levels of the standalone sites: the top ones spread out at their spacing, the
      rest drawn; every level gets exactly its number. */
  method AssignLevels(dist: Metric, xy: seq<Point>, standalone: seq<nat>, spacing: seq<real>)
    returns (out: seq<nat>, ghost stages: seq<Levels>)
    requires |xy| == Total(standalone)
    ensures |out| == |xy| && forall j: nat :: multiset(out)[j] == if j < |standalone| then standalone[j] else 0
    ensures SpreadLevels(dist, xy, standalone, spacing, stages, out)
  {
    var levels := Repeat<Option<nat>>(None, |xy|);
    AllOpen(standalone, |xy|);
    stages := [levels];
    var spread := Least(|spacing|, |standalone|);
    for k := 0 to spread
      invariant |levels| == |xy| && Settled(standalone, levels, k)
      invariant |stages| == k + 1 && stages[k] == levels && stages[0] == Repeat(None, |xy|)
      invariant forall j: nat | j < k :: SpreadAt(dist, xy, standalone, spacing, stages, j)
    {
      ghost var was, prior := levels, stages;
      TotalGrows(standalone, k + 1);
      TotalPrefix(standalone, k);
      levels := Spread(dist, xy, spacing[k], k, standalone[k], levels);
      SettleMore(standalone, was, levels, k);
      stages := stages + [levels];
      SpreadKept(dist, xy, standalone, spacing, prior, levels, k);
    }
    var pool := Pool(standalone, spread);
    out := Fill(levels, pool);
  }

  lemma SpreadKept(dist: Metric, xy: seq<Point>, standalone: seq<nat>, spacing: seq<real>, stages: seq<Levels>,
                   levels: Levels, k: nat)
    requires |stages| == k + 1 && k < |spacing| && k < |standalone| && |stages[k]| == |xy|
    requires forall j: nat | j < k :: SpreadAt(dist, xy, standalone, spacing, stages, j)
    requires SpreadOver(dist, xy, spacing[k], k, standalone[k], stages[k], levels)
    ensures forall j: nat | j < k + 1 :: SpreadAt(dist, xy, standalone, spacing, stages + [levels], j)
  {
    forall j: nat | j < k
      ensures SpreadAt(dist, xy, standalone, spacing, stages + [levels], j)
    {
      assert SpreadAt(dist, xy, standalone, spacing, stages, j);
    }
  }

  // ------------------------------------------------------------ step-downs

  datatype Slot = Slot(tier: nat, site: nat)

  function Tiers(slots: seq<Slot>): seq<nat> {
    seq(|slots|, i requires 0 <= i < |slots| => slots[i].tier)
  }

  ghost function AtTier(slots: seq<Slot>, k: nat): nat {
    multiset(Tiers(slots))[k]
  }

  lemma AddSlot(slots: seq<Slot>, s: Slot, k: nat)
    ensures AtTier(slots + [s], k) == AtTier(slots, k) + if s.tier == k then 1 else 0
  {
    assert Tiers(slots + [s]) == Tiers(slots) + [s.tier];
  }

  /** No site has two buses of one tier, and at most one at tier `k` or below it. */
  ghost predicate Ladders(slots: seq<Slot>, k: nat) {
    forall i, j | 0 <= i < j < |slots| && slots[i].site == slots[j].site ::
      slots[i].tier != slots[j].tier && (slots[i].tier < k || slots[j].tier < k)
  }

  /** As `Ladders`, while the slots of tier `k` named by `done` have been stepped down. */
  ghost predicate Climbing(slots: seq<Slot>, k: nat, done: seq<nat>) {
    forall i: nat, j: nat | i < |slots| && j < |slots| && i != j && slots[i].site == slots[j].site ::
      Rungs(slots, k, done, i, j)
  }

  ghost predicate Rungs(slots: seq<Slot>, k: nat, done: seq<nat>, i: nat, j: nat)
    requires i < |slots| && j < |slots|
  {
    && slots[i].tier != slots[j].tier && !(slots[i].tier > k && slots[j].tier > k)
    && (slots[i].tier == k && slots[j].tier > k ==> i in done)
  }

  lemma StepDown(slots: seq<Slot>, k: nat, done: seq<nat>, i: nat, t: nat)
    requires Climbing(slots, k, done) && i < |slots| && slots[i].tier == k && i !in done && t > k
    ensures Climbing(slots + [Slot(t, slots[i].site)], k, done + [i])
  {
    var more := slots + [Slot(t, slots[i].site)];
    forall x: nat, y: nat | x < |more| && y < |more| && x != y && more[x].site == more[y].site
      ensures Rungs(more, k, done + [i], x, y)
    {
      if x < |slots| && y < |slots| {
        assert Rungs(slots, k, done, x, y);
      } else if x < |slots| && x != i {
        assert Rungs(slots, k, done, i, x);
        assert Rungs(slots, k, done, x, i);
      } else if y < |slots| && y != i {
        assert Rungs(slots, k, done, i, y);
        assert Rungs(slots, k, done, y, i);
      }
    }
  }

  lemma StartClimbing(slots: seq<Slot>, k: nat)
    requires Ladders(slots, k)
    ensures Climbing(slots, k, [])
  {
  }

  lemma EndClimbing(slots: seq<Slot>, k: nat, done: seq<nat>)
    requires Climbing(slots, k, done)
    ensures Ladders(slots, k + 1)
  {
    forall i, j | 0 <= i < j < |slots| && slots[i].site == slots[j].site
      ensures slots[i].tier != slots[j].tier && (slots[i].tier < k + 1 || slots[j].tier < k + 1)
    {
      assert Rungs(slots, k, done, i, j);
    }
  }

  /** The slots of tier `k`, each once. */
  method SlotsAt(slots: seq<Slot>, k: nat) returns (at: seq<nat>)
    ensures |at| == AtTier(slots, k) && (forall i | 0 <= i < |at| :: at[i] < |slots| && slots[at[i]].tier == k)
    ensures forall i, j | 0 <= i < j < |at| :: at[i] != at[j]
  {
    at := [];
    for i := 0 to |slots|
      invariant |at| == AtTier(slots[..i], k) && (forall p | 0 <= p < |at| :: at[p] < i && slots[at[p]].tier == k)
      invariant forall p, q | 0 <= p < q < |at| :: at[p] != at[q]
    {
      assert slots[..i + 1] == slots[..i] + [slots[i]];
      AddSlot(slots[..i], slots[i], k);
      if slots[i].tier == k {
        at := at + [i];
      }
    }
    assert slots[..|slots|] == slots;
  }

  ghost predicate GoodIndices(slots: seq<Slot>, k: nat, at: seq<nat>) {
    (forall i | 0 <= i < |at| :: at[i] < |slots| && slots[at[i]].tier == k)
    && (forall i, j | 0 <= i < j < |at| :: at[i] != at[j])
  }

  lemma {:induction false} OnceIfDistinct(at: seq<nat>, x: nat)
    requires forall i, j | 0 <= i < j < |at| :: at[i] != at[j]
    ensures multiset(at)[x] <= 1
  {
    if at != [] {
      var n := |at| - 1;
      OnceIfDistinct(at[..n], x);
      assert at == at[..n] + [at[n]];
      if at[n] == x {
        assert x !in at[..n];
      }
    }
  }

  lemma JitterKeeps(slots: seq<Slot>, k: nat, at: seq<nat>, r: seq<nat>)
    requires GoodIndices(slots, k, at) && multiset(r) == multiset(at)
    ensures GoodIndices(slots, k, r)
  {
    forall i | 0 <= i < |r|
      ensures r[i] in at
    {
      assert r[i] in multiset(r);
    }
    forall i, j | 0 <= i < j < |r|
      ensures r[i] != r[j]
    {
      if r[i] == r[j] {
        TwiceCounted(r, i, j);
        OnceIfDistinct(at, r[i]);
        assert false;
      }
    }
  }

  /** `slots` has `a` more slots than `was` one tier below `k`, and `b` two below. */
  ghost predicate Stepped(was: seq<Slot>, slots: seq<Slot>, k: nat, a: nat, b: nat) {
    forall t: nat :: AtTier(slots, t) == AtTier(was, t) + (if t == k + 1 then a else 0) + (if t == k + 2 then b else 0)
  }

  lemma StepOne(was: seq<Slot>, slots: seq<Slot>, k: nat, a: nat, b: nat, s: Slot)
    requires Stepped(was, slots, k, a, b)
    ensures s.tier == k + 1 ==> Stepped(was, slots + [s], k, a + 1, b)
    ensures s.tier == k + 2 ==> Stepped(was, slots + [s], k, a, b + 1)
  {
    forall t: nat
      ensures AtTier(slots + [s], t) == AtTier(slots, t) + if s.tier == t then 1 else 0
    {
      AddSlot(slots, s, t);
    }
  }

  /** The slots added: at the sites of the ranked slots of tier `k`, the first `down`
      one tier below, the others two. */
  ghost predicate StepsFrom(was: seq<Slot>, slots: seq<Slot>, k: nat, down: nat, ranked: seq<nat>, n: nat) {
    && |slots| == |was| + n && was <= slots && n <= |ranked| && GoodIndices(was, k, ranked)
    && forall j | 0 <= j < n :: slots[|was| + j] == Slot(if j < down then k + 1 else k + 2, was[ranked[j]].site)
  }

  ghost predicate StepsBy(was: seq<Slot>, slots: seq<Slot>, k: nat, down: nat, skip: nat, ranked: seq<nat>) {
    StepsFrom(was, slots, k, down, ranked, down + skip)
  }

  ghost predicate LevelStepped(was: seq<Slot>, slots: seq<Slot>, k: nat, down: nat, skip: nat) {
    exists ranked :: StepsBy(was, slots, k, down, skip, ranked)
  }

  /** Step down the first `down` of the ranked slots by one tier, the next `skip` by two. */
  method StepRanked(slots0: seq<Slot>, k: nat, down: nat, skip: nat, ranked: seq<nat>) returns (slots: seq<Slot>)
    requires Climbing(slots0, k, []) && GoodIndices(slots0, k, ranked) && down + skip <= |ranked|
    ensures slots0 <= slots && Climbing(slots, k, ranked[..down + skip]) && Stepped(slots0, slots, k, down, skip)
    ensures StepsFrom(slots0, slots, k, down, ranked, down + skip)
  {
    slots := slots0;
    for j := 0 to down + skip
      invariant slots0 <= slots && Climbing(slots, k, ranked[..j])
      invariant Stepped(slots0, slots, k, if j < down then j else down, if j < down then 0 else j - down)
      invariant StepsFrom(slots0, slots, k, down, ranked, j)
    {
      var s := Slot(if j < down then k + 1 else k + 2, slots[ranked[j]].site);
      StepNext(slots0, slots, k, ranked, j, s.tier);
      StepOne(slots0, slots, k, if j < down then j else down, if j < down then 0 else j - down, s);
      slots := slots + [s];
    }
  }

  lemma StepNext(slots0: seq<Slot>, slots: seq<Slot>, k: nat, ranked: seq<nat>, j: nat, t: nat)
    requires slots0 <= slots && GoodIndices(slots0, k, ranked) && j < |ranked| && Climbing(slots, k, ranked[..j])
             && t > k
    ensures ranked[j] < |slots| && Climbing(slots + [Slot(t, slots[ranked[j]].site)], k, ranked[..j + 1])
  {
    assert ranked[..j + 1] == ranked[..j] + [ranked[j]];
    StepDown(slots, k, ranked[..j], ranked[j], t);
  }

  /** Step down `down` slots of tier `k` by one and `skip` more by two. */
  method StepLevel(slots0: seq<Slot>, k: nat, down: nat, skip: nat) returns (slots: seq<Slot>)
    requires Ladders(slots0, k) && down + skip <= AtTier(slots0, k)
    ensures slots0 <= slots && Ladders(slots, k + 1) && Stepped(slots0, slots, k, down, skip)
    ensures LevelStepped(slots0, slots, k, down, skip)
  {
    var at := SlotsAt(slots0, k);
    var ranked := Shuffle(at);
    JitterKeeps(slots0, k, at, ranked);
    StartClimbing(slots0, k);
    slots := StepRanked(slots0, k, down, skip, ranked);
    EndClimbing(slots, k, ranked[..down + skip]);
    assert StepsBy(slots0, slots, k, down, skip, ranked);
  }

  /** Slots after the step-downs of the levels before `k`. */
  ghost predicate SteppedTo(standalone: seq<nat>, down: seq<nat>, skip: seq<nat>, slots: seq<Slot>, k: nat) {
    forall j: nat :: AtTier(slots, j) == (if j < |standalone| then standalone[j] else 0) + Received(down, skip, j, k)
  }

  lemma StepFurther(want: seq<nat>, standalone: seq<nat>, down: seq<nat>, skip: seq<nat>, colocated: seq<nat>,
                    was: seq<Slot>, slots: seq<Slot>, k: nat)
    requires Planned(want, down, skip, colocated, |want|) && k < |want| && |standalone| == |want|
    requires SteppedTo(standalone, down, skip, was, k) && Stepped(was, slots, k, down[k], skip[k])
    ensures SteppedTo(standalone, down, skip, slots, k + 1)
  {
    forall j: nat
      ensures AtTier(slots, j) == (if j < |standalone| then standalone[j] else 0) + Received(down, skip, j, k + 1)
    {
      assert AtTier(was, j) == (if j < |standalone| then standalone[j] else 0) + Received(down, skip, j, k);
    }
  }

  lemma EnoughToStep(want: seq<nat>, standalone: seq<nat>, down: seq<nat>, skip: seq<nat>, colocated: seq<nat>,
                     slots: seq<Slot>, k: nat, j: nat)
    requires Planned(want, down, skip, colocated, |want|) && j <= k <= |want| && j < |want| == |standalone|
    requires standalone[j] + colocated[j] == want[j] && SteppedTo(standalone, down, skip, slots, k)
    ensures AtTier(slots, j) == want[j] && down[j] + skip[j] <= want[j]
  {
    assert StepsFit(want, down, skip, |want|, j) && Receives(want, down, skip, colocated, |want|, j);
  }

  lemma OneSlotPerSite(levels: seq<nat>, slots: seq<Slot>)
    requires |slots| == |levels| && (forall i | 0 <= i < |slots| :: slots[i] == Slot(levels[i], i))
    ensures Ladders(slots, 0) && Tiers(slots) == levels
  {
  }

  /** Add the step-downs of every level, highest first. */
  method AddSteps(want: seq<nat>, standalone: seq<nat>, down: seq<nat>, skip: seq<nat>, colocated: seq<nat>,
                  slots0: seq<Slot>) returns (slots: seq<Slot>, ghost stages: seq<seq<Slot>>)
    requires Planned(want, down, skip, colocated, |want|) && |standalone| == |want|
    requires forall j: nat | j < |want| :: standalone[j] + colocated[j] == want[j]
    requires SteppedTo(standalone, down, skip, slots0, 0) && Ladders(slots0, 0)
    ensures SteppedTo(standalone, down, skip, slots, |want|) && Ladders(slots, |want|) && slots0 <= slots
    ensures |stages| == |want| + 1 && stages[0] == slots0 && stages[|want|] == slots
    ensures forall k: nat | k < |want| :: StepsAt(down, skip, stages, k)
  {
    slots, stages := slots0, [slots0];
    for k := 0 to |want|
      invariant SteppedTo(standalone, down, skip, slots, k) && Ladders(slots, k) && slots0 <= slots
      invariant |stages| == k + 1 && stages[0] == slots0 && stages[k] == slots
      invariant forall j: nat | j < k :: StepsAt(down, skip, stages, j)
    {
      ghost var was, prior := slots, stages;
      EnoughToStep(want, standalone, down, skip, colocated, slots, k, k);
      slots := StepLevel(slots, k, down[k], skip[k]);
      StepFurther(want, standalone, down, skip, colocated, was, slots, k);
      stages := stages + [slots];
      forall j: nat | j < k
        ensures StepsAt(down, skip, stages, j)
      {
        assert StepsAt(down, skip, prior, j);
      }
    }
  }

  /** What the turn of level `k` adds. */
  ghost predicate StepsAt(down: seq<nat>, skip: seq<nat>, stages: seq<seq<Slot>>, k: nat) {
    && k < |down| && k < |skip| && k + 1 < |stages|
    && LevelStepped(stages[k], stages[k + 1], k, down[k], skip[k])
  }

  /** Standalone sites per level: what a level wants and does not receive. */
  method StandaloneSites(want: seq<nat>, ghost down: seq<nat>, ghost skip: seq<nat>, colocated: seq<nat>)
    returns (standalone: seq<nat>)
    requires Planned(want, down, skip, colocated, |want|)
    ensures |standalone| == |want| && forall j: nat | j < |want| :: standalone[j] + colocated[j] == want[j]
  {
    standalone := [];
    for k := 0 to |want|
      invariant |standalone| == k && forall j: nat | j < k :: standalone[j] + colocated[j] == want[j]
    {
      assert Receives(want, down, skip, colocated, |want|, k);
      standalone := standalone + [want[k] - colocated[k]];
    }
  }

  /** How a ladder was sited: step-downs, standalone sites and their levels, and the
      slots after each level's turn. */
  datatype Plan = Plan(down: seq<nat>, skip: seq<nat>, standalone: seq<nat>, levels: seq<nat>, spread: seq<Levels>,
                       stages: seq<seq<Slot>>)

  /** Every level steps down its tuned shares, and stands alone with the buses it then
      lacks; standalone sites take their levels from the top, spread out, the rest
      drawn; and every level in turn adds its step-downs at its own sites. */
  ghost predicate SitedBy(want: seq<nat>, stepDown: seq<real>, stepSkip: seq<real>, dist: Metric,
                          candidates: nat -> seq<Point>, spacing: seq<real>, slots: seq<Slot>, plan: Plan) {
    && |plan.down| == |plan.skip| == |plan.standalone| == |want|
    && (forall j: nat | j < |want| :: PlannedAt(want, stepDown, stepSkip, plan.down, plan.skip, j))
    && (forall j: nat | j < |want| ::
          want[j] == plan.standalone[j] + (if j > 0 then plan.down[j - 1] else 0)
          + (if j > 1 then plan.skip[j - 2] else 0))
    && SpreadLevels(dist, candidates(|plan.levels|), plan.standalone, spacing, plan.spread, plan.levels)
    && (forall j: nat :: multiset(plan.levels)[j] == if j < |want| then plan.standalone[j] else 0)
    && |plan.stages| == |want| + 1 && plan.stages[|want|] == slots
    && plan.stages[0] == seq(|plan.levels|, i requires 0 <= i < |plan.levels| => Slot(plan.levels[i], i))
    && (forall k: nat | k < |want| :: StepsAt(plan.down, plan.skip, plan.stages, k))
  }

  /** Site the buses of every level. `candidates` gives the positions it is asked
      for: places first, then the fill. Every level ends with exactly the buses it
      wants, and no site with two buses of one level. */
  method SiteHierarchical(want: seq<nat>, stepDown: seq<real>, stepSkip: seq<real>, dist: Metric,
                          candidates: nat -> seq<Point>, spacing: seq<real>)
    returns (slots: seq<Slot>, ghost plan: Plan)
    requires forall n: nat :: |candidates(n)| == n
    ensures forall k: nat :: AtTier(slots, k) == if k < |want| then want[k] else 0
    ensures forall i, j | 0 <= i < j < |slots| && slots[i].site == slots[j].site :: slots[i].tier != slots[j].tier
    ensures SitedBy(want, stepDown, stepSkip, dist, candidates, spacing, slots, plan)
  {
    var down, skip, colocated := PlanSteps(want, stepDown, stepSkip);
    var standalone := StandaloneSites(want, down, skip, colocated);
    var total := CountOf(standalone);
    var xy := candidates(total);
    var levels;
    ghost var spread, stages;
    levels, spread := AssignLevels(dist, xy, standalone, spacing);
    slots := seq(|levels|, i requires 0 <= i < |levels| => Slot(levels[i], i));
    OneSlotPerSite(levels, slots);
    slots, stages := AddSteps(want, standalone, down, skip, colocated, slots);
    plan := Plan(down, skip, standalone, levels, spread, stages);
    forall k: nat
      ensures AtTier(slots, k) == if k < |want| then want[k] else 0
    {
      AllSited(want, standalone, down, skip, colocated, slots, k);
    }
    forall j: nat | j < |want|
      ensures want[j] == standalone[j] + (if j > 0 then down[j - 1] else 0) + (if j > 1 then skip[j - 2] else 0)
    {
      assert Receives(want, down, skip, colocated, |want|, j);
    }
  }

  lemma AllSited(want: seq<nat>, standalone: seq<nat>, down: seq<nat>, skip: seq<nat>, colocated: seq<nat>,
                 slots: seq<Slot>, k: nat)
    requires Planned(want, down, skip, colocated, |want|) && |standalone| == |want|
             && SteppedTo(standalone, down, skip, slots, |want|)
    requires forall j: nat | j < |want| :: standalone[j] + colocated[j] == want[j]
    ensures AtTier(slots, k) == if k < |want| then want[k] else 0
  {
    if k < |want| {
      EnoughToStep(want, standalone, down, skip, colocated, slots, |want|, k);
    } else {
      if 1 <= k && k - 1 < |want| {
        assert StepsFit(want, down, skip, |want|, k - 1);
      }
      if 2 <= k && k - 2 < |want| {
        assert StepsFit(want, down, skip, |want|, k - 2);
      }
    }
  }

  /** The levels' counts add up to the number of buses. */
  lemma {:induction false} TiersAddUp(slots: seq<Slot>, want: seq<nat>)
    requires forall k: nat :: AtTier(slots, k) == if k < |want| then want[k] else 0
    ensures |slots| == Total(want)
    decreases |slots|
  {
    if slots == [] {
      forall k | 0 <= k < |want|
        ensures want[k] == 0
      {
        assert AtTier(slots, k) == 0;
      }
      NothingWanted(want);
    } else {
      var n := |slots| - 1;
      var s := slots[n];
      assert slots == slots[..n] + [s];
      AddSlot(slots[..n], s, s.tier);
      var less := want[s.tier := want[s.tier] - 1];
      forall k: nat
        ensures AtTier(slots[..n], k) == if k < |less| then less[k] else 0
      {
        AddSlot(slots[..n], s, k);
      }
      TotalUpdate(want, s.tier, want[s.tier] - 1);
      TiersAddUp(slots[..n], less);
    }
  }

  lemma {:induction false} NothingWanted(want: seq<nat>)
    requires forall k | 0 <= k < |want| :: want[k] == 0
    ensures Total(want) == 0
  {
    if want != [] {
      NothingWanted(want[..|want| - 1]);
    }
  }

  /** Site `n` buses over a ladder: exactly `n` in all, every level with the
      largest-remainder count of its share in the tuned profile, evened out, and so
      none of them without one when there are enough. */
  method SiteBuses(profiles: Profiles, depth: nat, n: nat, stepDown: seq<real>, stepSkip: seq<real>, dist: Metric,
                   candidates: nat -> seq<Point>, spacing: seq<real>)
    returns (slots: seq<Slot>, ghost profile: seq<real>, ghost shares: seq<real>, ghost run: seq<seq<nat>>,
             ghost plan: Plan)
    requires depth > 0 && forall k: nat :: |candidates(k)| == k
    ensures |slots| == n && (forall i | 0 <= i < n :: slots[i].tier < depth)
    ensures n >= depth ==> forall k: nat | k < depth :: AtTier(slots, k) > 0
    ensures forall i, j | 0 <= i < j < n && slots[i].site == slots[j].site :: slots[i].tier != slots[j].tier
    ensures IsProfile(profiles, depth, profile) && InProportion(profile, depth, shares)
    ensures |run| == depth + 1 && Apportioned(n, shares, run[0]) && EvenedBy(run[0], run[depth], run)
    ensures |run[depth]| == depth && forall k: nat | k < depth :: AtTier(slots, k) == run[depth][k]
    ensures SitedBy(run[depth], stepDown, stepSkip, dist, candidates, spacing, slots, plan)
  {
    var levelShares, want;
    levelShares, profile := LevelShares(profiles, depth);
    shares := levelShares;
    want, run := LevelCounts.LevelCounts(n, levelShares);
    slots, plan := SiteHierarchical(want, stepDown, stepSkip, dist, candidates, spacing);
    TiersAddUp(slots, want);
    forall i | 0 <= i < |slots|
      ensures slots[i].tier < depth
    {
      assert Tiers(slots)[i] in multiset(Tiers(slots));
      assert AtTier(slots, slots[i].tier) > 0;
    }
  }
}
