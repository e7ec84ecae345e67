/**
 How many buses each voltage level gets: the tuned shares, rounded by largest
 remainders, with no level left empty while there is room.
 */
module LevelCounts {
  import opened Sums
  import opened Quotas

  // ------------------------------------------------------------ shares

  /** The tuned profiles for ladders of two, three and four levels. */
  datatype Profiles = Profiles(two: seq<real>, three: seq<real>, four: seq<real>)

  /** `p` is the tuned profile of a ladder; beyond four levels every further entry is
      half again the one before it. */
  ghost predicate IsProfile(t: Profiles, depth: nat, p: seq<real>) {
    match depth
    case 0 => p == []
    case 1 => p == [1.0]
    case 2 => p == t.two
    case 3 => p == t.three
    case 4 => p == t.four
    case _ =>
      && t.four <= p && |p| == (if |t.four| < depth then depth else |t.four|)
      && forall i: nat | |t.four| <= i < |p| :: HalfAgain(p, i)
  }

  ghost predicate HalfAgain(p: seq<real>, i: nat)
    requires i < |p|
  {
    2.0 * p[i] == 3.0 * (if i == 0 then 1.0 else p[i - 1])
  }

  /** The first `depth` entries, what is negative counted as zero. */
  ghost function Positives(p: seq<real>, depth: nat): seq<real>
    requires depth <= |p|
  {
    seq(depth, i requires 0 <= i < depth => if p[i] < 0.0 then 0.0 else p[i])
  }

  /** `depth` shares in the proportions of the profile, equal ones if it is too short
      or has nothing positive. */
  ghost predicate InProportion(p: seq<real>, depth: nat, shares: seq<real>) {
    && |shares| == depth
    && if depth <= |p| && Sum(Positives(p, depth)) > 0.0
       then forall k | 0 <= k < depth :: Times(shares[k], Sum(Positives(p, depth))) == Positives(p, depth)[k]
       else forall k | 0 <= k < depth :: Times(shares[k], depth as real) == 1.0
  }

  /** Deeper ladders extend the four-level profile by half again per level. */
  method Extended(four: seq<real>, depth: nat) returns (v: seq<real>)
    ensures four <= v && |v| == if |four| < depth then depth else |four|
    ensures forall i: nat | |four| <= i < |v| :: HalfAgain(v, i)
  {
    v := four;
    while |v| < depth
      invariant four <= v && |v| <= if |four| < depth then depth else |four|
      invariant forall i: nat | |four| <= i < |v| :: HalfAgain(v, i)
      decreases depth - |v|
    {
      ghost var was := v;
      v := v + [(if |v| == 0 then 1.0 else v[|v| - 1]) * 1.5];
      forall i: nat | |four| <= i < |v|
        ensures HalfAgain(v, i)
      {
        assert i < |was| ==> HalfAgain(was, i);
      }
    }
  }

  ghost predicate NonNegative(s: seq<real>) {
    forall i | 0 <= i < |s| :: s[i] >= 0.0
  }

  function Times(x: real, y: real): real { x * y }

  lemma {:induction false} ScaledSum(s: seq<real>, r: seq<real>, total: real)
    requires |s| == |r| && total > 0.0 && (forall i | 0 <= i < |s| :: r[i] == s[i] / total)
    ensures Times(Sum(r), total) == Sum(s)
  {
    if s != [] {
      var n := |s| - 1;
      ScaledSum(s[..n], r[..n], total);
      Scaled(Sum(r[..n]), s[n], r[n], total);
    }
  }

  lemma Scaled(a: real, x: real, y: real, total: real)
    requires total > 0.0 && y == x / total
    ensures Times(a + y, total) == Times(a, total) + x
  {
    assert y * total == x;
  }

  lemma {:induction false} EqualSum(s: seq<real>, x: real)
    requires forall i | 0 <= i < |s| :: s[i] == x
    ensures Sum(s) == |s| as real * x
  {
    if s != [] {
      EqualSum(s[..|s| - 1], x);
    }
  }

  lemma WholeShares(s: seq<real>, r: seq<real>, total: real)
    requires |s| == |r| && total == Sum(s) > 0.0 && (forall i | 0 <= i < |s| :: r[i] == s[i] / total)
    ensures Sum(r) == 1.0
  {
    ScaledSum(s, r, total);
    Whole(Sum(r), total);
  }

  lemma Whole(x: real, total: real)
    requires total > 0.0 && Times(x, total) == total
    ensures x == 1.0
  {
    assert (x - 1.0) * total == 0.0;
  }

  /** The tuned profile of a ladder, cut to its depth, without negative entries. */
  method RawShares(t: Profiles, depth: nat) returns (raw: seq<real>, ghost profile: seq<real>)
    ensures IsProfile(t, depth, profile) && NonNegative(raw)
    ensures raw == Positives(profile, if |profile| < depth then |profile| else depth)
  {
    raw := [];
    match depth {
      case 0 =>
      case 1 => raw := [1.0];
      case 2 => raw := t.two;
      case 3 => raw := t.three;
      case 4 => raw := t.four;
      case _ => raw := Extended(t.four, depth);
    }
    profile := raw;
    raw := if |raw| > depth then raw[..depth] else raw;
    raw := seq(|raw|, i requires 0 <= i < |raw| => if raw[i] < 0.0 then 0.0 else raw[i]);
  }

  /** Equal shares. */
  method EqualShares(depth: nat) returns (shares: seq<real>)
    ensures |shares| == depth && NonNegative(shares) && (depth > 0 ==> Sum(shares) == 1.0)
    ensures forall k | 0 <= k < depth :: Times(shares[k], depth as real) == 1.0
  {
    if depth == 0 {
      return [];
    }
    var x := 1.0 / depth as real;
    shares := seq(depth, _ => x);
    EqualSum(shares, x);
    assert depth as real * x == 1.0;
  }

  lemma QuotientNonNegative(x: real, total: real)
    requires x >= 0.0 && total > 0.0
    ensures x / total >= 0.0 && Times(x / total, total) == x
  {
    var y := x / total;
    assert y * total == x;
    assert y < 0.0 ==> y * total < 0.0;
  }

  /** Shares of a ladder, highest level first, in the proportions of its profile:
      none negative, together one. */
  method LevelShares(t: Profiles, depth: nat) returns (shares: seq<real>, ghost profile: seq<real>)
    ensures |shares| == depth && NonNegative(shares)
    ensures depth > 0 ==> Sum(shares) == 1.0
    ensures IsProfile(t, depth, profile) && InProportion(profile, depth, shares)
  {
    var raw;
    raw, profile := RawShares(t, depth);
    var total := SumOf(raw);
    if |raw| != depth || total <= 0.0 {
      shares := EqualShares(depth);
      return;
    }
    shares := seq(depth, i requires 0 <= i < depth => raw[i] / total);
    forall i | 0 <= i < depth
      ensures shares[i] >= 0.0 && Times(shares[i], total) == raw[i]
    {
      QuotientNonNegative(raw[i], total);
    }
    WholeShares(raw, shares, total);
  }

  method SumOf(s: seq<real>) returns (total: real)
    ensures total == Sum(s)
  {
    total := 0.0;
    for i := 0 to |s|
      invariant total == Sum(s[..i])
    {
      SumPrefix(s, i);
      total := total + s[i];
    }
    assert s[..|s|] == s;
  }

  // ------------------------------------------------------------ rounding down

  function Part(shares: seq<real>, n: nat, k: nat): real
    requires k < |shares|
  {
    shares[k] * n as real
  }

  function Floors(shares: seq<real>, n: nat): (f: seq<nat>)
    requires NonNegative(shares)
    ensures |f| == |shares| && forall k | 0 <= k < |f| :: f[k] == Part(shares, n, k).Floor
  {
    seq(|shares|, k requires 0 <= k < |shares| => PartFloor(shares, n, k))
  }

  function PartFloor(shares: seq<real>, n: nat, k: nat): (f: nat)
    requires NonNegative(shares) && k < |shares|
    ensures f == Part(shares, n, k).Floor
  {
    ProductNonNegative(shares[k], n as real);
    Part(shares, n, k).Floor
  }

  lemma ProductNonNegative(x: real, y: real)
    requires x >= 0.0 && y >= 0.0
    ensures x * y >= 0.0
  {
  }

  /** Rounding down loses less than one bus per level. */
  lemma {:induction false} FloorLoss(shares: seq<real>, n: nat, f: seq<nat>, k: nat)
    requires k <= |shares| == |f| && (forall i | 0 <= i < |f| :: f[i] == Part(shares, n, i).Floor)
    ensures Total(f[..k]) as real <= Sum(shares[..k]) * n as real
    ensures k > 0 ==> Sum(shares[..k]) * n as real < Total(f[..k]) as real + k as real
  {
    if k > 0 {
      FloorLoss(shares, n, f, k - 1);
      TotalPrefix(f, k - 1);
      SumPrefix(shares, k - 1);
      Distribute(Sum(shares[..k - 1]), shares[k - 1], n as real);
      assert f[k - 1] == Part(shares, n, k - 1).Floor;
    }
  }

  lemma Distribute(a: real, b: real, c: real)
    ensures (a + b) * c == a * c + b * c
  {
  }

  // ------------------------------------------------------------ largest remainders

  function Remainder(shares: seq<real>, n: nat, k: nat): real
    requires k < |shares|
  {
    Part(shares, n, k) - Part(shares, n, k).Floor as real
  }

  /** `i` is served before `j`: larger remainder, deeper level on ties. */
  predicate Served(shares: seq<real>, n: nat, i: nat, j: nat)
    requires i < |shares| && j < |shares|
  {
    var (x, y) := (Remainder(shares, n, i), Remainder(shares, n, j));
    x > y || (x == y && i >= j)
  }

  ghost predicate InOrder(shares: seq<real>, n: nat, order: seq<nat>) {
    && (forall i | 0 <= i < |order| :: order[i] < |shares|)
    && (forall i, j | 0 <= i < j < |order| :: order[i] != order[j] && Served(shares, n, order[i], order[j]))
  }

  ghost predicate Ranks(order: seq<nat>, k: nat) {
    |order| == k && forall x: nat :: x in order <==> x < k
  }

  /** Insert level `k` behind the levels served before it. */
  method Insert(shares: seq<real>, n: nat, order: seq<nat>, k: nat) returns (more: seq<nat>)
    requires InOrder(shares, n, order) && Ranks(order, k) && k < |shares|
    ensures InOrder(shares, n, more) && Ranks(more, k + 1)
  {
    var at := 0;
    while at < |order| && Served(shares, n, order[at], k)
      invariant 0 <= at <= |order|
      invariant forall i | 0 <= i < at :: Served(shares, n, order[i], k)
    {
      at := at + 1;
    }
    more := order[..at] + [k] + order[at..];
    InsertRanks(order, at, k);
    InsertInOrder(shares, n, order, at, k);
  }

  lemma BehindToo(shares: seq<real>, n: nat, i: nat, j: nat, k: nat)
    requires i < |shares| && j < |shares| && k < |shares| && !Served(shares, n, i, k) && Served(shares, n, i, j)
    ensures Served(shares, n, k, i) && Served(shares, n, k, j)
  {
  }

  lemma InsertInOrder(shares: seq<real>, n: nat, order: seq<nat>, at: nat, k: nat)
    requires InOrder(shares, n, order) && Ranks(order, k) && k < |shares| && at <= |order|
    requires (forall i | 0 <= i < at :: Served(shares, n, order[i], k))
             && (at < |order| ==> !Served(shares, n, order[at], k))
    ensures InOrder(shares, n, order[..at] + [k] + order[at..])
  {
    var more := order[..at] + [k] + order[at..];
    forall j | at <= j < |order|
      ensures Served(shares, n, k, order[j])
    {
      BehindToo(shares, n, order[at], order[j], k);
    }
    forall i, j | 0 <= i < j < |more|
      ensures more[i] != more[j] && Served(shares, n, more[i], more[j])
    {
      var x, y := if i <= at then i else i - 1, if j <= at then j else j - 1;
      assert i != at ==> more[i] == order[x] && order[x] in order;
      assert j != at ==> more[j] == order[y] && order[y] in order;
    }
  }

  lemma InsertRanks(order: seq<nat>, at: nat, k: nat)
    requires Ranks(order, k) && at <= |order|
    ensures Ranks(order[..at] + [k] + order[at..], k + 1)
  {
    var more := order[..at] + [k] + order[at..];
    assert order == order[..at] + order[at..];
    forall x: nat
      ensures x in more <==> x < k + 1
    {
      assert x in order <==> x in order[..at] || x in order[at..];
    }
  }

  /** All levels, largest remainder first. */
  method ByRemainder(shares: seq<real>, n: nat) returns (order: seq<nat>)
    ensures InOrder(shares, n, order) && Ranks(order, |shares|)
  {
    order := [];
    for k := 0 to |shares|
      invariant InOrder(shares, n, order) && Ranks(order, k)
    {
      order := Insert(shares, n, order, k);
    }
  }

  /** `counts` is the shares rounded down, and one more for the first `m` in order. */
  ghost predicate Topped(shares: seq<real>, n: nat, order: seq<nat>, counts: seq<nat>, m: nat)
    requires NonNegative(shares)
  {
    && m <= |order| && |counts| == |shares|
    && (forall i | 0 <= i < |order| :: order[i] < |shares|
                                       && counts[order[i]] == Floors(shares, n)[order[i]] + if i < m then 1 else 0)
  }

  lemma LessThanOneEach(shares: seq<real>, n: nat, f: seq<nat>)
    requires |f| == |shares| > 0 && Sum(shares) == 1.0 && (forall i | 0 <= i < |f| :: f[i] == Part(shares, n, i).Floor)
    ensures Total(f) <= n < Total(f) + |shares|
  {
    FloorLoss(shares, n, f, |shares|);
    assert shares[..|shares|] == shares && f[..|shares|] == f;
  }

  /** Largest remainders: the counts add up, each is its share rounded down or up,
      and none is rounded up past one with a larger remainder. */
  method Apportion(n: nat, shares: seq<real>) returns (counts: seq<nat>)
    requires NonNegative(shares) && |shares| > 0 && Sum(shares) == 1.0
    ensures Apportioned(n, shares, counts)
  {
    counts := Floors(shares, n);
    var order := ByRemainder(shares, n);
    LessThanOneEach(shares, n, counts);
    var sum := CountOf(counts);
    var missing := n - sum;
    ghost var m := 0;
    for i := 0 to |order|
      invariant m <= i && missing == n - Total(counts) >= 0 && (m == i || missing == 0)
      invariant missing + m == n - sum && Topped(shares, n, order, counts, m)
    {
      if missing == 0 {
        break;
      }
      var k := order[i];
      TotalUpdate(counts, k, counts[k] + 1);
      counts := counts[k := counts[k] + 1];
      missing := missing - 1;
      m := m + 1;
    }
    ToppedApportioned(shares, n, order, counts, m);
  }

  lemma ToppedApportioned(shares: seq<real>, n: nat, order: seq<nat>, counts: seq<nat>, m: nat)
    requires NonNegative(shares) && InOrder(shares, n, order) && Ranks(order, |shares|)
             && Topped(shares, n, order, counts, m) && Total(counts) == n
    ensures Apportioned(n, shares, counts)
  {
    ToppedRanks(shares, n, order, counts, m);
    forall i: nat, j: nat | i < |counts| && j < |counts| && counts[i] > Part(shares, n, i).Floor
                            && counts[j] == Part(shares, n, j).Floor
      ensures Served(shares, n, i, j) && i != j
    {
    }
  }

  lemma ToppedRanks(shares: seq<real>, n: nat, order: seq<nat>, counts: seq<nat>, m: nat)
    requires NonNegative(shares) && InOrder(shares, n, order) && Ranks(order, |shares|)
             && Topped(shares, n, order, counts, m)
    ensures forall k | 0 <= k < |counts| :: counts[k] == Part(shares, n, k).Floor
                                            || counts[k] == Part(shares, n, k).Floor + 1
    ensures forall i, j | 0 <= i < |counts| && 0 <= j < |counts| && counts[i] > Part(shares, n, i).Floor
                          && counts[j] == Part(shares, n, j).Floor ::
              Served(shares, n, i, j)
  {
    forall k: nat | k < |counts|
      ensures counts[k] == Part(shares, n, k).Floor || counts[k] == Part(shares, n, k).Floor + 1
    {
      var _ := RankOf(order, |shares|, k);
    }
    forall i: nat, j: nat | i < |counts| && j < |counts| && counts[i] > Part(shares, n, i).Floor
                            && counts[j] == Part(shares, n, j).Floor
      ensures Served(shares, n, i, j)
    {
      var p := RankOf(order, |shares|, i);
      var q := RankOf(order, |shares|, j);
    }
  }

  lemma RankOf(order: seq<nat>, n: nat, k: nat) returns (p: nat)
    requires Ranks(order, n) && k < n
    ensures p < |order| && order[p] == k
  {
    assert k in order;
    p :| 0 <= p < |order| && order[p] == k;
  }

  // ------------------------------------------------------------ no empty level

  /** `j` is the fullest of the first `n` levels, the last of equals. */
  ghost predicate IsFullest(counts: seq<nat>, j: nat, n: nat)
    requires n <= |counts|
  {
    && j < n && (forall i | 0 <= i < n :: counts[i] <= counts[j])
    && (forall i | j < i < n :: counts[i] < counts[j])
  }

  method Fullest(counts: seq<nat>) returns (j: nat)
    requires |counts| > 0
    ensures IsFullest(counts, j, |counts|)
  {
    j := 0;
    for i := 1 to |counts|
      invariant IsFullest(counts, j, i)
    {
      if counts[i] >= counts[j] {
        j := i;
      }
    }
  }

  /** At most one bus per level and a level without: fewer buses than levels. */
  lemma {:induction false} AtMostOneEach(counts: seq<nat>)
    requires forall i | 0 <= i < |counts| :: counts[i] <= 1
    ensures Total(counts) <= |counts|
    ensures (exists i :: 0 <= i < |counts| && counts[i] == 0) ==> Total(counts) < |counts|
  {
    if counts != [] {
      AtMostOneEach(counts[..|counts| - 1]);
    }
  }

  /** The largest-remainder counts: each is its share of `n` rounded down or up, and
      of two shares the one with the larger remainder, the deeper level on ties, is
      rounded up first. */
  ghost predicate Apportioned(n: nat, shares: seq<real>, counts: seq<nat>) {
    && |counts| == |shares| && Total(counts) == n
    && (forall k | 0 <= k < |counts| :: counts[k] == (shares[k] * n as real).Floor
                                        || counts[k] == (shares[k] * n as real).Floor + 1)
    && (forall i, j | 0 <= i < |counts| && 0 <= j < |counts| && counts[i] == (shares[i] * n as real).Floor + 1
                      && counts[j] == (shares[j] * n as real).Floor ::
          var (x, y) := (shares[i] * n as real, shares[j] * n as real);
          x - x.Floor as real > y - y.Floor as real || (x - x.Floor as real == y - y.Floor as real && i > j))
  }

  /** `counts` is `first` with buses moved from levels that keep one to levels that had none. */
  ghost predicate Evened(first: seq<nat>, counts: seq<nat>) {
    && |counts| == |first| && Total(counts) == Total(first)
    && (forall k | 0 <= k < |first| :: if first[k] == 0 then counts[k] <= 1 else 1 <= counts[k] <= first[k])
  }

  /** Level `k` gets its turn: if it is empty and some level has more than one bus,
      the fullest of them, the last of equals, gives it one. */
  ghost predicate EvenedAt(was: seq<nat>, now: seq<nat>, k: nat) {
    if k < |was| && was[k] == 0 && exists i :: 0 <= i < |was| && was[i] > 1
    then exists j: nat :: IsFullest(was, j, |was|) && was[j] > 1 && now == was[j := was[j] - 1][k := 1]
    else now == was
  }

  /** Every level in turn. */
  ghost predicate EvenedBy(first: seq<nat>, counts: seq<nat>, run: seq<seq<nat>>) {
    && |run| == |first| + 1 && run[0] == first && run[|first|] == counts
    && forall k: nat | k < |first| :: EvenedAt(run[k], run[k + 1], k)
  }

  /** With no empty level nothing is moved. */
  lemma {:induction false} NothingToEven(first: seq<nat>, counts: seq<nat>)
    requires |counts| == |first| && (forall k | 0 <= k < |first| :: counts[k] <= first[k])
    ensures Total(counts) <= Total(first) && (Total(counts) == Total(first) ==> counts == first)
  {
    if first != [] {
      var n := |first| - 1;
      NothingToEven(first[..n], counts[..n]);
      assert first == first[..n] + [first[n]] && counts == counts[..n] + [counts[n]];
    }
  }

  /** Level `k`'s turn. */
  method EvenLevel(ghost first: seq<nat>, counts0: seq<nat>, k: nat) returns (counts: seq<nat>)
    requires k < |counts0| && Evened(first, counts0)
    ensures Evened(first, counts) && EvenedAt(counts0, counts, k)
    ensures forall i | 0 <= i < |counts| && counts0[i] > 0 :: counts[i] > 0
    ensures Total(counts0) >= |counts0| ==> counts[k] > 0
  {
    counts := counts0;
    if counts[k] == 0 {
      var donor := Fullest(counts);
      if counts[donor] > 1 {
        TotalUpdate(counts, donor, counts[donor] - 1);
        counts := counts[donor := counts[donor] - 1];
        TotalUpdate(counts, k, counts[k] + 1);
        counts := counts[k := counts[k] + 1];
      } else {
        AtMostOneEach(counts);
      }
    }
  }

  /** Bus counts per level: the largest-remainder counts, evened out so that with at
      least one bus per level no level is empty. */
  method LevelCounts(n: nat, shares: seq<real>) returns (counts: seq<nat>, ghost run: seq<seq<nat>>)
    requires NonNegative(shares) && |shares| > 0 && Sum(shares) == 1.0
    ensures |counts| == |shares| && Total(counts) == n
    ensures n >= |shares| ==> forall k | 0 <= k < |counts| :: counts[k] > 0
    ensures |run| > 0 && Apportioned(n, shares, run[0]) && EvenedBy(run[0], counts, run) && Evened(run[0], counts)
    ensures (forall k | 0 <= k < |counts| :: run[0][k] > 0) ==> counts == run[0]
  {
    counts := Apportion(n, shares);
    ghost var first := counts;
    run := [first];
    for k := 0 to |shares|
      invariant Evened(first, counts) && |run| == k + 1 && run[0] == first && run[k] == counts
      invariant forall i: nat | i < k :: EvenedAt(run[i], run[i + 1], i)
      invariant n >= |shares| ==> forall i | 0 <= i < k :: counts[i] > 0
    {
      counts := EvenLevel(first, counts, k);
      run := run + [counts];
    }
    if forall k | 0 <= k < |first| :: first[k] > 0 {
      NothingToEven(first, counts);
    }
  }
}
