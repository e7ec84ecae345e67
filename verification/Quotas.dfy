/**
 Seeded choices of the benchmark feeders that conserve totals: the shuffle, the
 split of a total into near-equal parts, and the voltage-model quotas. A draw is
 any value in its range.
 */
module Quotas {

  /** Any index below `n`. */
  method Below(n: nat) returns (j: nat)
    requires n > 0
    ensures j < n
  {
    j :| 0 <= j < n;
  }

  lemma SwapKeeps<T>(s: seq<T>, i: nat, j: nat)
    requires i < |s| && j < |s|
    ensures multiset(s[i := s[j]][j := s[i]]) == multiset(s)
  {
  }

  /** Fisher-Yates: the same values in some order. */
  method Shuffle<T>(values: seq<T>) returns (r: seq<T>)
    ensures |r| == |values| && multiset(r) == multiset(values)
  {
    r := values;
    if |values| == 0 {
      return;
    }
    for i := |values| downto 1
      invariant |r| == |values| && multiset(r) == multiset(values)
    {
      var j := Below(i + 1);
      SwapKeeps(r, i, j);
      r := r[i := r[j]][j := r[i]];
    }
  }

  ghost function Total(s: seq<nat>): nat {
    if s == [] then 0 else Total(s[..|s| - 1]) + s[|s| - 1]
  }

  lemma {:induction false} TotalUpdate(s: seq<nat>, i: nat, x: nat)
    requires i < |s|
    ensures Total(s[i := x]) == Total(s) - s[i] + x
  {
    var n := |s| - 1;
    if i == n {
      assert s[i := x][..n] == s[..n];
    } else {
      assert s[i := x][..n] == s[..n][i := x];
      TotalUpdate(s[..n], i, x);
    }
  }

  lemma {:induction false} TotalOfEqual(n: nat, x: nat)
    ensures Total(seq(n, _ => x)) == n * x
  {
    if n > 0 {
      TotalOfEqual(n - 1, x);
      assert seq(n, _ => x)[..n - 1] == seq(n - 1, _ => x);
    }
  }

  lemma TotalPrefix(s: seq<nat>, k: nat)
    requires k < |s|
    ensures Total(s[..k + 1]) == Total(s[..k]) + s[k]
  {
    assert s[..k + 1][..k] == s[..k];
  }

  method CountOf(s: seq<nat>) returns (total: nat)
    ensures total == Total(s)
  {
    total := 0;
    for i := 0 to |s|
      invariant total == Total(s[..i])
    {
      TotalPrefix(s, i);
      total := total + s[i];
    }
    assert s[..|s|] == s;
  }

  function Range(n: nat): seq<nat> {
    seq(n, i requires 0 <= i < n => i)
  }

  /** A list with the values of `0..n` repeats none of them. */
  lemma RangeOnce(order: seq<nat>, n: nat)
    requires multiset(order) == multiset(Range(n))
    ensures |order| == n && (forall i | 0 <= i < |order| :: order[i] < n)
    ensures forall i, j | 0 <= i < j < |order| :: order[i] != order[j]
  {
    var range := Range(n);
    assert |order| == |multiset(order)| == |multiset(range)| == n;
    forall i | 0 <= i < |order|
      ensures order[i] < n
    {
      assert order[i] in multiset(order);
      assert order[i] in range;
    }
    forall i, j | 0 <= i < j < |order|
      ensures order[i] != order[j]
    {
      if order[i] == order[j] {
        TwiceCounted(order, i, j);
        OnceInRange(n, order[i]);
        assert false;
      }
    }
  }

  lemma TwiceCounted(s: seq<nat>, i: nat, j: nat)
    requires i < j < |s| && s[i] == s[j]
    ensures multiset(s)[s[i]] >= 2
  {
    assert s == s[..i] + [s[i]] + s[i + 1..j] + [s[j]] + s[j + 1..];
  }

  lemma {:induction false} OnceInRange(n: nat, x: nat)
    ensures multiset(Range(n))[x] == if x < n then 1 else 0
  {
    var range := Range(n);
    if n > 0 {
      OnceInRange(n - 1, x);
      assert range == Range(n - 1) + [n - 1];
    }
  }

  /** Near-equal parts that add up; with enough to go round no part is empty. */
  method SplitSizes(total: nat, parts: nat) returns (sizes: seq<nat>)
    requires parts > 0
    ensures |sizes| == parts && Total(sizes) == total
    ensures forall i | 0 <= i < parts :: sizes[i] == total / parts || sizes[i] == total / parts + 1
    ensures total >= parts ==> forall i | 0 <= i < parts :: sizes[i] > 0
  {
    var base := total / parts;
    var order := Shuffle(Range(parts));
    RangeOnce(order, parts);
    sizes := seq(parts, _ => base);
    TotalOfEqual(parts, base);
    var extra := total % parts;
    for k := 0 to extra
      invariant |sizes| == parts && Total(sizes) == parts * base + k
      invariant forall i | 0 <= i < parts :: sizes[i] == base || sizes[i] == base + 1
      invariant forall j | k <= j < parts :: sizes[order[j]] == base
    {
      var part := order[k];
      TotalUpdate(sizes, part, sizes[part] + 1);
      sizes := sizes[part := sizes[part] + 1];
    }
    EnoughForAll(total, parts);
  }

  lemma EnoughForAll(total: nat, parts: nat)
    requires parts > 0
    ensures total >= parts ==> total / parts >= 1
    ensures total == parts * (total / parts) + total % parts
  {
  }

  function Repeat<T>(x: T, count: nat): (s: seq<T>)
    ensures |s| == count
  {
    seq(count, _ => x)
  }

  lemma {:induction false} RepeatCounts<T>(x: T, count: nat, y: T)
    ensures multiset(Repeat(x, count))[y] == if y == x then count else 0
  {
    if count > 0 {
      RepeatCounts(x, count - 1, y);
      assert Repeat(x, count) == Repeat(x, count - 1) + [x];
    }
  }

  // ------------------------------------------------------------ voltage models

  datatype Kind = ConstantPower | ConstantCurrent | ConstantImpedance | Zip | Exponential

  /** Round half up: the program rounds half away from zero, and rounds no negative value. */
  function Round(x: real): int {
    (x + 0.5).Floor
  }

  lemma ShareNonNegative(x: real, y: real)
    requires x >= 0.0 && y >= 0.0
    ensures x * y >= 0.0
  {
  }

  function Share(fraction: real, loads: nat): (count: nat)
    requires fraction >= 0.0
    ensures count as real <= fraction * loads as real + 0.5 || (loads >= 10 && count == 1)
    ensures loads >= 10 ==> count >= 1
    ensures loads >= 10 && fraction * loads as real < 0.5 ==> count == 1
    ensures loads < 10 || fraction * loads as real >= 0.5 ==>
              count as real - 0.5 <= fraction * loads as real < count as real + 0.5
  {
    var x := fraction * loads as real;
    ShareNonNegative(fraction, loads as real);
    var count := Round(x);
    if loads >= 10 && count < 1 then 1 else count
  }

  /** How many loads get each model. */
  function Quota(kind: Kind, loads: nat): nat
  {
    match kind
    case ConstantCurrent => Share(0.10, loads)
    case ConstantImpedance => Share(0.10, loads)
    case Zip => Share(0.05, loads)
    case Exponential => Share(0.05, loads)
    case ConstantPower => QuotasFit(loads); loads - 2 * Share(0.10, loads) - 2 * Share(0.05, loads)
  }

  /** The voltage-dependent quotas never exceed the loads, however few. */
  lemma QuotasFit(loads: nat)
    ensures 2 * Share(0.10, loads) + 2 * Share(0.05, loads) <= loads
  {
    var n := loads as real;
    var ten, twenty := Share(0.10, loads), Share(0.05, loads);
    if loads < 5 {
      assert 0.10 * n + 0.5 < 1.0 && 0.05 * n + 0.5 < 1.0;
    } else if loads < 10 {
      assert 0.10 * n + 0.5 < 2.0 && 0.05 * n + 0.5 < 1.0;
    } else {
      assert ten as real <= 0.10 * n + 0.5 && twenty as real <= 0.05 * n + 0.5;
    }
  }

  /** The voltage-dependent models' shares of the loads, in percent. */
  ghost function Percent(k: Kind): nat {
    match k
    case ConstantCurrent => 10
    case ConstantImpedance => 10
    case Zip => 5
    case Exponential => 5
    case ConstantPower => 70
  }

  /** `count` is the share rounded to the nearest number, halves up, but at least one of ten or more. */
  ghost predicate NearestShare(k: Kind, loads: nat, count: nat) {
    if loads >= 10 && Percent(k) * loads < 50 then count == 1
    else 100 * count <= Percent(k) * loads + 50 < 100 * (count + 1)
  }

  lemma QuotaIs(k: Kind, loads: nat)
    requires k != ConstantPower
    ensures NearestShare(k, loads, Quota(k, loads))
  {
  }

  const DEPENDENT := [ConstantCurrent, ConstantImpedance, Zip, Exponential]

  /** The first `q` quotas are filled, and nothing else is placed. */
  ghost predicate Filled(kinds: seq<Kind>, loads: nat, q: nat)
    requires q <= 4
  {
    forall k :: multiset(kinds)[k] == if k in DEPENDENT[..q] then Quota(k, loads) else 0
  }

  lemma FillOne(kinds: seq<Kind>, loads: nat, q: nat)
    requires q < 4 && Filled(kinds, loads, q)
    ensures Filled(kinds + Repeat(DEPENDENT[q], Quota(DEPENDENT[q], loads)), loads, q + 1)
  {
    var kind := DEPENDENT[q];
    forall k
      ensures multiset(kinds + Repeat(kind, Quota(kind, loads)))[k]
           == if k in DEPENDENT[..q + 1] then Quota(k, loads) else 0
    {
      RepeatCounts(kind, Quota(kind, loads), k);
      assert DEPENDENT[..q + 1] == DEPENDENT[..q] + [kind];
    }
  }

  /** The voltage-dependent kinds, in quota order. */
  method DependentKinds(loads: nat) returns (kinds: seq<Kind>)
    ensures |kinds| == 2 * Share(0.10, loads) + 2 * Share(0.05, loads) && Filled(kinds, loads, 4)
  {
    kinds := [];
    for q := 0 to 4
      invariant |kinds| == (if q > 0 then Share(0.10, loads) else 0) + (if q > 1 then Share(0.10, loads) else 0)
                           + (if q > 2 then Share(0.05, loads) else 0) + (if q > 3 then Share(0.05, loads) else 0)
      invariant Filled(kinds, loads, q)
    {
      FillOne(kinds, loads, q);
      kinds := kinds + Repeat(DEPENDENT[q], Quota(DEPENDENT[q], loads));
    }
  }

  /** One kind per load, each kind exactly as often as its quota says. */
  method ModelKinds(loads: nat) returns (kinds: seq<Kind>)
    ensures |kinds| == loads
    ensures forall k :: multiset(kinds)[k] == Quota(k, loads)
    ensures forall k | k != ConstantPower :: NearestShare(k, loads, multiset(kinds)[k])
    ensures loads >= 10 ==> forall k | k != ConstantPower :: k in kinds
  {
    QuotasFit(loads);
    kinds := DependentKinds(loads);
    assert DEPENDENT[..4] == DEPENDENT;
    var rest := loads - |kinds|;
    forall k
      ensures multiset(kinds + Repeat(ConstantPower, rest))[k] == Quota(k, loads)
    {
      RepeatCounts(ConstantPower, rest, k);
    }
    kinds := Shuffle(kinds + Repeat(ConstantPower, rest));
    forall k | k != ConstantPower
      ensures NearestShare(k, loads, multiset(kinds)[k])
    {
      QuotaIs(k, loads);
    }
    forall k | loads >= 10 && k != ConstantPower
      ensures k in kinds
    {
      assert multiset(kinds)[k] == Quota(k, loads) >= 1;
      assert k in multiset(kinds);
    }
  }
}
