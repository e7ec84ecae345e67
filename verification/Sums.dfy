/** An optional value. */
module Options {
  datatype Option<+T> = None | Some(value: T)
}

/** Sums of real sequences, and sums of deposits made at places. */
module Sums {
  import opened Options

  ghost function Sum(s: seq<real>): real {
    if s == [] then 0.0 else Sum(s[..|s| - 1]) + s[|s| - 1]
  }

  lemma SumPrefix(s: seq<real>, k: nat)
    requires k < |s|
    ensures Sum(s[..k + 1]) == Sum(s[..k]) + s[k]
  {
    assert s[..k + 1][..k] == s[..k];
  }

  /** Changing one entry changes the sum by the difference. */
  lemma {:induction false} SumUpdate(s: seq<real>, i: nat, x: real)
    requires i < |s|
    ensures Sum(s[i := x]) == Sum(s) - s[i] + x
  {
    var n := |s| - 1;
    if i == n {
      assert s[i := x][..n] == s[..n];
    } else {
      assert s[i := x][..n] == s[..n][i := x];
      SumUpdate(s[..n], i, x);
    }
  }

  lemma {:induction false} SumOfZeros(s: seq<real>)
    requires forall i | 0 <= i < |s| :: s[i] == 0.0
    ensures Sum(s) == 0.0
  {
    if s != [] {
      SumOfZeros(s[..|s| - 1]);
    }
  }

  // ------------------------------------------------------------ deposits

  /** What the first `k` amounts leave at place `s`. */
  ghost function Deposited(amount: seq<real>, to: seq<Option<nat>>, s: nat, k: nat): real
    requires k <= |amount| == |to|
  {
    if k == 0 then 0.0 else Deposited(amount, to, s, k - 1) + (if to[k - 1] == Some(s) then amount[k - 1] else 0.0)
  }

  /** What the first `k` amounts leave anywhere. */
  ghost function Placed(amount: seq<real>, to: seq<Option<nat>>, k: nat): real
    requires k <= |amount| == |to|
  {
    if k == 0 then 0.0 else Placed(amount, to, k - 1) + (if to[k - 1].Some? then amount[k - 1] else 0.0)
  }

  /** `out` holds what the first `k` amounts left at every place, and so in all. */
  ghost predicate Holds(out: seq<real>, amount: seq<real>, to: seq<Option<nat>>, k: nat) {
    && k <= |amount| == |to|
    && Sum(out) == Placed(amount, to, k)
    && (forall s | 0 <= s < |out| :: out[s] == Deposited(amount, to, s, k))
  }

  lemma HoldsNothing(n: nat, amount: seq<real>, to: seq<Option<nat>>)
    requires |amount| == |to|
    ensures Holds(seq(n, _ => 0.0), amount, to, 0)
  {
    SumOfZeros(seq(n, _ => 0.0));
  }

  lemma HoldsMore(out: seq<real>, amount: seq<real>, to: seq<Option<nat>>, k: nat)
    requires Holds(out, amount, to, k) && k < |amount|
    requires to[k].Some? ==> to[k].value < |out|
    ensures to[k].None? ==> Holds(out, amount, to, k + 1)
    ensures to[k].Some? ==> Holds(out[to[k].value := out[to[k].value] + amount[k]], amount, to, k + 1)
  {
    if to[k].Some? {
      SumUpdate(out, to[k].value, out[to[k].value] + amount[k]);
    }
  }

  /** Non-negative deposits: a place holds at least each single deposit made there. */
  lemma {:induction false} DepositedAtLeast(amount: seq<real>, to: seq<Option<nat>>, i: nat, k: nat)
    requires k <= |amount| == |to| && (forall j | 0 <= j < |amount| :: amount[j] >= 0.0)
    requires i < k ==> to[i].Some?
    ensures i < k ==> Deposited(amount, to, to[i].value, k) >= amount[i]
    ensures forall s :: Deposited(amount, to, s, k) >= 0.0
  {
    if k > 0 {
      DepositedAtLeast(amount, to, i, k - 1);
    }
  }
}
