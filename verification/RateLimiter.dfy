/**
 The expensive-endpoint rate limiter: one lazily pruned log of admissions per
 endpoint and client, behind a lock, with a clock read before the lock is taken.
 Calls are listed in the order in which they hold the lock.
 */
module RateLimiter {

  type Instant = int

  datatype Endpoint = Solve | Sensitivity {
    function Name(): string {
      if Solve? then "solve" else "sensitivity"
    }
  }

  /** Both endpoints share one window; zero events means no limit. */
  datatype Config = Config(solveEvents: nat, sensitivityEvents: nat, window: nat) {
    function Events(e: Endpoint): nat {
      if e.Solve? then solveEvents else sensitivityEvents
    }
  }

  datatype Call = Call(endpoint: Endpoint, client: string, now: Instant) {
    function Key(): string {
      endpoint.Name() + ":" + client
    }
  }

  type Buckets = map<string, seq<Instant>>

  const BUCKET_CAP := 8192

  function Bucket(b: Buckets, key: string): seq<Instant> {
    if key in b then b[key] else []
  }

  /** Requests of different endpoints or clients never share a bucket. */
  lemma KeysDiffer(x: Call, y: Call)
    ensures x.Key() == y.Key() <==> x.endpoint == y.endpoint && x.client == y.client
    ensures x.Key() == (if x.endpoint == Solve then "solve:" else "sensitivity:") + x.client
  {
    var k, l := x.Key(), y.Key();
    if k == l {
      assert k[1] == x.endpoint.Name()[1] && l[1] == y.endpoint.Name()[1];
      var n := |x.endpoint.Name()|;
      assert k[n + 1..] == x.client && l[n + 1..] == y.client;
    }
  }

  // ------------------------------------------------------------ one call

  predicate Expired(seen: Instant, now: Instant, window: nat) {
    now >= seen && now - seen >= window
  }

  /** The bucket from its first entry that has not expired. */
  function Pruned(bucket: seq<Instant>, now: Instant, window: nat): seq<Instant> {
    if bucket != [] && Expired(bucket[0], now, window) then Pruned(bucket[1..], now, window) else bucket
  }

  method PruneRateBucket(bucket: seq<Instant>, now: Instant, window: nat) returns (left: seq<Instant>)
    ensures left == Pruned(bucket, now, window)
  {
    left := bucket;
    while |left| > 0 && Expired(left[0], now, window)
      invariant Pruned(left, now, window) == Pruned(bucket, now, window)
      decreases |left|
    {
      left := left[1..];
    }
  }

  function Retained(b: Buckets, now: Instant, window: nat): Buckets {
    map k | k in b && Pruned(b[k], now, window) != [] :: Pruned(b[k], now, window)
  }

  predicate Admits(cfg: Config, b: Buckets, c: Call) {
    cfg.Events(c.endpoint) == 0 || |Pruned(Bucket(b, c.Key()), c.now, cfg.window)| < cfg.Events(c.endpoint)
  }

  function After(cfg: Config, b: Buckets, c: Call): Buckets {
    if cfg.Events(c.endpoint) == 0 then b else
    var bucket := Pruned(Bucket(b, c.Key()), c.now, cfg.window);
    if |bucket| >= cfg.Events(c.endpoint) then b[c.Key() := bucket] else
    var next := b[c.Key() := bucket + [c.now]];
    if |next| > BUCKET_CAP then Retained(next, c.now, cfg.window) else next
  }

  // ------------------------------------------------------------ what one call does

  /** `left` is the bucket without its leading entries as old as the window. */
  ghost predicate Recent(bucket: seq<Instant>, now: Instant, window: nat, left: seq<Instant>) {
    && |left| <= |bucket| && left == bucket[|bucket| - |left|..]
    && (forall i | 0 <= i < |bucket| - |left| :: now - bucket[i] >= window && now >= bucket[i])
    && (left != [] ==> now - left[0] < window || now < left[0])
  }

  lemma {:induction false} PrunedIsRecentPart(bucket: seq<Instant>, now: Instant, window: nat)
    ensures Recent(bucket, now, window, Pruned(bucket, now, window))
  {
    if bucket != [] && Expired(bucket[0], now, window) {
      PrunedIsRecentPart(bucket[1..], now, window);
    }
  }

  /** The limit of the call's own endpoint. */
  ghost predicate LimitIs(cfg: Config, c: Call, events: nat) {
    events == match c.endpoint case Solve => cfg.solveEvents case Sensitivity => cfg.sensitivityEvents
  }

  /** Without a limit a call is let in and leaves no trace. With one it is let in if
      its own bucket, pruned, holds fewer; the bucket then gains it; and no other bucket
      changes, unless there are more than 8192: then each is pruned and none is empty. */
  ghost predicate Decided(cfg: Config, was: Buckets, c: Call, admitted: bool, now: Buckets) {
    exists events: nat, left: seq<Instant> ::
      && LimitIs(cfg, c, events) && Recent(Bucket(was, c.Key()), c.now, cfg.window, left)
      && (events == 0 ==> admitted && now == was)
      && (events > 0 ==> (admitted <==> |left| < events)
                         && Changed(was[c.Key() := if admitted then left + [c.now] else left], c.now, cfg.window,
                                    admitted, now))
  }

  ghost predicate Changed(next: Buckets, at: Instant, window: nat, admitted: bool, now: Buckets) {
    if !admitted || |next| <= 8192 then now == next
    else
      && (forall k | k in now :: k in next && now[k] != [] && Recent(next[k], at, window, now[k]))
      && (forall k | k in next && k !in now :: Recent(next[k], at, window, []))
  }

  lemma CallDecided(cfg: Config, b: Buckets, c: Call)
    ensures Decided(cfg, b, c, Admits(cfg, b, c), After(cfg, b, c))
  {
    var left := Pruned(Bucket(b, c.Key()), c.now, cfg.window);
    PrunedIsRecentPart(Bucket(b, c.Key()), c.now, cfg.window);
    assert LimitIs(cfg, c, cfg.Events(c.endpoint));
    var next := b[c.Key() := left + [c.now]];
    forall k | k in next
      ensures Recent(next[k], c.now, cfg.window, Pruned(next[k], c.now, cfg.window))
    {
      PrunedIsRecentPart(next[k], c.now, cfg.window);
    }
  }

  class Limiter {
    const cfg: Config
    var buckets: Buckets

    constructor (cfg: Config)
      ensures this.cfg == cfg && buckets == map[]
    {
      this.cfg := cfg;
      buckets := map[];
    }

    /** Decide one call and update the buckets. */
    method CheckExpensiveRateLimit(c: Call) returns (admitted: bool)
      modifies this
      ensures admitted == Admits(cfg, old(buckets), c)
      ensures buckets == After(cfg, old(buckets), c)
      ensures Decided(cfg, old(buckets), c, admitted, buckets)
    {
      CallDecided(cfg, buckets, c);
      var events := cfg.Events(c.endpoint);
      if events == 0 {
        return true;
      }
      var bucket := PruneRateBucket(Bucket(buckets, c.Key()), c.now, cfg.window);
      buckets := buckets[c.Key() := bucket];
      if |bucket| >= events {
        return false;
      }
      assert buckets[c.Key() := bucket + [c.now]] == old(buckets)[c.Key() := bucket + [c.now]];
      buckets := buckets[c.Key() := bucket + [c.now]];
      if |buckets| > BUCKET_CAP {
        buckets := Retained(buckets, c.now, cfg.window);
      }
      return true;
    }
  }

  // ------------------------------------------------------------ runs

  ghost predicate Steps(cfg: Config, b: Buckets, c: Call, next: Buckets) {
    next == After(cfg, b, c)
  }

  /** `states` are the buckets before and after every call of a run. */
  ghost predicate IsRun(cfg: Config, calls: seq<Call>, states: seq<Buckets>) {
    && |states| == |calls| + 1 && states[0] == map[]
    && (forall i: nat | i < |calls| :: StepAt(cfg, calls, states, i))
  }

  ghost predicate StepAt(cfg: Config, calls: seq<Call>, states: seq<Buckets>, i: nat) {
    i < |calls| && i + 1 < |states| && Steps(cfg, states[i], calls[i], states[i + 1])
  }

  /** Call `i` was admitted, and was for `key`. */
  ghost predicate Granted(cfg: Config, calls: seq<Call>, states: seq<Buckets>, key: string, i: nat) {
    i < |calls| && i < |states| && calls[i].Key() == key && Admits(cfg, states[i], calls[i])
  }

  /** The full admission log of a key over the first `n` calls: never pruned, never evicted. */
  ghost function Log(cfg: Config, calls: seq<Call>, states: seq<Buckets>, key: string, n: nat): seq<Instant>
    requires n <= |calls|
  {
    if n == 0 then [] else
    Log(cfg, calls, states, key, n - 1) + (if Granted(cfg, calls, states, key, n - 1) then [calls[n - 1].now] else [])
  }

  /** Later lock holders read clocks at most `lag` behind earlier ones. */
  ghost predicate Lagging(calls: seq<Call>, lag: nat) {
    forall i: nat, j: nat | i < j < |calls| :: LagAt(calls, lag, i, j)
  }

  ghost predicate LagAt(calls: seq<Call>, lag: nat, i: nat, j: nat) {
    i < |calls| && j < |calls| && calls[j].now >= calls[i].now - lag
  }

  /** `seen` had expired for one of the first `n` calls. */
  ghost predicate ExpiredBy(calls: seq<Call>, n: nat, seen: Instant, window: nat) {
    exists i :: 0 <= i < n && i < |calls| && Expired(seen, calls[i].now, window)
  }

  /** A bucket is the log without a prefix all of whose entries have expired. */
  ghost predicate Suffix(bucket: seq<Instant>, log: seq<Instant>, calls: seq<Call>, n: nat, window: nat) {
    && |bucket| <= |log| && bucket == log[|log| - |bucket|..]
    && (forall i | 0 <= i < |log| - |bucket| :: ExpiredBy(calls, n, log[i], window))
  }

  lemma {:induction false} PrunedSuffix(bucket: seq<Instant>, log: seq<Instant>, calls: seq<Call>, n: nat, window: nat)
    requires n < |calls| && Suffix(bucket, log, calls, n + 1, window)
    ensures Suffix(Pruned(bucket, calls[n].now, window), log, calls, n + 1, window)
    decreases |bucket|
  {
    if bucket != [] && Expired(bucket[0], calls[n].now, window) {
      assert bucket[0] == log[|log| - |bucket|];
      assert ExpiredBy(calls, n + 1, bucket[0], window);
      PrunedSuffix(bucket[1..], log, calls, n, window);
    }
  }

  lemma SuffixLater(bucket: seq<Instant>, log: seq<Instant>, calls: seq<Call>, n: nat, window: nat)
    requires Suffix(bucket, log, calls, n, window)
    ensures Suffix(bucket, log, calls, n + 1, window)
  {
    forall i | 0 <= i < |log| - |bucket|
      ensures ExpiredBy(calls, n + 1, log[i], window)
    {
      assert ExpiredBy(calls, n, log[i], window);
    }
  }

  lemma SuffixPush(bucket: seq<Instant>, log: seq<Instant>, calls: seq<Call>, n: nat, window: nat, now: Instant)
    requires Suffix(bucket, log, calls, n, window)
    ensures Suffix(bucket + [now], log + [now], calls, n, window)
  {
  }

  /** What one call does to the bucket of a key. */
  lemma AfterBucket(cfg: Config, b: Buckets, c: Call, key: string)
    requires cfg.Events(c.endpoint) > 0
    ensures var own := if c.Key() == key
                       then Pruned(Bucket(b, key), c.now, cfg.window) + (if Admits(cfg, b, c) then [c.now] else [])
                       else Bucket(b, key);
            var got := Bucket(After(cfg, b, c), key);
            got == own || got == Pruned(own, c.now, cfg.window)
  {
  }

  lemma StepKeepsSuffix(cfg: Config, b: Buckets, log: seq<Instant>, calls: seq<Call>, n: nat, key: string,
                        next: Buckets)
    requires n < |calls| && Suffix(Bucket(b, key), log, calls, n, cfg.window) && Steps(cfg, b, calls[n], next)
    requires calls[n].Key() == key ==> cfg.Events(calls[n].endpoint) > 0
    ensures Suffix(Bucket(next, key), log + (if calls[n].Key() == key && Admits(cfg, b, calls[n]) then [calls[n].now]
                                             else []),
                   calls, n + 1, cfg.window)
  {
    var last, bucket, w := calls[n], Bucket(b, key), cfg.window;
    SuffixLater(bucket, log, calls, n, w);
    assert log + [] == log;
    if cfg.Events(last.endpoint) > 0 {
      AfterBucket(cfg, b, last, key);
      PrunedSuffix(bucket, log, calls, n, w);
      if last.Key() == key {
        var kept := Pruned(bucket, last.now, w);
        assert kept + [] == kept;
        if Admits(cfg, b, last) {
          SuffixPush(kept, log, calls, n + 1, w, last.now);
          PrunedSuffix(kept + [last.now], log + [last.now], calls, n, w);
        } else {
          PrunedSuffix(kept, log, calls, n, w);
        }
      }
    }
  }

  /** Every call for `key` is limited to `events`. */
  ghost predicate Limited(cfg: Config, calls: seq<Call>, key: string, events: nat) {
    events > 0 && forall i: nat | i < |calls| :: LimitAt(cfg, calls, key, events, i)
  }

  ghost predicate LimitAt(cfg: Config, calls: seq<Call>, key: string, events: nat, i: nat) {
    i < |calls| && (calls[i].Key() == key ==> cfg.Events(calls[i].endpoint) == events)
  }

  lemma KeyIsLimited(cfg: Config, calls: seq<Call>, c: Call)
    requires cfg.Events(c.endpoint) > 0
    ensures Limited(cfg, calls, c.Key(), cfg.Events(c.endpoint))
  {
    forall i: nat | i < |calls|
      ensures LimitAt(cfg, calls, c.Key(), cfg.Events(c.endpoint), i)
    {
      KeysDiffer(calls[i], c);
    }
  }

  /** Throughout any run, every limited key's bucket is its log without expired entries. */
  lemma {:induction false} BucketIsSuffix(cfg: Config, calls: seq<Call>, states: seq<Buckets>, key: string,
                                          events: nat, n: nat)
    requires Limited(cfg, calls, key, events) && IsRun(cfg, calls, states) && n <= |calls|
    ensures Suffix(Bucket(states[n], key), Log(cfg, calls, states, key, n), calls, n, cfg.window)
  {
    if n > 0 {
      BucketIsSuffix(cfg, calls, states, key, events, n - 1);
      assert StepAt(cfg, calls, states, n - 1) && LimitAt(cfg, calls, key, events, n - 1);
      StepKeepsSuffix(cfg, states[n - 1], Log(cfg, calls, states, key, n - 1), calls, n - 1, key, states[n]);
    }
  }

  // ------------------------------------------------------------ the bound

  /** A call that is let in finds fewer than `events` entries left: whatever is
      `events` back in the log has expired. */
  lemma GrantedNeedsExpiry(cfg: Config, b: Buckets, log: seq<Instant>, calls: seq<Call>, n: nat, i: nat)
    requires n < |calls| && cfg.Events(calls[n].endpoint) > 0 && Admits(cfg, b, calls[n])
    requires Suffix(Bucket(b, calls[n].Key()), log, calls, n, cfg.window)
    requires i + cfg.Events(calls[n].endpoint) <= |log|
    ensures ExpiredBy(calls, n + 1, log[i], cfg.window)
  {
    SuffixLater(Bucket(b, calls[n].Key()), log, calls, n, cfg.window);
    PrunedSuffix(Bucket(b, calls[n].Key()), log, calls, n, cfg.window);
  }

  /** Two admissions `events` apart in a key's log are at least `window - lag` apart in time. */
  lemma {:induction false} LogSpacing(cfg: Config, calls: seq<Call>, states: seq<Buckets>, key: string, events: nat,
                                      lag: nat, n: nat, i: nat, j: nat)
    requires Limited(cfg, calls, key, events) && IsRun(cfg, calls, states) && Lagging(calls, lag) && n <= |calls|
    requires j < |Log(cfg, calls, states, key, n)| && i + events <= j
    ensures Log(cfg, calls, states, key, n)[j] - Log(cfg, calls, states, key, n)[i] >= cfg.window - lag
  {
    var log := Log(cfg, calls, states, key, n - 1);
    if j < |log| {
      LogSpacing(cfg, calls, states, key, events, lag, n - 1, i, j);
    } else {
      assert Log(cfg, calls, states, key, n) == log + [calls[n - 1].now];
      assert LimitAt(cfg, calls, key, events, n - 1);
      BucketIsSuffix(cfg, calls, states, key, events, n - 1);
      GrantedNeedsExpiry(cfg, states[n - 1], log, calls, n - 1, i);
      ExpiredLongAgo(calls, n - 1, log[i], cfg.window, lag);
    }
  }

  lemma ExpiredLongAgo(calls: seq<Call>, n: nat, seen: Instant, window: nat, lag: nat)
    requires n < |calls| && Lagging(calls, lag) && ExpiredBy(calls, n + 1, seen, window)
    ensures calls[n].now - seen >= window - lag
  {
    var k :| 0 <= k < n + 1 && Expired(seen, calls[k].now, window);
    assert k < n ==> LagAt(calls, lag, k, n);
  }

  /** Positions of a log whose times fall in `[from, to]`. */
  ghost function Within(log: seq<Instant>, from: Instant, to: Instant): set<nat> {
    set i: nat | i < |log| && from <= log[i] <= to
  }

  lemma {:induction false} SpanOf(s: set<nat>, lo: nat, hi: nat)
    requires forall x | x in s :: lo <= x < hi
    ensures |s| <= if lo < hi then hi - lo else 0
    decreases hi
  {
    if s != {} {
      var x :| x in s;
      assert lo < hi;
      SpanOf(s - {hi - 1}, lo, hi - 1);
    }
  }

  /** The ends of a set of positions are at least its size apart, less one. */
  lemma Widest(s: set<nat>) returns (i: nat, j: nat)
    requires s != {}
    ensures i in s && j in s && (forall x | x in s :: i <= x <= j) && j - i + 1 >= |s|
  {
    i :| i in s;
    j := i;
    var left := s - {i};
    while left != {}
      invariant left <= s && i in s && j in s && i <= j && (forall x | x in s :: x in left || i <= x <= j)
      decreases left
    {
      var x :| x in left;
      if x < i {
        i := x;
      }
      if x > j {
        j := x;
      }
      left := left - {x};
    }
    SpanOf(s, i, j + 1);
  }

  /** Over every run whose clock readings lag by at most `lag`, no client is
      admitted more than `events` times in an interval shorter than `window - lag`. */
  lemma NeverTooMany(cfg: Config, calls: seq<Call>, states: seq<Buckets>, c: Call, events: nat, lag: nat,
                     from: Instant, to: Instant)
    requires LimitIs(cfg, c, events) && events > 0 && IsRun(cfg, calls, states) && Lagging(calls, lag)
    requires to - from < cfg.window - lag
    ensures |Within(Log(cfg, calls, states, c.Key(), |calls|), from, to)| <= events
  {
    var hits := Within(Log(cfg, calls, states, c.Key(), |calls|), from, to);
    if |hits| > cfg.Events(c.endpoint) {
      var i, j := Widest(hits);
      KeyIsLimited(cfg, calls, c);
      LogSpacing(cfg, calls, states, c.Key(), cfg.Events(c.endpoint), lag, |calls|, i, j);
    }
  }

  /** An endpoint without a limit never refuses, and its calls touch no bucket. */
  lemma UnlimitedNeverRefuses(cfg: Config, calls: seq<Call>, states: seq<Buckets>, i: nat)
    requires IsRun(cfg, calls, states) && i < |calls| && LimitIs(cfg, calls[i], 0)
    ensures Granted(cfg, calls, states, calls[i].Key(), i) && states[i + 1] == states[i]
  {
    assert StepAt(cfg, calls, states, i);
  }

  // ------------------------------------------------------------ exactness

  ghost predicate Ascending(s: seq<Instant>) {
    forall i, j | 0 <= i < j < |s| :: s[i] <= s[j]
  }

  ghost predicate NoLater(s: seq<Instant>, now: Instant) {
    forall i | 0 <= i < |s| :: s[i] <= now
  }

  /** With clocks that never run back, a log is in time order and ends before now. */
  lemma {:induction false} LogAscending(cfg: Config, calls: seq<Call>, states: seq<Buckets>, key: string, n: nat)
    requires Lagging(calls, 0) && n <= |calls|
    ensures Ascending(Log(cfg, calls, states, key, n))
    ensures n < |calls| ==> NoLater(Log(cfg, calls, states, key, n), calls[n].now)
  {
    if n > 0 {
      LogAscending(cfg, calls, states, key, n - 1);
      assert n < |calls| ==> LagAt(calls, 0, n - 1, n);
    }
  }

  lemma SuffixAscending(s: seq<Instant>, k: nat)
    requires Ascending(s) && k <= |s|
    ensures Ascending(s[k..])
  {
    forall i, j | 0 <= i < j < |s[k..]|
      ensures s[k..][i] <= s[k..][j]
    {
      assert s[k..][i] == s[k + i] && s[k..][j] == s[k + j];
    }
  }

  lemma {:induction false} PrunedAscending(bucket: seq<Instant>, now: Instant, window: nat)
    requires Ascending(bucket)
    ensures forall i | 0 <= i < |Pruned(bucket, now, window)| :: !Expired(Pruned(bucket, now, window)[i], now, window)
  {
    if bucket != [] && Expired(bucket[0], now, window) {
      SuffixAscending(bucket, 1);
      PrunedAscending(bucket[1..], now, window);
    }
  }

  lemma {:induction false} SuffixCount(log: seq<Instant>, k: nat, from: Instant, to: Instant)
    requires k <= |log| && (forall i | 0 <= i < |log| :: from <= log[i] <= to <==> k <= i)
    ensures |Within(log, from, to)| == |log| - k
  {
    if k == |log| {
      assert Within(log, from, to) == {};
    } else {
      var n := |log| - 1;
      SuffixCount(log[..n], k, from, to);
      assert Within(log, from, to) == Within(log[..n], from, to) + {n};
    }
  }

  lemma LeftIsRecent(calls: seq<Call>, n: nat, log: seq<Instant>, left: seq<Instant>, window: nat)
    requires n < |calls| && Lagging(calls, 0) && Suffix(left, log, calls, n + 1, window) && NoLater(log, calls[n].now)
    requires forall i | 0 <= i < |left| :: !Expired(left[i], calls[n].now, window)
    ensures forall i | 0 <= i < |log| :: calls[n].now - window + 1 <= log[i] <= calls[n].now <==> |log| - |left| <= i
  {
    var now := calls[n].now;
    forall i | 0 <= i < |log|
      ensures now - window + 1 <= log[i] <= now <==> |log| - |left| <= i
    {
      if i < |log| - |left| {
        assert ExpiredBy(calls, n + 1, log[i], window);
        var k :| 0 <= k < n + 1 && Expired(log[i], calls[k].now, window);
        assert k < n ==> LagAt(calls, 0, k, n);
      } else {
        assert log[i] == left[i - (|log| - |left|)];
      }
    }
  }

  /** What pruning leaves of an ordered log counts the admissions in the window. */
  lemma PrunedIsRecent(bucket: seq<Instant>, log: seq<Instant>, calls: seq<Call>, n: nat, window: nat)
    requires n < |calls| && Lagging(calls, 0) && Suffix(bucket, log, calls, n, window)
    requires Ascending(log) && NoLater(log, calls[n].now)
    ensures |Within(log, calls[n].now - window + 1, calls[n].now)| == |Pruned(bucket, calls[n].now, window)|
  {
    var now := calls[n].now;
    var left := Pruned(bucket, now, window);
    assert Suffix(left, log, calls, n + 1, window) by {
      SuffixLater(bucket, log, calls, n, window);
      PrunedSuffix(bucket, log, calls, n, window);
    }
    assert Ascending(bucket) by {
      SuffixAscending(log, |log| - |bucket|);
    }
    PrunedAscending(bucket, now, window);
    LeftIsRecent(calls, n, log, left, window);
    SuffixCount(log, |log| - |left|, now - window + 1, now);
  }

  /** At no lag the pruned, evicted buckets decide every call exactly as the full
      log would: by the admissions in the window that ends at the call. */
  lemma DecidesAsFullLog(cfg: Config, calls: seq<Call>, states: seq<Buckets>, n: nat)
    requires IsRun(cfg, calls, states) && Lagging(calls, 0) && n < |calls| && cfg.Events(calls[n].endpoint) > 0
    ensures Admits(cfg, states[n], calls[n]) <==>
            |Within(Log(cfg, calls, states, calls[n].Key(), n), calls[n].now - cfg.window + 1,
                    calls[n].now)| < cfg.Events(calls[n].endpoint)
  {
    KeyIsLimited(cfg, calls, calls[n]);
    DecidesForKey(cfg, calls, states, calls[n].Key(), cfg.Events(calls[n].endpoint), n);
  }

  lemma DecidesForKey(cfg: Config, calls: seq<Call>, states: seq<Buckets>, key: string, events: nat, n: nat)
    requires IsRun(cfg, calls, states) && Lagging(calls, 0) && Limited(cfg, calls, key, events) && n < |calls|
    ensures |Pruned(Bucket(states[n], key), calls[n].now, cfg.window)|
         == |Within(Log(cfg, calls, states, key, n), calls[n].now - cfg.window + 1, calls[n].now)|
  {
    LogAscending(cfg, calls, states, key, n);
    BucketIsSuffix(cfg, calls, states, key, events, n);
    PrunedIsRecent(Bucket(states[n], key), Log(cfg, calls, states, key, n), calls, n, cfg.window);
  }

  // ------------------------------------------------------------ the bound is tight

  /** With a lag, `window - lag` cannot be improved: a client limited to two
      requests gets three within exactly that span. */
  lemma LagIsPaidFor(window: nat, lag: nat) returns (cfg: Config, calls: seq<Call>, states: seq<Buckets>)
    requires 0 < lag <= window
    ensures cfg.window == window && cfg.Events(Solve) == 2
    ensures IsRun(cfg, calls, states) && Lagging(calls, lag)
    ensures |Within(Log(cfg, calls, states, Call(Solve, "a", 0).Key(), |calls|), 0, window - lag)| == 3
  {
    var c := Call(Solve, "a", 0);
    cfg, calls := Config(2, 0, window), [c, c, c.(now := window), c.(now := window - lag)];
    states := TightRun(cfg, calls, c.Key());
    TightLog(cfg, calls, states, c.Key());
    assert Within([0, 0, window, window - lag], 0, window - lag) == {0, 1, 3};
  }

  /** Two at time zero, one a window later that expires both, and one that read its clock before. */
  lemma TightRun(cfg: Config, calls: seq<Call>, key: string) returns (states: seq<Buckets>)
    requires |calls| == 4 && (forall i: nat | i < 4 :: calls[i].Key() == key && cfg.Events(calls[i].endpoint) == 2)
    requires calls[0].now == calls[1].now == 0 < calls[2].now == cfg.window && 0 <= calls[3].now <= cfg.window
    ensures IsRun(cfg, calls, states) && (forall i: nat | i < 4 :: Granted(cfg, calls, states, key, i))
  {
    var w, t := cfg.window, calls[3].now;
    states := [map[], map[key := [0]], map[key := [0, 0]], map[key := [w]], map[key := [w, t]]];
    forall i: nat | i < 4
      ensures StepAt(cfg, calls, states, i) && Granted(cfg, calls, states, key, i)
    {
      if i == 0 {
        AdmitsTo(cfg, map[], calls[0], key, [], [0]);
      } else if i == 1 {
        AdmitsTo(cfg, states[1], calls[1], key, [0], [0, 0]);
      } else if i == 2 {
        assert [0, 0][1..] == [0] && [0][1..] == [];
        assert Pruned([0, 0], w, w) == Pruned([0], w, w) == Pruned([], w, w);
        AdmitsTo(cfg, states[2], calls[2], key, [], [w]);
      } else {
        AdmitsTo(cfg, states[3], calls[3], key, [w], [w, t]);
      }
    }
  }

  lemma TightLog(cfg: Config, calls: seq<Call>, states: seq<Buckets>, key: string)
    requires |calls| == 4 && (forall i: nat | i < 4 :: Granted(cfg, calls, states, key, i))
    ensures Log(cfg, calls, states, key, 4) == [calls[0].now, calls[1].now, calls[2].now, calls[3].now]
  {
    assert Log(cfg, calls, states, key, 2) == Log(cfg, calls, states, key, 1) + [calls[1].now];
    assert Log(cfg, calls, states, key, 3) == Log(cfg, calls, states, key, 2) + [calls[2].now];
  }

  /** An admission into a lone bucket that pruning leaves as `kept`. */
  lemma AdmitsTo(cfg: Config, b: Buckets, c: Call, key: string, kept: seq<Instant>, next: seq<Instant>)
    requires c.Key() == key && b.Keys <= {key} && Pruned(Bucket(b, key), c.now, cfg.window) == kept
             && |kept| < cfg.Events(c.endpoint)
    requires next == kept + [c.now]
    ensures Admits(cfg, b, c) && Steps(cfg, b, c, map[key := next])
  {
    assert b[key := next] == map[key := next];
    assert |map[key := next]| == 1;
  }
}
