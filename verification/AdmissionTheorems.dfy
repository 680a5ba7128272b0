/** How many calls the limiter admits. */
module AdmissionTheorems {
  import opened Admission

  function Min(a: nat, b: nat): nat { if a < b then a else b }

  /** Calls counted in the bucket that was opened at a position, and those of them admitted. */
  function Calls(log: seq<Call>, origin: nat): nat {
    if log == [] then 0
    else Calls(log[..|log| - 1], origin) + if log[|log| - 1].origin == origin then 1 else 0
  }

  function Admitted(log: seq<Call>, origin: nat): nat {
    if log == [] then 0
    else Admitted(log[..|log| - 1], origin) + if log[|log| - 1].origin == origin && log[|log| - 1].admitted then 1 else 0
  }

  lemma {:induction false} CallsBound(log: seq<Call>, origin: nat)
    ensures Admitted(log, origin) <= Calls(log, origin) <= |log|
  {
    if log != [] {
      CallsBound(log[..|log| - 1], origin);
    }
  }

  lemma {:induction false} NotOpenedYet(log: seq<Call>, origin: nat)
    requires forall j | 0 <= j < |log| :: log[j].origin != origin
    ensures Calls(log, origin) == 0 && Admitted(log, origin) == 0
  {
    if log != [] {
      NotOpenedYet(log[..|log| - 1], origin);
    }
  }

  /** What 32 bits hold of a number of calls. */
  function InBits(n: nat): nat { n % TWO_TO_32 }

  /** How many of the first `n` calls of a bucket are admitted: its first `max` calls, then, each time
      the counter has wrapped to 0, that call and the next `max`. */
  function AdmittedOf(n: nat, max: u32): nat {
    n / TWO_TO_32 * (max + 1) + Min(InBits(n), max)
  }

  lemma OneMoreCall(n: nat, max: u32)
    ensures AdmittedOf(n + 1, max) == AdmittedOf(n, max) + if InBits(n + 1) <= max then 1 else 0
  {
    var q, r := n / TWO_TO_32, n % TWO_TO_32;
    if r + 1 == TWO_TO_32 {
      assert n + 1 == (q + 1) * TWO_TO_32;
      assert (n + 1) / TWO_TO_32 == q + 1 && (n + 1) % TWO_TO_32 == 0;
      assert (q + 1) * (max + 1) == q * (max + 1) + (max + 1);
    } else {
      assert (n + 1) / TWO_TO_32 == q && (n + 1) % TWO_TO_32 == r + 1;
    }
  }

  /** Every bucket's counter holds its number of calls in 32 bits, and decides each admission. */
  ghost predicate CountsInv(s: State, limits: Limits) {
    && s.origins.Keys >= s.buckets.Keys
    && (forall j | 0 <= j < |s.log| :: s.log[j].origin <= j)
    && (forall b: nat :: Admitted(s.log, b) == AdmittedOf(Calls(s.log, b), limits.max))
    && (forall key | key in s.buckets :: s.buckets[key].count == InBits(Calls(s.log, s.origins[key])))
  }

  ghost predicate KeysInv(s: State) {
    && (forall key | key in s.origins :: s.origins[key] < |s.log| && s.log[s.origins[key]].key == key)
    && (forall j | 0 <= j < |s.log| :: s.log[j].origin < |s.log|)
  }

  lemma CallsSnoc(log: seq<Call>, c: Call, b: nat)
    ensures Calls(log + [c], b) == Calls(log, b) + if c.origin == b then 1 else 0
    ensures Admitted(log + [c], b) == Admitted(log, b) + if c.origin == b && c.admitted then 1 else 0
  {
    assert (log + [c])[..|log|] == log;
  }

  lemma StepKeepsKeys(s: State, key: Key, now: Instant, limits: Limits)
    requires KeysInv(s)
    ensures KeysInv(Step(s, key, now, limits))
  {
    StepShape(s, key, now, limits);
    hide Step;
    var w := Step(s, key, now, limits);
    var c := w.log[|s.log|];
    forall k | k in w.origins
      ensures w.origins[k] < |w.log| && w.log[w.origins[k]].key == k
    {
      assert k == key || w.origins[k] == s.origins[k];
    }
  }

  /** The shape of a step. */
  lemma StepShape(s: State, key: Key, now: Instant, limits: Limits)
    ensures var w := Step(s, key, now, limits);
            && |w.log| == |s.log| + 1 && w.log == s.log + [w.log[|s.log|]]
            && w.log[|s.log|].key == key && w.origins == s.origins[key := w.log[|s.log|].origin]
            && (w.log[|s.log|].origin == |s.log| || (key in s.origins && w.log[|s.log|].origin == s.origins[key]))
            && key in w.buckets
  {
  }

  /** No live bucket of the key: the call opens one. */
  predicate Opens(s: State, key: Key, now: Instant) {
    !(key in s.buckets && s.buckets[key].windowEnd > now)
  }

  /** A call counts in its key's live bucket, or opens one. */
  lemma NewCallBucket(s: State, key: Key, now: Instant, limits: Limits)
    requires s.origins.Keys >= s.buckets.Keys
    ensures var w := Step(s, key, now, limits);
            var c := w.log[|s.log|];
            && key in w.buckets && (c.admitted <==> w.buckets[key].count <= limits.max)
            && (if Opens(s, key, now) then c.origin == |s.log| && w.buckets[key].count == 1
                else c.origin == s.origins[key]
                     && w.buckets[key].count == if s.buckets[key].count + 1 == TWO_TO_32 then 0 else s.buckets[key].count + 1)
  {
  }

  /** How many calls the new call's bucket had before it. */
  lemma NewCallCounts(s: State, key: Key, now: Instant, limits: Limits)
    requires CountsInv(s, limits)
    ensures var w := Step(s, key, now, limits);
            var c := w.log[|s.log|];
            && key in w.buckets && w.buckets[key].count == InBits(Calls(s.log, c.origin) + 1)
            && (c.admitted <==> InBits(Calls(s.log, c.origin) + 1) <= limits.max)
  {
    hide Calls, Admitted, AdmittedOf, InBits;
    NewCallBucket(s, key, now, limits);
    hide Step;
    var c := Step(s, key, now, limits).log[|s.log|];
    if Opens(s, key, now) {
      NotOpenedYet(s.log, |s.log|);
    }
    CountInBits(Calls(s.log, c.origin));
  }

  lemma CountInBits(n: nat)
    ensures InBits(0) == 0 && InBits(n + 1) == if InBits(n) + 1 == TWO_TO_32 then 0 else InBits(n) + 1
  {
  }

  lemma OtherBucketsStay(s: State, key: Key, now: Instant, limits: Limits, k: Key)
    requires k in Step(s, key, now, limits).buckets && k != key
    ensures k in s.buckets && Step(s, key, now, limits).buckets[k] == s.buckets[k]
  {
  }

  lemma StepKeepsBucketCounts(s: State, key: Key, now: Instant, limits: Limits, k: Key)
    requires CountsInv(s, limits) && KeysInv(s)
    requires k in Step(s, key, now, limits).buckets
    ensures var w := Step(s, key, now, limits); k in w.origins && w.buckets[k].count == InBits(Calls(w.log, w.origins[k]))
  {
    hide Calls, Admitted, AdmittedOf, InBits, KeysInv;
    StepShape(s, key, now, limits);
    NewCallCounts(s, key, now, limits);
    if k != key {
      OtherBucketsStay(s, key, now, limits, k);
      OtherBucketsDiffer(s, k, key, now, limits);
    }
    hide Step;
    var w := Step(s, key, now, limits);
    CallsSnoc(s.log, w.log[|s.log|], w.origins[k]);
  }

  lemma StepKeepsCounts(s: State, key: Key, now: Instant, limits: Limits)
    requires CountsInv(s, limits) && KeysInv(s)
    ensures CountsInv(Step(s, key, now, limits), limits)
  {
    hide Step, Calls, Admitted, InBits;
    StepShape(s, key, now, limits);
    NewCallCounts(s, key, now, limits);
    var w := Step(s, key, now, limits);
    var c := w.log[|s.log|];
    forall k | k in w.buckets
      ensures k in w.origins && w.buckets[k].count == InBits(Calls(w.log, w.origins[k]))
    {
      StepKeepsBucketCounts(s, key, now, limits, k);
    }
    hide AdmittedOf;
    forall b: nat
      ensures Admitted(w.log, b) == AdmittedOf(Calls(w.log, b), limits.max)
    {
      CallsSnoc(s.log, c, b);
      OneMoreCall(Calls(s.log, b), limits.max);
    }
  }

  /** A call never counts in the bucket of another key. */
  lemma OtherBucketsDiffer(s: State, k: Key, key: Key, now: Instant, limits: Limits)
    requires KeysInv(s) && k in s.origins && key != k
    ensures Step(s, key, now, limits).log[|s.log|].origin != s.origins[k]
  {
    StepShape(s, key, now, limits);
    hide Step;
    assert s.log[s.origins[k]].key == k;
  }

  lemma {:induction false} RunKeepsCounts(requests: seq<Request>, limits: Limits)
    ensures var s := Run(requests, limits); CountsInv(s, limits) && KeysInv(s) && |s.log| == |requests|
  {
    if requests != [] {
      var before, last := requests[..|requests| - 1], requests[|requests| - 1];
      RunKeepsCounts(before, limits);
      StepKeepsKeys(Run(before, limits), last.key, last.now, limits);
      StepKeepsCounts(Run(before, limits), last.key, last.now, limits);
    }
  }

  /** Over every run the number of calls a bucket admits is exactly that function of its calls:
      a refused call consumes its slot, and no call is refused without need. */
  lemma AdmissionsAreExact(requests: seq<Request>, limits: Limits, b: nat)
    ensures var log := Run(requests, limits).log;
            Admitted(log, b) == AdmittedOf(Calls(log, b), limits.max)
  {
    RunKeepsCounts(requests, limits);
  }

  /** A bucket admits its first `max` calls and no more if and only if it counts fewer than 2^32. */
  lemma BucketsAdmitTheirFirstMax(requests: seq<Request>, limits: Limits, b: nat)
    ensures var log := Run(requests, limits).log;
            Admitted(log, b) == Min(Calls(log, b), limits.max) <==> Calls(log, b) < 4_294_967_296
  {
    AdmissionsAreExact(requests, limits, b);
    FewCallsAreCapped(Calls(Run(requests, limits).log, b), limits.max);
  }

  lemma AtLeastOnce(q: nat, m: nat)
    requires q >= 1
    ensures q * m >= m
  {
  }

  lemma FewCallsAreCapped(n: nat, max: u32)
    ensures AdmittedOf(n, max) == Min(n, max) <==> n < TWO_TO_32
    ensures n < TWO_TO_32 ==> AdmittedOf(n, max) <= max
  {
    if n >= TWO_TO_32 {
      AtLeastOnce(n / TWO_TO_32, max + 1);
    }
  }

  /** Only live buckets are kept, apart from the one the last call counted in. */
  lemma ExpiredBucketsAreEvicted(requests: seq<Request>, limits: Limits, key: Key)
    requires requests != [] && key in Run(requests, limits).buckets
    ensures var last := requests[|requests| - 1];
            key == last.key || last.now < Run(requests, limits).buckets[key].windowEnd
  {
  }

  // A run that wraps the counter.

  /** That many calls of one key at one instant. */
  function Burst(key: Key, n: nat): seq<Request> { seq(n, _ => Request(key, 0)) }

  lemma {:induction false} BurstRun(key: Key, n: nat, limits: Limits)
    requires limits.window > 0
    ensures var s := Run(Burst(key, n), limits);
            && |s.log| == n && Calls(s.log, 0) == n
            && (forall j | 0 <= j < n :: s.log[j].key == key && s.log[j].now == 0 && s.log[j].origin == 0)
            && (n > 0 ==> key in s.buckets && s.buckets[key].windowEnd == limits.window && key in s.origins && s.origins[key] == 0)
  {
    hide Calls;
    if n == 0 {
      assert Calls([], 0) == 0 by { NotOpenedYet([], 0); }
    } else {
      BurstRun(key, n - 1, limits);
      assert Burst(key, n)[..n - 1] == Burst(key, n - 1);
      var before := Run(Burst(key, n - 1), limits);
      StepShape(before, key, 0, limits);
      CallsSnoc(before.log, Step(before, key, 0, limits).log[n - 1], 0);
    }
  }

  /** A burst of 2^32 calls wraps the counter: its last call is admitted whatever the limit. */
  lemma CounterWraps(key: Key, limits: Limits)
    requires limits.window > 0
    ensures var s := Run(Burst(key, TWO_TO_32), limits);
            && Calls(s.log, 0) == |s.log| == TWO_TO_32
            && key in s.buckets && s.buckets[key].count == 0
            && s.log[TWO_TO_32 - 1].admitted
            && Admitted(s.log, 0) == limits.max + 1
  {
    BurstRun(key, TWO_TO_32, limits);
    RunKeepsCounts(Burst(key, TWO_TO_32), limits);
    LastAdmission(Burst(key, TWO_TO_32), limits);
  }

  /** An answer compares the counter that its call leaves. */
  lemma LastAdmission(requests: seq<Request>, limits: Limits)
    requires requests != []
    ensures var s := Run(requests, limits);
            var key := requests[|requests| - 1].key;
            |s.log| == |requests| && key in s.buckets && s.log[|s.log| - 1].admitted == (s.buckets[key].count <= limits.max)
  {
    RunKeepsCounts(requests[..|requests| - 1], limits);
  }

  // Windows.

  /** Two calls of one key are in one bucket, or the later's window starts after the earlier's ended. */
  predicate Apart(a: Call, b: Call, window: nat) {
    if a.origin == b.origin then a.windowEnd == b.windowEnd else a.windowEnd <= b.windowEnd - window
  }

  ghost predicate LogApart(log: seq<Call>, window: nat) {
    forall i, j | 0 <= i < j < |log| && log[i].key == log[j].key :: Apart(log[i], log[j], window)
  }

  /** How a logged call stands to its key's bucket, if that is still held. */
  predicate Fits(s: State, i: nat, window: nat, now: Instant)
    requires i < |s.log|
  {
    var c := s.log[i];
    && c.windowEnd - window <= c.now <= now
    && (window > 0 ==> c.now < c.windowEnd)
    && (if c.key !in s.buckets then c.windowEnd <= now
        else c.key in s.origins
             && (if c.origin == s.origins[c.key] then c.windowEnd == s.buckets[c.key].windowEnd
                 else c.windowEnd <= s.buckets[c.key].windowEnd - window))
  }

  ghost predicate BucketsInv(s: State, window: nat, now: Instant) {
    forall key | key in s.buckets :: key in s.origins && s.origins[key] < |s.log| && s.buckets[key].windowEnd - window <= now
  }

  ghost predicate WindowsInv(s: State, window: nat, now: Instant) {
    && LogApart(s.log, window)
    && BucketsInv(s, window, now)
    && forall i {:trigger Fits(s, i, window, now)} | 0 <= i < |s.log| :: Fits(s, i, window, now)
  }

  lemma NewCallFits(s: State, limits: Limits, was: Instant, key: Key, now: Instant)
    requires BucketsInv(s, limits.window, was) && was <= now
    ensures var w := Step(s, key, now, limits);
            Fits(w, |s.log|, limits.window, now) && BucketsInv(w, limits.window, now)
  {
  }

  lemma OldCallFits(s: State, limits: Limits, was: Instant, key: Key, now: Instant, i: nat)
    requires BucketsInv(s, limits.window, was) && was <= now && i < |s.log| && Fits(s, i, limits.window, was)
    requires s.log[i].origin < |s.log|
    ensures var w := Step(s, key, now, limits);
            && Fits(w, i, limits.window, now)
            && (s.log[i].key == key ==> Apart(s.log[i], w.log[|s.log|], limits.window))
  {
  }

  lemma StepKeepsWindows(s: State, limits: Limits, was: Instant, key: Key, now: Instant)
    requires WindowsInv(s, limits.window, was) && KeysInv(s) && was <= now
    ensures WindowsInv(Step(s, key, now, limits), limits.window, now)
  {
    StepShape(s, key, now, limits);
    NewCallFits(s, limits, was, key, now);
    hide Step, Fits, Apart;
    var w := Step(s, key, now, limits);
    forall i | 0 <= i < |s.log|
      ensures Fits(w, i, limits.window, now)
      ensures s.log[i].key == key ==> Apart(s.log[i], w.log[|s.log|], limits.window)
    {
      assert Fits(s, i, limits.window, was);
      OldCallFits(s, limits, was, key, now, i);
    }
  }

  function LastInstant(requests: seq<Request>): Instant {
    if requests == [] then 0 else requests[|requests| - 1].now
  }

  lemma {:induction false} RunKeepsWindows(requests: seq<Request>, limits: Limits)
    requires Monotonic(requests) && requests != []
    ensures KeysInv(Run(requests, limits)) && WindowsInv(Run(requests, limits), limits.window, LastInstant(requests))
  {
    var before, last := requests[..|requests| - 1], requests[|requests| - 1];
    if before == [] {
      StepKeepsKeys(INIT, last.key, last.now, limits);
      StepKeepsWindows(INIT, limits, last.now, last.key, last.now);
    } else {
      RunKeepsWindows(before, limits);
      StepKeepsKeys(Run(before, limits), last.key, last.now, limits);
      StepKeepsWindows(Run(before, limits), limits, LastInstant(before), last.key, last.now);
    }
  }

  predicate InInterval(c: Call, key: Key, start: Instant, window: nat) {
    c.key == key && start <= c.now < start + window
  }

  /** Calls of a key admitted in the half-open interval of one window length from `start`. */
  function AdmittedIn(log: seq<Call>, key: Key, start: Instant, window: nat): nat {
    if log == [] then 0
    else
      var last := log[|log| - 1];
      AdmittedIn(log[..|log| - 1], key, start, window) + if InInterval(last, key, start, window) && last.admitted then 1 else 0
  }

  /** If the calls in the interval are all of two buckets, those two bound their number. */
  lemma {:induction false} TwoBucketsBound(log: seq<Call>, key: Key, start: Instant, window: nat, a: nat, b: nat)
    requires forall j | 0 <= j < |log| && InInterval(log[j], key, start, window) :: log[j].origin == a || log[j].origin == b
    ensures AdmittedIn(log, key, start, window) <= Admitted(log, a) + Admitted(log, b)
  {
    if log != [] {
      TwoBucketsBound(log[..|log| - 1], key, start, window, a, b);
    }
  }

  /** An interval of one window length meets at most two buckets of a key. */
  lemma TwoBuckets(s: State, limits: Limits, now: Instant, key: Key, start: Instant, first: nat, last: nat, j: nat)
    requires WindowsInv(s, limits.window, now) && first <= j <= last < |s.log|
    requires InInterval(s.log[first], key, start, limits.window) && InInterval(s.log[last], key, start, limits.window)
    requires InInterval(s.log[j], key, start, limits.window)
    ensures s.log[j].origin == s.log[first].origin || s.log[j].origin == s.log[last].origin
  {
    assert Fits(s, first, limits.window, now) && Fits(s, j, limits.window, now) && Fits(s, last, limits.window, now);
    assert first < j ==> Apart(s.log[first], s.log[j], limits.window);
    assert j < last ==> Apart(s.log[j], s.log[last], limits.window);
  }

  /** The first and the last call in the interval, if there is any. */
  lemma {:induction false} FirstAndLast(log: seq<Call>, key: Key, start: Instant, window: nat) returns (first: nat, last: nat)
    ensures first <= last
    ensures (first < |log| && last < |log| && InInterval(log[first], key, start, window) && InInterval(log[last], key, start, window))
         || (forall j | 0 <= j < |log| :: !InInterval(log[j], key, start, window))
    ensures forall j | 0 <= j < |log| && InInterval(log[j], key, start, window) :: first <= j <= last
  {
    if log == [] {
      first, last := 0, 0;
    } else {
      var before := log[..|log| - 1];
      first, last := FirstAndLast(before, key, start, window);
      if InInterval(log[|log| - 1], key, start, window) {
        last := |log| - 1;
        if forall j | 0 <= j < |before| :: !InInterval(before[j], key, start, window) {
          first := last;
        } else {
          assert first < |before| && InInterval(before[first], key, start, window);
          assert log[first] == before[first];
        }
      }
      assert forall j | 0 <= j < |before| :: log[j] == before[j];
    }
  }

  lemma {:induction false} NoneInInterval(log: seq<Call>, key: Key, start: Instant, window: nat)
    requires forall j | 0 <= j < |log| :: !InInterval(log[j], key, start, window)
    ensures AdmittedIn(log, key, start, window) == 0
  {
    if log != [] {
      NoneInInterval(log[..|log| - 1], key, start, window);
    }
  }

  /** No call of the key in the interval is in a bucket that counted 2^32 calls. */
  predicate NoBucketWraps(log: seq<Call>, key: Key, start: Instant, window: nat) {
    forall j | 0 <= j < |log| && InInterval(log[j], key, start, window) :: Calls(log, log[j].origin) < TWO_TO_32
  }

  /** Over any run with monotonic instants and any mixture of keys, a key is admitted at most
      2·max times in every half-open interval of one window length, unless a bucket of that key
      that the interval meets wraps its counter. */
  lemma AtMostTwiceMax(requests: seq<Request>, limits: Limits, key: Key, start: Instant)
    requires Monotonic(requests) && NoBucketWraps(Run(requests, limits).log, key, start, limits.window)
    ensures AdmittedIn(Run(requests, limits).log, key, start, limits.window) <= 2 * limits.max
  {
    if requests != [] {
      RunKeepsCounts(requests, limits);
      RunKeepsWindows(requests, limits);
      IntervalBound(Run(requests, limits), limits, LastInstant(requests), key, start);
    }
  }

  lemma IntervalBound(s: State, limits: Limits, now: Instant, key: Key, start: Instant)
    requires CountsInv(s, limits) && WindowsInv(s, limits.window, now) && NoBucketWraps(s.log, key, start, limits.window)
    ensures AdmittedIn(s.log, key, start, limits.window) <= 2 * limits.max
  {
    hide WindowsInv, AdmittedOf, Calls;
    var first, last := FirstAndLast(s.log, key, start, limits.window);
    if forall j | 0 <= j < |s.log| :: !InInterval(s.log[j], key, start, limits.window) {
      NoneInInterval(s.log, key, start, limits.window);
    } else {
      var a, b := s.log[first].origin, s.log[last].origin;
      forall j | 0 <= j < |s.log| && InInterval(s.log[j], key, start, limits.window)
        ensures s.log[j].origin == a || s.log[j].origin == b
      {
        TwoBuckets(s, limits, now, key, start, first, last, j);
      }
      TwoBucketsBound(s.log, key, start, limits.window, a, b);
      FewCallsAreCapped(Calls(s.log, a), limits.max);
      FewCallsAreCapped(Calls(s.log, b), limits.max);
    }
  }

  lemma {:induction false} AllInInterval(log: seq<Call>, key: Key, start: Instant, window: nat, b: nat)
    requires forall j | 0 <= j < |log| :: InInterval(log[j], key, start, window) && log[j].origin == b
    ensures AdmittedIn(log, key, start, window) == Admitted(log, b)
  {
    if log != [] {
      AllInInterval(log[..|log| - 1], key, start, window, b);
    }
  }

  /** The condition is needed under every limit: a burst that wraps the counter twice is admitted
      2·(max + 1) times within one window. */
  lemma WrappedBucketExceedsTwiceMax(key: Key, limits: Limits)
    requires limits.window > 0
    ensures Monotonic(Burst(key, 2 * TWO_TO_32))
    ensures var log := Run(Burst(key, 2 * TWO_TO_32), limits).log;
            AdmittedIn(log, key, 0, limits.window) == 2 * (limits.max + 1)
  {
    var requests := Burst(key, 2 * TWO_TO_32);
    BurstRun(key, 2 * TWO_TO_32, limits);
    AdmissionsAreExact(requests, limits, 0);
    AllInInterval(Run(requests, limits).log, key, 0, limits.window, 0);
  }

  // The exact number of admissions in an interval.

  /** A prefix of a run's log is the log of that prefix of the run. */
  lemma {:induction false} LogOfPrefix(requests: seq<Request>, limits: Limits, n: nat)
    requires n <= |requests|
    ensures |Run(requests, limits).log| == |requests| && Run(requests, limits).log[..n] == Run(requests[..n], limits).log
    decreases |requests|
  {
    if n == |requests| {
      assert requests[..n] == requests;
      RunKeepsCounts(requests, limits);
    } else {
      var before, last := requests[..|requests| - 1], requests[|requests| - 1];
      LogOfPrefix(before, limits, n);
      assert before[..n] == requests[..n];
      StepShape(Run(before, limits), last.key, last.now, limits);
      hide Step;
      var log := Run(requests, limits).log;
      assert log == Run(before, limits).log + [log[|before|]];
    }
  }

  /** Each entry of the log is its request's, and is counted in a bucket of its key. */
  lemma LogEntry(requests: seq<Request>, limits: Limits, j: nat)
    requires j < |requests| == |Run(requests, limits).log|
    ensures var log := Run(requests, limits).log;
            && log[j].key == requests[j].key && log[j].now == requests[j].now
            && log[j].origin <= j && log[log[j].origin].key == log[j].key
  {
    var upTo, before := requests[..j + 1], Run(requests[..j], limits);
    LogOfPrefix(requests, limits, j + 1);
    LogOfPrefix(requests, limits, j);
    RunKeepsCounts(requests[..j], limits);
    assert upTo[..j] == requests[..j];
    var log := Run(requests, limits).log;
    assert log[j] == log[..j + 1][j];
    EntryOfStep(before, requests[j].key, requests[j].now, limits);
    var o := log[j].origin;
    if o < j {
      assert log[o] == log[..j][o];
    }
  }

  lemma EntryOfStep(s: State, key: Key, now: Instant, limits: Limits)
    requires KeysInv(s)
    ensures var c := Step(s, key, now, limits).log[|s.log|];
            c.key == key && c.now == now && c.origin <= |s.log| && (c.origin < |s.log| ==> s.log[c.origin].key == key)
  {
  }

  predicate MonotonicLog(log: seq<Call>) {
    forall i, j | 0 <= i < j < |log| :: log[i].now <= log[j].now
  }

  /** The calls before an instant are a prefix. */
  lemma {:induction false} Split(log: seq<Call>, at: Instant) returns (n: nat)
    requires MonotonicLog(log)
    ensures n <= |log| && forall j | 0 <= j < |log| :: log[j].now < at <==> j < n
  {
    n := |log|;
    if log != [] && log[n - 1].now >= at {
      n := Split(log[..n - 1], at);
    }
  }

  /** The calls from one instant to another are consecutive. */
  lemma Between(log: seq<Call>, start: Instant, window: nat) returns (lo: nat, hi: nat)
    requires MonotonicLog(log)
    ensures lo <= hi <= |log| && forall j | 0 <= j < |log| :: start <= log[j].now < start + window <==> lo <= j < hi
  {
    lo := Split(log, start);
    hi := Split(log, start + window);
    if hi < |log| {
      assert log[hi].now >= start;
    }
  }

  /** What the calls from lo to hi added to a bucket's admissions. */
  function Gain(log: seq<Call>, lo: nat, hi: nat, b: nat, max: u32): int
    requires lo <= hi <= |log|
  {
    AdmittedOf(Calls(log[..hi], b), max) - AdmittedOf(Calls(log[..lo], b), max)
  }

  /** The calls of the interval are those from lo to hi, and its calls of the key count in buckets a and b,
      in which no other key counts. */
  ghost predicate Spans(log: seq<Call>, key: Key, start: Instant, window: nat, lo: nat, hi: nat, a: nat, b: nat) {
    && lo <= hi <= |log|
    && (forall j | 0 <= j < |log| :: start <= log[j].now < start + window <==> lo <= j < hi)
    && (forall j | lo <= j < hi :: log[j].key == key <==> log[j].origin == a || log[j].origin == b)
  }

  lemma PrefixSnoc(log: seq<Call>, n: nat, b: nat)
    requires n < |log|
    ensures Admitted(log[..n + 1], b) == Admitted(log[..n], b) + if log[n].origin == b && log[n].admitted then 1 else 0
  {
    assert log[..n + 1][..n] == log[..n];
  }

  lemma IntervalSnoc(log: seq<Call>, n: nat, key: Key, start: Instant, window: nat)
    requires n < |log|
    ensures AdmittedIn(log[..n + 1], key, start, window)
         == AdmittedIn(log[..n], key, start, window) + if InInterval(log[n], key, start, window) && log[n].admitted then 1 else 0
  {
    assert log[..n + 1][..n] == log[..n];
  }

  lemma {:induction false} IntervalCounts(log: seq<Call>, key: Key, start: Instant, window: nat, lo: nat, hi: nat, a: nat, b: nat, n: nat)
    requires Spans(log, key, start, window, lo, hi, a, b) && lo <= n <= hi
    ensures AdmittedIn(log[..n], key, start, window)
         == Admitted(log[..n], a) - Admitted(log[..lo], a) + if a == b then 0 else Admitted(log[..n], b) - Admitted(log[..lo], b)
    decreases n
  {
    hide Admitted, AdmittedIn;
    if n == lo {
      NoneInInterval(log[..lo], key, start, window);
    } else {
      IntervalCounts(log, key, start, window, lo, hi, a, b, n - 1);
      PrefixSnoc(log, n - 1, a);
      PrefixSnoc(log, n - 1, b);
      IntervalSnoc(log, n - 1, key, start, window);
    }
  }

  lemma {:induction false} NothingAfter(log: seq<Call>, key: Key, start: Instant, window: nat, lo: nat, hi: nat, a: nat, b: nat, n: nat)
    requires Spans(log, key, start, window, lo, hi, a, b) && hi <= n <= |log|
    ensures AdmittedIn(log[..n], key, start, window) == AdmittedIn(log[..hi], key, start, window)
    decreases n
  {
    hide AdmittedIn;
    if n > hi {
      NothingAfter(log, key, start, window, lo, hi, a, b, n - 1);
      IntervalSnoc(log, n - 1, key, start, window);
    }
  }

  lemma GainIsAdmitted(requests: seq<Request>, limits: Limits, lo: nat, hi: nat, b: nat)
    requires lo <= hi <= |requests| == |Run(requests, limits).log|
    ensures var log := Run(requests, limits).log;
            Gain(log, lo, hi, b, limits.max) == Admitted(log[..hi], b) - Admitted(log[..lo], b)
  {
    LogOfPrefix(requests, limits, lo);
    LogOfPrefix(requests, limits, hi);
    AdmissionsAreExact(requests[..lo], limits, b);
    AdmissionsAreExact(requests[..hi], limits, b);
  }

  /** Each call counts in a bucket that a call of its key opened. */
  ghost predicate OwnBuckets(log: seq<Call>) {
    forall j | 0 <= j < |log| :: log[j].origin < |log| && log[log[j].origin].key == log[j].key
  }

  /** The at most two buckets in which the key's calls of the interval count, or none. */
  lemma MetBuckets(s: State, limits: Limits, now: Instant, key: Key, start: Instant) returns (a: nat, b: nat)
    requires OwnBuckets(s.log) && (s.log != [] ==> WindowsInv(s, limits.window, now))
    ensures forall j | 0 <= j < |s.log| && InInterval(s.log[j], key, start, limits.window) :: s.log[j].origin == a || s.log[j].origin == b
    ensures forall j | 0 <= j < |s.log| && (s.log[j].origin == a || s.log[j].origin == b) :: s.log[j].key == key
  {
    hide WindowsInv;
    var first, last := FirstAndLast(s.log, key, start, limits.window);
    if forall j | 0 <= j < |s.log| :: !InInterval(s.log[j], key, start, limits.window) {
      a, b := |s.log|, |s.log|;
    } else {
      a, b := s.log[first].origin, s.log[last].origin;
      forall j | 0 <= j < |s.log| && InInterval(s.log[j], key, start, limits.window)
        ensures s.log[j].origin == a || s.log[j].origin == b
      {
        TwoBuckets(s, limits, now, key, start, first, last, j);
      }
    }
  }

  lemma LogIsTheRequests(requests: seq<Request>, limits: Limits)
    ensures var log := Run(requests, limits).log;
            && |log| == |requests| && OwnBuckets(log) && (Monotonic(requests) ==> MonotonicLog(log))
  {
    RunKeepsCounts(requests, limits);
    var log := Run(requests, limits).log;
    hide Run;
    forall j | 0 <= j < |log|
      ensures log[j].now == requests[j].now && log[j].origin <= j && log[log[j].origin].key == log[j].key
    {
      LogEntry(requests, limits, j);
    }
  }

  /** The calls and the buckets that an interval meets. */
  lemma IntervalSpans(requests: seq<Request>, limits: Limits, key: Key, start: Instant) returns (lo: nat, hi: nat, a: nat, b: nat)
    requires Monotonic(requests)
    ensures |Run(requests, limits).log| == |requests|
    ensures Spans(Run(requests, limits).log, key, start, limits.window, lo, hi, a, b)
  {
    LogIsTheRequests(requests, limits);
    if requests != [] {
      RunKeepsWindows(requests, limits);
    }
    hide Run, WindowsInv, Monotonic, MonotonicLog, OwnBuckets, KeysInv;
    var log := Run(requests, limits).log;
    lo, hi := Between(log, start, limits.window);
    a, b := MetBuckets(Run(requests, limits), limits, LastInstant(requests), key, start);
    forall j | lo <= j < hi
      ensures log[j].key == key <==> log[j].origin == a || log[j].origin == b
    {
      assert start <= log[j].now < start + limits.window;
    }
  }

  /** Over any run with monotonic instants the number admitted in an interval is exactly what its calls
      added to the admissions of the at most two buckets that they count in, wraps included. */
  lemma AdmittedInIsExact(requests: seq<Request>, limits: Limits, key: Key, start: Instant) returns (lo: nat, hi: nat, a: nat, b: nat)
    requires Monotonic(requests)
    ensures var log := Run(requests, limits).log;
            && Spans(log, key, start, limits.window, lo, hi, a, b)
            && AdmittedIn(log, key, start, limits.window)
               == Gain(log, lo, hi, a, limits.max) + if a == b then 0 else Gain(log, lo, hi, b, limits.max)
  {
    lo, hi, a, b := IntervalSpans(requests, limits, key, start);
    var log := Run(requests, limits).log;
    IntervalCounts(log, key, start, limits.window, lo, hi, a, b, hi);
    NothingAfter(log, key, start, limits.window, lo, hi, a, b, |log|);
    assert log[..|log|] == log;
    GainIsAdmitted(requests, limits, lo, hi, a);
    GainIsAdmitted(requests, limits, lo, hi, b);
  }

  /** Traffic on other keys leaves a live bucket as it is. */
  lemma {:induction false} OtherKeysLeaveBucket(s: State, requests: seq<Request>, limits: Limits, key: Key)
    requires key in s.buckets
    requires forall j | 0 <= j < |requests| :: requests[j].key != key && requests[j].now < s.buckets[key].windowEnd
    ensures var t := RunFrom(s, requests, limits); key in t.buckets && t.buckets[key] == s.buckets[key]
    decreases |requests|
  {
    if requests != [] {
      assert forall j | 0 <= j < |requests[1..]| :: requests[1..][j] == requests[j + 1];
      OtherKeysLeaveBucket(Step(s, requests[0].key, requests[0].now, limits), requests[1..], limits, key);
    }
  }

  /** Nor does retrying move its end: until then every attempt on the key counts in it. */
  lemma {:induction false} LiveBucketKeepsItsEnd(s: State, requests: seq<Request>, limits: Limits, key: Key)
    requires key in s.buckets
    requires forall j | 0 <= j < |requests| :: requests[j].now < s.buckets[key].windowEnd
    ensures var t := RunFrom(s, requests, limits); key in t.buckets && t.buckets[key].windowEnd == s.buckets[key].windowEnd
    decreases |requests|
  {
    if requests != [] {
      assert forall j | 0 <= j < |requests[1..]| :: requests[1..][j] == requests[j + 1];
      LiveBucketKeepsItsEnd(Step(s, requests[0].key, requests[0].now, limits), requests[1..], limits, key);
    }
  }

  function RunFrom(s: State, requests: seq<Request>, limits: Limits): State
    decreases |requests|
  {
    if requests == [] then s else RunFrom(Step(s, requests[0].key, requests[0].now, limits), requests[1..], limits)
  }
}
