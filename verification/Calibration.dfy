/** The calibration ladder. */
module Calibration {
  import opened Wrappers
  import opened Cbor
  import opened CryptoErrors
  import opened KdfParameters

  const CALIBRATION_SAMPLES: nat := 5
  const CALIBRATION_TARGET_MIN_MS: nat := 500
  const CALIBRATION_TARGET_MAX_MS: nat := 1000
  /** 3·2^30 is the last doubling of 3 that a `u32` holds. */
  const LAST_DOUBLING: nat := 30
  /** 2^16 KiB is the contract's memory minimum. */
  const MIN_EXPONENT: nat := 16

  /** The clock's reading, in milliseconds, for a sample of a candidate's memory and iterations. */
  type Readings = (nat, nat, nat) -> nat

  // Medians.

  function Insert(x: nat, sorted: seq<nat>): seq<nat> {
    if sorted == [] || x <= sorted[0] then [x] + sorted else [sorted[0]] + Insert(x, sorted[1..])
  }

  function Sort(samples: seq<nat>): seq<nat> {
    if samples == [] then [] else Insert(samples[0], Sort(samples[1..]))
  }

  /** How many samples are at most, and how many are at least, a bound. */
  function AtMost(samples: seq<nat>, bound: nat): nat {
    if samples == [] then 0 else (if samples[0] <= bound then 1 else 0) + AtMost(samples[1..], bound)
  }

  function AtLeast(samples: seq<nat>, bound: nat): nat {
    if samples == [] then 0 else (if samples[0] >= bound then 1 else 0) + AtLeast(samples[1..], bound)
  }

  predicate IsSorted(s: seq<nat>) {
    forall i, j | 0 <= i < j < |s| :: s[i] <= s[j]
  }

  lemma {:induction false} InsertCounts(x: nat, sorted: seq<nat>, bound: nat)
    ensures AtMost(Insert(x, sorted), bound) == (if x <= bound then 1 else 0) + AtMost(sorted, bound)
    ensures AtLeast(Insert(x, sorted), bound) == (if x >= bound then 1 else 0) + AtLeast(sorted, bound)
    decreases |sorted|
  {
    if sorted == [] || x <= sorted[0] {
      assert ([x] + sorted)[1..] == sorted;
    } else {
      InsertCounts(x, sorted[1..], bound);
      assert Insert(x, sorted)[1..] == Insert(x, sorted[1..]);
    }
  }

  lemma {:induction false} InsertHolds(x: nat, sorted: seq<nat>)
    ensures |Insert(x, sorted)| == |sorted| + 1
    ensures forall y :: y in Insert(x, sorted) <==> y == x || y in sorted
    decreases |sorted|
  {
    if !(sorted == [] || x <= sorted[0]) {
      InsertHolds(x, sorted[1..]);
      assert sorted == [sorted[0]] + sorted[1..];
    }
  }

  lemma {:induction false} InsertSorts(x: nat, sorted: seq<nat>)
    requires IsSorted(sorted)
    ensures IsSorted(Insert(x, sorted))
    decreases |sorted|
  {
    if !(sorted == [] || x <= sorted[0]) {
      var rest := Insert(x, sorted[1..]);
      InsertSorts(x, sorted[1..]);
      InsertHolds(x, sorted[1..]);
      forall j | 0 <= j < |rest|
        ensures sorted[0] <= rest[j]
      {
        assert rest[j] in rest;
      }
    }
  }

  lemma {:induction false} SortKeeps(samples: seq<nat>, bound: nat)
    ensures var s := Sort(samples);
            && IsSorted(s) && |s| == |samples|
            && (forall y :: y in s <==> y in samples)
            && AtMost(s, bound) == AtMost(samples, bound) && AtLeast(s, bound) == AtLeast(samples, bound)
    decreases |samples|
  {
    if samples != [] {
      var sorted := Sort(samples[1..]);
      SortKeeps(samples[1..], bound);
      InsertCounts(samples[0], sorted, bound);
      InsertHolds(samples[0], sorted);
      InsertSorts(samples[0], sorted);
      assert samples == [samples[0]] + samples[1..];
    }
  }

  lemma {:induction false} SortedCounts(s: seq<nat>, k: nat, bound: nat)
    requires IsSorted(s) && k < |s|
    ensures s[k] <= bound ==> AtMost(s, bound) >= k + 1
    ensures s[k] >= bound ==> AtLeast(s, bound) >= |s| - k
    decreases |s|
  {
    if |s| > 1 {
      if k > 0 {
        SortedCounts(s[1..], k - 1, bound);
      } else {
        SortedCounts(s[1..], 0, bound);
      }
    }
  }

  function Samples(readings: Readings, memoryKib: nat, iterations: nat): seq<nat> {
    seq(CALIBRATION_SAMPLES, k requires 0 <= k < CALIBRATION_SAMPLES => readings(memoryKib, iterations, k))
  }

  function Median(readings: Readings, memoryKib: nat, iterations: nat): nat {
    var samples := Samples(readings, memoryKib, iterations);
    SortKeeps(samples, 0);
    Sort(samples)[|samples| / 2]
  }

  /** The median is one of the five samples; three are no larger and three no smaller. */
  lemma MedianIsCentral(readings: Readings, memoryKib: nat, iterations: nat)
    ensures var samples := Samples(readings, memoryKib, iterations);
            var median := Median(readings, memoryKib, iterations);
            median in samples && AtMost(samples, median) >= 3 && AtLeast(samples, median) >= 3
  {
    var samples := Samples(readings, memoryKib, iterations);
    var median := Median(readings, memoryKib, iterations);
    SortKeeps(samples, median);
    SortedCounts(Sort(samples), 2, median);
    assert Sort(samples)[2] in Sort(samples);
  }

  method MedianDeriveMs(readings: Readings, memoryKib: nat, iterations: nat) returns (median: nat)
    ensures median == Median(readings, memoryKib, iterations)
  {
    var samples := [];
    for k := 0 to CALIBRATION_SAMPLES
      invariant samples == Samples(readings, memoryKib, iterations)[..k]
    {
      samples := samples + [readings(memoryKib, iterations, k)];
    }
    assert samples == Samples(readings, memoryKib, iterations);
    SortKeeps(samples, 0);
    median := Sort(samples)[|samples| / 2];
  }

  // Powers of two.

  function Pow2(k: int): nat {
    if k <= 0 then 1 else 2 * Pow2(k - 1)
  }

  /** 64 less the leading zeros of a `u64`. */
  function BitLength(n: nat): nat {
    if n == 0 then 0 else 1 + BitLength(n / 2)
  }

  function LargestPowerOfTwoAtMost(cap: nat): nat
    requires cap >= 1
  {
    var bits := BitLength(cap);
    Pow2(if Pow2(bits - 1) > cap then bits - 2 else bits - 1)
  }

  lemma {:induction false} BitLengthBounds(n: nat)
    requires n >= 1
    ensures BitLength(n) >= 1 && Pow2(BitLength(n) - 1) <= n < Pow2(BitLength(n))
  {
    if n > 1 {
      BitLengthBounds(n / 2);
    }
  }

  lemma LargestPowerIsLargest(cap: nat)
    requires cap >= 1
    ensures var p := LargestPowerOfTwoAtMost(cap);
            p <= cap < 2 * p && p == Pow2(BitLength(cap) - 1)
  {
    BitLengthBounds(cap);
  }

  lemma {:induction false} Pow2Grows(i: nat, j: nat)
    requires i <= j
    ensures Pow2(i) <= Pow2(j) && (i < j ==> 2 * Pow2(i) <= Pow2(j))
  {
    if i < j {
      Pow2Grows(i, j - 1);
    }
  }

  lemma Pow2Values()
    ensures Pow2(MIN_EXPONENT) == MIN_MEMORY_KIB
    ensures 3 * Pow2(LAST_DOUBLING - 1) <= U32_MAX / 2 < 3 * Pow2(LAST_DOUBLING) <= U32_MAX
  {
    assert Pow2(4) == 16 && Pow2(8) == 256 && Pow2(12) == 4096 && Pow2(16) == 65536;
    assert Pow2(20) == 0x10_0000 && Pow2(24) == 0x100_0000 && Pow2(28) == 0x1000_0000;
  }

  // The ladder.

  datatype Target = Target(minMs: nat, maxMs: nat)

  function IterationsAt(k: nat): nat { MIN_ITERATIONS * Pow2(k) }

  /** At this memory the doubling stops, in the window, after `k` doublings. */
  predicate StopsInWindow(target: Target, readings: Readings, memoryKib: nat, k: nat) {
    && target.minMs <= Median(readings, memoryKib, IterationsAt(k)) <= target.maxMs
    && forall i | 0 <= i < k :: Median(readings, memoryKib, IterationsAt(i)) < target.minMs
  }

  /** At this memory no number of doublings that a `u32` holds stops in the window. */
  predicate Exhausted(target: Target, readings: Readings, memoryKib: nat) {
    forall k | 0 <= k <= LAST_DOUBLING :: !StopsInWindow(target, readings, memoryKib, k)
  }

  /** The exponent of the largest rung. */
  function TopExponent(maxMemoryKib: nat): int {
    BitLength(if maxMemoryKib <= U32_MAX then maxMemoryKib else U32_MAX) - 1
  }

  predicate RungsExhausted(target: Target, readings: Readings, above: int, top: int) {
    forall j | above < j <= top && j >= MIN_EXPONENT :: Exhausted(target, readings, Pow2(j))
  }

  /** The candidate is the first of the ladder that stops in the window. */
  ghost predicate IsCalibrated(target: Target, readings: Readings, top: int, p: KdfParams) {
    exists j: nat, k: nat ::
      && MIN_EXPONENT <= j <= top && k <= LAST_DOUBLING
      && p.memoryKib == Pow2(j) && p.iterations == IterationsAt(k)
      && StopsInWindow(target, readings, Pow2(j), k)
      && RungsExhausted(target, readings, j, top)
  }

  /** The inner loop, at one memory value: the doublings after which it stops in the window, if it does. */
  method Climb(target: Target, readings: Readings, memoryKib: nat, parallelism: nat, salt: bytes) returns (r: Option<KdfParams>)
    requires MIN_MEMORY_KIB <= memoryKib && MIN_PARALLELISM <= parallelism && |salt| == SALT_LEN
    ensures r.None? ==> Exhausted(target, readings, memoryKib)
    ensures r.Some? ==>
              exists k: nat | k <= LAST_DOUBLING :: StopsInWindow(target, readings, memoryKib, k)
                && r.value == KdfParams(memoryKib, IterationsAt(k), parallelism, salt)
    ensures r.Some? ==> !Exhausted(target, readings, memoryKib) && r.value.iterations <= U32_MAX && r.value.Valid()
  {
    Pow2Values();
    var iterations := MIN_ITERATIONS;
    ghost var k := 0;
    while true
      invariant k <= LAST_DOUBLING && iterations == IterationsAt(k) && MIN_ITERATIONS <= iterations <= U32_MAX
      invariant forall i | 0 <= i < k :: Median(readings, memoryKib, IterationsAt(i)) < target.minMs
      decreases LAST_DOUBLING - k
    {
      assert NewParams(memoryKib, iterations, parallelism, salt).Ok?;
      var median := MedianDeriveMs(readings, memoryKib, iterations);
      if median > target.maxMs {
        return None;
      }
      if median >= target.minMs {
        assert StopsInWindow(target, readings, memoryKib, k);
        return Some(KdfParams(memoryKib, iterations, parallelism, salt));
      }
      DoublingFits(k);
      if iterations > U32_MAX / 2 {
        return None;
      }
      iterations := iterations * 2;
      k := k + 1;
    }
  }

  /** The guard on doubling breaks exactly at the last one. */
  lemma DoublingFits(k: nat)
    requires k <= LAST_DOUBLING
    ensures IterationsAt(k) > U32_MAX / 2 <==> k == LAST_DOUBLING
  {
    Pow2Values();
    if k < LAST_DOUBLING {
      Pow2Grows(k, LAST_DOUBLING - 1);
    }
  }

  /** `calibrate`. It returns the first candidate of the ladder that stops in the window;
      `KdfResourceLimit` means that every rung down to the minimum was exhausted, or that the
      cap leaves none; the other error is for the caller's own arguments. */
  method Calibrate(target: Target, maxMemoryKib: nat, parallelism: nat, readings: Readings, salt: bytes)
    returns (r: Result<KdfParams, Error>)
    requires |salt| == SALT_LEN && parallelism <= U32_MAX
    ensures r.Ok? ==>
              && r.value.Valid() && r.value.Typed() && r.value.memoryKib <= maxMemoryKib
              && r.value.parallelism == parallelism && r.value.salt == salt
              && IsCalibrated(target, readings, TopExponent(maxMemoryKib), r.value)
    ensures r == Err(InvalidKdfParameters) <==> parallelism < MIN_PARALLELISM || target.minMs == 0 || target.minMs > target.maxMs
    ensures r == Err(KdfResourceLimit) <==>
              && !(parallelism < MIN_PARALLELISM || target.minMs == 0 || target.minMs > target.maxMs)
              && RungsExhausted(target, readings, MIN_EXPONENT - 1, TopExponent(maxMemoryKib))
    ensures r.Ok? || r == Err(InvalidKdfParameters) || r == Err(KdfResourceLimit)
  {
    if parallelism < MIN_PARALLELISM {
      return Err(InvalidKdfParameters);
    }
    if target.minMs == 0 || target.minMs > target.maxMs {
      return Err(InvalidKdfParameters);
    }
    if maxMemoryKib < MIN_MEMORY_KIB {
      NoRungBelowMinimum(maxMemoryKib);
      return Err(KdfResourceLimit);
    }
    var cap := if maxMemoryKib <= U32_MAX then maxMemoryKib else U32_MAX;
    LargestPowerIsLargest(cap);
    TopIsARung(maxMemoryKib);
    r := Descend(target, LargestPowerOfTwoAtMost(cap), TopExponent(maxMemoryKib), parallelism, readings, salt);
  }

  /** The outer loop, from the largest rung down to the minimum. */
  method Descend(target: Target, largest: nat, ghost top: int, parallelism: nat, readings: Readings, salt: bytes)
    returns (r: Result<KdfParams, Error>)
    requires |salt| == SALT_LEN && MIN_PARALLELISM <= parallelism <= U32_MAX
    requires top >= MIN_EXPONENT && largest == Pow2(top) && largest <= U32_MAX
    ensures r.Ok? ==>
              && r.value.Valid() && r.value.Typed() && r.value.memoryKib <= largest
              && r.value.parallelism == parallelism && r.value.salt == salt
              && IsCalibrated(target, readings, top, r.value)
    ensures r.Ok? || (r == Err(KdfResourceLimit) && RungsExhausted(target, readings, MIN_EXPONENT - 1, top))
    ensures r.Ok? ==> !RungsExhausted(target, readings, MIN_EXPONENT - 1, top)
  {
    hide Median, StopsInWindow, Exhausted, Pow2;
    var memoryKib := largest;
    ghost var j := top;
    while memoryKib >= MIN_MEMORY_KIB
      invariant MIN_EXPONENT - 1 <= j <= top && memoryKib == Pow2(j) && memoryKib <= largest
      invariant RungsExhausted(target, readings, j, top)
      decreases j
    {
      RungIsAboveMinimum(j);
      var candidate := Climb(target, readings, memoryKib, parallelism, salt);
      if candidate.Some? {
        FirstStop(target, readings, j, top, candidate.value);
        return Ok(candidate.value);
      }
      j := j - 1;
      if memoryKib == MIN_MEMORY_KIB {
        break;
      }
      HalfRung(j + 1);
      memoryKib := memoryKib / 2;
    }
    RungIsAboveMinimum(j);
    return Err(KdfResourceLimit);
  }

  lemma HalfRung(j: int)
    requires j >= 1
    ensures Pow2(j) / 2 == Pow2(j - 1)
  {
  }

  lemma FirstStop(target: Target, readings: Readings, j: int, top: int, p: KdfParams)
    requires MIN_EXPONENT <= j <= top && RungsExhausted(target, readings, j, top) && p.memoryKib == Pow2(j)
    requires exists k: nat | k <= LAST_DOUBLING :: StopsInWindow(target, readings, Pow2(j), k) && p.iterations == IterationsAt(k)
    ensures IsCalibrated(target, readings, top, p) && !RungsExhausted(target, readings, MIN_EXPONENT - 1, top)
  {
    hide Median, Pow2;
    var k: nat :| k <= LAST_DOUBLING && StopsInWindow(target, readings, Pow2(j), k) && p.iterations == IterationsAt(k);
    assert !Exhausted(target, readings, Pow2(j));
  }

  /** Powers of two compare with the minimum as their exponents do. */
  lemma RungIsAboveMinimum(j: int)
    requires j >= 0
    ensures Pow2(j) >= MIN_MEMORY_KIB <==> j >= MIN_EXPONENT
    ensures Pow2(j) == MIN_MEMORY_KIB <==> j == MIN_EXPONENT
  {
    Pow2Values();
    if j > MIN_EXPONENT {
      Pow2Grows(MIN_EXPONENT, j);
    } else if j < MIN_EXPONENT {
      Pow2Grows(j, MIN_EXPONENT);
    }
  }

  lemma TopIsARung(maxMemoryKib: nat)
    requires maxMemoryKib >= MIN_MEMORY_KIB
    ensures TopExponent(maxMemoryKib) >= MIN_EXPONENT
  {
    var cap := if maxMemoryKib <= U32_MAX then maxMemoryKib else U32_MAX;
    BitLengthBounds(cap);
    Pow2Values();
    if TopExponent(maxMemoryKib) < MIN_EXPONENT {
      Pow2Grows(BitLength(cap), MIN_EXPONENT);
    }
  }

  lemma NoRungBelowMinimum(maxMemoryKib: nat)
    requires maxMemoryKib < MIN_MEMORY_KIB
    ensures TopExponent(maxMemoryKib) < MIN_EXPONENT
  {
    if maxMemoryKib > 0 && TopExponent(maxMemoryKib) >= MIN_EXPONENT {
      BitLengthBounds(maxMemoryKib);
      Pow2Values();
      Pow2Grows(MIN_EXPONENT, BitLength(maxMemoryKib) - 1);
    }
  }

  /** `calibrate_for_setup`: the contract window, and at most a quarter of the reported memory. */
  method CalibrateForSetup(reportedKib: nat, parallelism: nat, readings: Readings, salt: bytes) returns (r: Result<KdfParams, Error>)
    requires |salt| == SALT_LEN && parallelism <= U32_MAX
    ensures r.Ok? ==>
              && WithinCap(r.value, reportedKib) && r.value.Valid() && r.value.Typed()
              && 500 <= Median(readings, r.value.memoryKib, r.value.iterations) <= 1000
              && IsCalibrated(Target(500, 1000), readings, TopExponent(reportedKib / 4), r.value)
    ensures r == Err(InvalidKdfParameters) <==> parallelism == 0
    ensures r == Err(KdfResourceLimit) <==>
              parallelism != 0 && RungsExhausted(Target(500, 1000), readings, MIN_EXPONENT - 1, TopExponent(reportedKib / 4))
  {
    r := Calibrate(Target(CALIBRATION_TARGET_MIN_MS, CALIBRATION_TARGET_MAX_MS), reportedKib / 4, parallelism, readings, salt);
  }
}
