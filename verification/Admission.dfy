/** The fixed-window admission limiter (`apps/backend-rust/src/auth/admission.rs`). */
module Admission {
  type Key = string
  type Instant = int

  /** `count` is a `u32`: it wraps. */
  const TWO_TO_32: nat := 0x1_0000_0000

  datatype Bucket = Bucket(count: nat, windowEnd: Instant)

  type u32 = n: int | 0 <= n < TWO_TO_32

  datatype Limits = Limits(max: u32, window: nat)

  function Evict(buckets: map<Key, Bucket>, now: Instant): map<Key, Bucket> {
    map key | key in buckets && buckets[key].windowEnd > now :: buckets[key]
  }

  /** The bucket that a call at `now` counts in, before it counts. */
  function BucketFor(buckets: map<Key, Bucket>, key: Key, now: Instant, limits: Limits): Bucket {
    if key in buckets && buckets[key].windowEnd > now then buckets[key] else Bucket(0, now + limits.window)
  }

  function Count(b: Bucket): Bucket { b.(count := if b.count + 1 == TWO_TO_32 then 0 else b.count + 1) }

  function Allow(buckets: map<Key, Bucket>, key: Key, now: Instant, limits: Limits): (map<Key, Bucket>, bool) {
    var counted := Count(BucketFor(buckets, key, now, limits));
    (Evict(buckets, now)[key := counted], counted.count <= limits.max)
  }

  // Runs.

  /** A call in the log; `origin` is the position of the call that opened its bucket. */
  datatype Call = Call(key: Key, now: Instant, admitted: bool, origin: nat, windowEnd: Instant)

  datatype State = State(buckets: map<Key, Bucket>, origins: map<Key, nat>, log: seq<Call>)

  const INIT := State(map[], map[], [])

  function Step(s: State, key: Key, now: Instant, limits: Limits): State {
    var (buckets, admitted) := Allow(s.buckets, key, now, limits);
    var live := key in s.buckets && s.buckets[key].windowEnd > now && key in s.origins;
    var origin := if live then s.origins[key] else |s.log|;
    State(buckets, s.origins[key := origin], s.log + [Call(key, now, admitted, origin, buckets[key].windowEnd)])
  }

  datatype Request = Request(key: Key, now: Instant)

  function Run(requests: seq<Request>, limits: Limits): State {
    if requests == [] then INIT
    else
      var last := requests[|requests| - 1];
      Step(Run(requests[..|requests| - 1], limits), last.key, last.now, limits)
  }

  /** Instants are monotonic. */
  predicate Monotonic(requests: seq<Request>) {
    forall i, j | 0 <= i < j < |requests| :: requests[i].now <= requests[j].now
  }
}

/** The limiter with its map updated in place. */
module AdmissionLimiting {
  import opened Admission

  class AdmissionLimiter {
    const limits: Limits
    var buckets: map<Key, Bucket>

    constructor (limits: Limits)
      ensures this.limits == limits && buckets == map[]
    {
      this.limits := limits;
      buckets := map[];
    }

    method Allow(key: Key, now: Instant) returns (admitted: bool)
      modifies this
      ensures (buckets, admitted) == Admission.Allow(old(buckets), key, now, limits)
    {
      buckets := map k | k in buckets && buckets[k].windowEnd > now :: buckets[k];
      assert buckets == Evict(old(buckets), now);
      if key !in buckets {
        buckets := buckets[key := Bucket(0, now + limits.window)];
      }
      var count := if buckets[key].count + 1 == TWO_TO_32 then 0 else buckets[key].count + 1;
      buckets := buckets[key := buckets[key].(count := count)];
      admitted := count <= limits.max;
      assert buckets == Evict(old(buckets), now)[key := buckets[key]];
    }
  }
}
