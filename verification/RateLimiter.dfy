// The per-MX limiter (src/eve/smtp_infra/rate_limiter.py): a bounded retry loop over
// the in-process bucket, with sleeps capped at five seconds.

module RateLimiter {
  import opened Common
  import opened TokenBucket

  const ATTEMPTS := 10_000
  const SLEEP_CAP := 5.0

  // ---------------------------------------------------------------- a lone caller's attempts

  /** The bucket as attempt `i` finds it when nobody else touches the key; `clock(i)` is
      the reading attempt `i` takes. */
  ghost function Found(b: Option<Bucket>, clock: nat -> real, refill: real, capacity: real, i: nat): Option<Bucket>
    requires refill > 0.0
  {
    if i == 0 then b
    else Some(Take(Found(b, clock, refill, capacity, i - 1), clock(i - 1), refill, capacity).bucket)
  }

  ghost function WaitOf(b: Option<Bucket>, clock: nat -> real, refill: real, capacity: real, i: nat): real
    requires refill > 0.0
  {
    Take(Found(b, clock, refill, capacity, i), clock(i), refill, capacity).wait
  }

  /** Every sleep lasts at least as long as was asked for. */
  ghost predicate SleepsHonoured(b: Option<Bucket>, clock: nat -> real, refill: real, capacity: real)
    requires refill > 0.0
  {
    forall i: nat :: clock(i + 1) >= clock(i) + MinReal(WaitOf(b, clock, refill, capacity, i), SLEEP_CAP)
  }

  /** Attempts 0, ..., n - 1 are all refused. */
  ghost predicate AllRefused(b: Option<Bucket>, clock: nat -> real, refill: real, capacity: real, n: nat)
    requires refill > 0.0
  {
    forall i: nat :: i < n ==> WaitOf(b, clock, refill, capacity, i) > 0.0
  }

  lemma HalfATokenRefills(idle: real, refill: real)
    requires idle >= SLEEP_CAP && refill >= 0.1
    ensures idle * refill >= 0.5
  {
    assert SLEEP_CAP * refill >= 0.5;
    assert (idle - SLEEP_CAP) * refill >= 0.0;
  }

  // A second refusal five seconds later leaves at most half a token missing.
  lemma RefusedAgain(b: Option<Bucket>, now: real, idle: real, refill: real, capacity: real)
    requires refill >= 0.1 && capacity >= 1.0 && idle >= SLEEP_CAP && Settled(b, now, capacity)
    requires Take(b, now, refill, capacity).wait > 0.0
    requires Take(Some(Take(b, now, refill, capacity).bucket), now + idle, refill, capacity).wait > 0.0
    ensures Take(Some(Take(b, now, refill, capacity).bucket), now + idle, refill, capacity).wait <= SLEEP_CAP
  {
    hide Level, Settled, Accrued;
    TakeSettles(b, now, refill, capacity);
    HalfATokenRefills(idle, refill);
    var level := Level(b, now, refill, capacity);
    LevelAfterIdle(level, now, idle, refill, capacity);
    var next := Level(Some(Bucket(level, now)), now + idle, refill, capacity);
    assert 0.5 <= next < 1.0;
    AtMostFive(1.0 - next, refill);
  }

  // After one refusal and one capped sleep, either a token is there or at most
  // five seconds of waiting are left.
  lemma SecondWait(b: Option<Bucket>, clock: nat -> real, refill: real, capacity: real)
    requires refill >= 0.1 && capacity >= 1.0 && Settled(b, clock(0), capacity)
    requires SleepsHonoured(b, clock, refill, capacity) && AllRefused(b, clock, refill, capacity, 2)
    ensures WaitOf(b, clock, refill, capacity, 1) <= SLEEP_CAP
  {
    hide Take, Settled;
    var w := WaitOf(b, clock, refill, capacity, 0);
    var idle := clock(1) - clock(0);
    assert Found(b, clock, refill, capacity, 1) == Some(Take(b, clock(0), refill, capacity).bucket);
    assert w > 0.0 && WaitOf(b, clock, refill, capacity, 1) > 0.0;
    assert clock(0 + 1) >= clock(0) + MinReal(w, SLEEP_CAP);
    assert clock(0) + idle == clock(1);
    WaitIsLeast(b, clock(0), refill, capacity, idle);
    assert idle >= SLEEP_CAP;
    RefusedAgain(b, clock(0), idle, refill, capacity);
  }

  lemma AtMostFive(missing: real, refill: real)
    requires 0.0 < missing <= 0.5 && refill >= 0.1
    ensures missing / refill <= SLEEP_CAP
  {
    QuotientMonotone(missing, SLEEP_CAP * refill, refill);
    assert (SLEEP_CAP * refill) / refill == SLEEP_CAP;
  }

  /** With a refill of at least one token in ten seconds, an undisturbed caller is never
      refused three times, although each sleep is cut to five seconds. */
  lemma ThreeAttemptsSuffice(b: Option<Bucket>, clock: nat -> real, refill: real, capacity: real)
    requires refill >= 0.1 && capacity >= 1.0 && Settled(b, clock(0), capacity)
    requires SleepsHonoured(b, clock, refill, capacity)
    ensures !AllRefused(b, clock, refill, capacity, 3)
  {
    if AllRefused(b, clock, refill, capacity, 2) {
      SecondWait(b, clock, refill, capacity);
      var found := Found(b, clock, refill, capacity, 1);
      var w := WaitOf(b, clock, refill, capacity, 1);
      assert w > 0.0;
      assert Found(b, clock, refill, capacity, 2) == Some(Take(found, clock(1), refill, capacity).bucket);
      assert clock(1 + 1) >= clock(1) + MinReal(w, SLEEP_CAP);
      WaitIsLeast(found, clock(1), refill, capacity, clock(2) - clock(1));
      assert clock(1) + (clock(2) - clock(1)) == clock(2);
      assert WaitOf(b, clock, refill, capacity, 2) <= 0.0;
    }
  }

  // Readings five seconds apart honour every capped sleep.
  lemma FiveSecondsHonour(b: Option<Bucket>, clock: nat -> real, refill: real, capacity: real)
    requires refill > 0.0 && forall i: nat :: clock(i) == 5.0 * i as real
    ensures SleepsHonoured(b, clock, refill, capacity)
  {
    hide WaitOf;
    forall i: nat
      ensures clock(i + 1) >= clock(i) + MinReal(WaitOf(b, clock, refill, capacity, i), SLEEP_CAP)
    {
      assert clock(i + 1) == clock(i) + 5.0;
    }
  }

  lemma EmptyBucketWaits()
    ensures Take(Some(Bucket(0.0, 0.0)), 0.0, 0.1, 1.0) == Taken(Bucket(0.0, 0.0), 10.0)
    ensures Take(Some(Bucket(0.0, 0.0)), 5.0, 0.1, 1.0) == Taken(Bucket(0.5, 5.0), 5.0)
  {
  }

  /** Two refusals do happen: an empty bucket at the slowest rate. */
  lemma TwoAttemptsDoNot(clock: nat -> real)
    requires forall i: nat :: clock(i) == 5.0 * i as real
    ensures var b := Some(Bucket(0.0, 0.0));
            Settled(b, clock(0), 1.0) && SleepsHonoured(b, clock, 0.1, 1.0) && AllRefused(b, clock, 0.1, 1.0, 2)
  {
    hide Take, SleepsHonoured;
    var b := Some(Bucket(0.0, 0.0));
    FiveSecondsHonour(b, clock, 0.1, 1.0);
    EmptyBucketWaits();
    assert clock(0) == 0.0 && clock(1) == 5.0;
    assert Found(b, clock, 0.1, 1.0, 0) == b && Found(b, clock, 0.1, 1.0, 1) == b;
  }

  /** A bucket smaller than one token refuses every attempt, whatever it holds and however
      long the sleeps. */
  lemma SmallBucketRefusesAll(b: Option<Bucket>, clock: nat -> real, refill: real, capacity: real, n: nat)
    requires refill > 0.0 && capacity < 1.0
    ensures AllRefused(b, clock, refill, capacity, n)
  {
    hide Found;
    forall i: nat | i < n
      ensures WaitOf(b, clock, refill, capacity, i) > 0.0
    {
      PositiveQuotient(1.0 - Level(Found(b, clock, refill, capacity, i), clock(i), refill, capacity), refill);
    }
  }

  // ---------------------------------------------------------------- the limiter

  function BucketKey(mxHost: string): string {
    "ratelimit:mx:" + Lower(mxHost)
  }

  /** Hosts share a bucket exactly when their names differ in case only. */
  lemma BucketPerHost(host: string, other: string)
    ensures BucketKey(host) == BucketKey(other) <==>
            |host| == |other| && forall i :: 0 <= i < |host| ==> LowerChar(host[i]) == LowerChar(other[i])
  {
    hide Lower, LowerChar;
    var prefix := "ratelimit:mx:";
    assert BucketKey(host)[|prefix|..] == Lower(host) && BucketKey(other)[|prefix|..] == Lower(other);
    if BucketKey(host) == BucketKey(other) {
      assert Lower(host) == Lower(other);
      forall i | 0 <= i < |host|
        ensures LowerChar(host[i]) == LowerChar(other[i])
      {
        assert Lower(host)[i] == LowerChar(host[i]) && Lower(other)[i] == LowerChar(other[i]);
      }
    }
    if |host| == |other| && forall i :: 0 <= i < |host| ==> LowerChar(host[i]) == LowerChar(other[i]) {
      assert Lower(host) == Lower(other);
    }
  }

  class PerMxRateLimiter {
    const kv: InMemoryKV
    const rate: real
    const capacity: real

    constructor (kv: InMemoryKV, rate: real, capacity: Option<real>)
      ensures this.kv == kv && this.rate == if rate >= 0.1 then rate else 0.1
      ensures capacity.None? ==> this.capacity == if rate >= 1.0 then rate else 1.0
      ensures capacity.Some? ==> this.capacity == capacity.value
    {
      this.kv := kv;
      this.rate := MaxReal(0.1, rate);
      this.capacity := if capacity.Some? then capacity.value else MaxReal(1.0, rate);
    }

    /** One undisturbed acquisition; returns how many bucket calls it made and whether the
        last of them held a token. */
    method Acquire(mxHost: string, clock: nat -> real) returns (calls: nat, held: bool)
      requires rate >= 0.1
      modifies kv
      ensures var key := BucketKey(mxHost); var b := old(kv.Lookup(key));
              && 1 <= calls <= ATTEMPTS
              && AllRefused(b, clock, rate, capacity, calls - 1)
              && (held <==> WaitOf(b, clock, rate, capacity, calls - 1) <= 0.0)
              && (!held ==> calls == ATTEMPTS)
              && key in kv.buckets && Some(kv.buckets[key]) == Found(b, clock, rate, capacity, calls)
              && kv.buckets == old(kv.buckets)[key := kv.buckets[key]]
              && (capacity >= 1.0 && Settled(b, clock(0), capacity) && SleepsHonoured(b, clock, rate, capacity)
                  ==> held && calls <= 3)
              && (capacity < 1.0 ==> !held && calls == ATTEMPTS)
              && (Settled(b, clock(0), capacity) && SleepsHonoured(b, clock, rate, capacity) ==> (held <==> capacity >= 1.0))
    {
      hide Take, Level, BucketKey, SleepsHonoured;
      var key := BucketKey(mxHost);
      ghost var b := kv.Lookup(key);
      if capacity >= 1.0 && Settled(b, clock(0), capacity) && SleepsHonoured(b, clock, rate, capacity) {
        ThreeAttemptsSuffice(b, clock, rate, capacity);
        assert !AllRefused(b, clock, rate, capacity, 3);
      }
      if capacity < 1.0 {
        SmallBucketRefusesAll(b, clock, rate, capacity, ATTEMPTS);
      }
      calls := 0;
      while calls < ATTEMPTS
        invariant calls <= ATTEMPTS
        invariant AllRefused(b, clock, rate, capacity, calls)
        invariant kv.Lookup(key) == Found(b, clock, rate, capacity, calls)
        invariant calls == 0 ==> kv.buckets == old(kv.buckets)
        invariant calls > 0 ==> key in kv.buckets && kv.buckets == old(kv.buckets)[key := kv.buckets[key]]
      {
        var wait := kv.IncrFloatWindow(key, clock(calls), rate, capacity);
        calls := calls + 1;
        if wait <= 0.0 {
          return calls, true;
        }
      }
      held := false;
    }
  }
}
