// Token buckets (src/eve/kv.py): the in-process bucket, the server-side script that
// forgets idle keys, and what both promise over whole call histories.

module TokenBucket {
  import opened Common

  /** Tokens that refill between two instants. */
  function Accrued(refill: real, from: real, to: real): real {
    (to - from) * refill
  }

  lemma AccruedAdds(refill: real, x: real, y: real, z: real)
    ensures Accrued(refill, x, y) + Accrued(refill, y, z) == Accrued(refill, x, z)
    ensures Accrued(refill, x, x) == 0.0
  {
  }

  lemma AccruedGrows(refill: real, from: real, to: real)
    requires refill >= 0.0 && from <= to
    ensures Accrued(refill, from, to) >= 0.0
  {
  }

  datatype Bucket = Bucket(tokens: real, last: real)

  datatype Taken = Taken(bucket: Bucket, wait: real)

  /** Tokens on hand at `now`, before anything is consumed; an unknown key is full. */
  function Level(b: Option<Bucket>, now: real, refill: real, capacity: real): real {
    match b
    case None => MinReal(capacity, capacity + Accrued(refill, now, now))
    case Some(b) => MinReal(capacity, b.tokens + Accrued(refill, b.last, now))
  }

  function Take(b: Option<Bucket>, now: real, refill: real, capacity: real): Taken
    requires refill != 0.0
  {
    var tokens := Level(b, now, refill, capacity);
    if tokens >= 1.0 then Taken(Bucket(tokens - 1.0, now), 0.0)
    else Taken(Bucket(tokens, now), (1.0 - tokens) / refill)
  }

  class InMemoryKV {
    var buckets: map<string, Bucket>

    constructor ()
      ensures buckets == map[]
    {
      buckets := map[];
    }

    ghost function Lookup(key: string): Option<Bucket>
      reads this
    {
      if key in buckets then Some(buckets[key]) else None
    }

    method IncrFloatWindow(key: string, now: real, refill: real, capacity: real) returns (wait: real)
      requires refill != 0.0
      modifies this
      ensures key in buckets && Taken(buckets[key], wait) == Take(old(Lookup(key)), now, refill, capacity)
      ensures buckets == old(buckets)[key := buckets[key]]
    {
      var entry := if key in buckets then buckets[key] else Bucket(capacity, now);
      var tokens := MinReal(capacity, entry.tokens + (now - entry.last) * refill);
      if tokens >= 1.0 {
        buckets := buckets[key := Bucket(tokens - 1.0, now)];
        return 0.0;
      }
      wait := (1.0 - tokens) / refill;
      buckets := buckets[key := Bucket(tokens, now)];
    }
  }

  // ---------------------------------------------------------------- whole histories of one key

  /** One key called at the times `ts` with a fixed refill and capacity. */
  datatype History = History(ts: seq<real>, refill: real, capacity: real) {

    ghost predicate Usable() {
      refill > 0.0
    }

    /** The clock never runs backwards. */
    ghost predicate Monotone() {
      forall i, j :: 0 <= i <= j < |ts| ==> ts[i] <= ts[j]
    }

    ghost function Before(n: nat): Option<Bucket>
      requires Usable() && n <= |ts|
    {
      if n == 0 then None else Some(Take(Before(n - 1), ts[n - 1], refill, capacity).bucket)
    }

    ghost function LevelAt(n: nat): real
      requires Usable() && n < |ts|
    {
      Level(Before(n), ts[n], refill, capacity)
    }

    ghost function Wait(n: nat): real
      requires Usable() && n < |ts|
    {
      Take(Before(n), ts[n], refill, capacity).wait
    }

    ghost predicate Granted(n: nat)
      requires Usable() && n < |ts|
    {
      Wait(n) <= 0.0
    }

    /** Tokens handed out by calls `k`, ..., `n - 1`. */
    ghost function Grants(k: nat, n: nat): nat
      requires Usable() && k <= n <= |ts|
    {
      if k == n then 0 else Grants(k, n - 1) + if Granted(n - 1) then 1 else 0
    }

    /** Granting call `n` as well would exceed what capacity and refill allow since call `k`. */
    ghost predicate Overdrawn(k: nat, n: nat)
      requires Usable() && k <= n < |ts|
    {
      Grants(k, n) as real + 1.0 > capacity + Accrued(refill, ts[k], ts[n])
    }
  }

  lemma GrantedIffLevel(h: History, n: nat)
    requires h.Usable() && n < |h.ts|
    ensures h.Granted(n) <==> h.LevelAt(n) >= 1.0
  {
    var level := h.LevelAt(n);
    if level < 1.0 {
      PositiveQuotient(1.0 - level, h.refill);
    }
  }

  lemma PositiveQuotient(x: real, y: real)
    requires x > 0.0 && y > 0.0
    ensures x / y > 0.0 && (x / y) * y == x
  {
  }

  // The level is the least headroom any earlier starting point leaves.
  lemma {:induction false} LevelIsLeastHeadroom(h: History, n: nat) returns (tight: nat)
    requires h.Usable() && n < |h.ts|
    ensures forall k: nat :: k <= n ==>
              h.LevelAt(n) <= h.capacity + Accrued(h.refill, h.ts[k], h.ts[n]) - h.Grants(k, n) as real
    ensures tight <= n
    ensures h.LevelAt(n) == h.capacity + Accrued(h.refill, h.ts[tight], h.ts[n]) - h.Grants(tight, n) as real
  {
    hide Accrued;
    tight := n;
    AccruedAdds(h.refill, h.ts[n], h.ts[n], h.ts[n]);
    if n > 0 {
      var earlier := LevelIsLeastHeadroom(h, n - 1);
      GrantedIffLevel(h, n - 1);
      var gained := h.LevelAt(n - 1) - (if h.Granted(n - 1) then 1.0 else 0.0) + Accrued(h.refill, h.ts[n - 1], h.ts[n]);
      assert h.LevelAt(n) == MinReal(h.capacity, gained);
      forall k: nat | k < n
        ensures gained <= h.capacity + Accrued(h.refill, h.ts[k], h.ts[n]) - h.Grants(k, n) as real
      {
        AccruedAdds(h.refill, h.ts[k], h.ts[n - 1], h.ts[n]);
      }
      if gained <= h.capacity {
        AccruedAdds(h.refill, h.ts[earlier], h.ts[n - 1], h.ts[n]);
        tight := earlier;
      }
    }
  }

  /** A call is refused exactly when some earlier call leaves no room for one more token. */
  lemma RefusedExactlyWhenOverdrawn(h: History, n: nat)
    requires h.Usable() && h.capacity >= 1.0 && n < |h.ts|
    ensures !h.Granted(n) <==> exists k: nat :: k < n && h.Overdrawn(k, n)
  {
    hide Accrued;
    GrantedIffLevel(h, n);
    AccruedAdds(h.refill, h.ts[n], h.ts[n], h.ts[n]);
    var tight := LevelIsLeastHeadroom(h, n);
    if !h.Granted(n) {
      assert h.Overdrawn(tight, n);
    }
  }

  /** A bucket smaller than one token never grants anything. */
  lemma SmallBucketStarves(h: History, n: nat)
    requires h.Usable() && h.capacity < 1.0 && n < |h.ts|
    ensures !h.Granted(n)
  {
    GrantedIffLevel(h, n);
  }

  /** No interval of calls is granted more than the capacity plus what refilled during it. */
  lemma {:induction false} GrantsNeverExceedBudget(h: History, k: nat, n: nat)
    requires h.Usable() && h.Monotone() && h.capacity >= 0.0 && k <= n < |h.ts|
    ensures h.Grants(k, n + 1) as real <= h.capacity + Accrued(h.refill, h.ts[k], h.ts[n])
    decreases n
  {
    hide Accrued;
    if h.Granted(n) {
      GrantedIffLevel(h, n);
      var _ := LevelIsLeastHeadroom(h, n);
    } else if k < n {
      GrantsNeverExceedBudget(h, k, n - 1);
      AccruedAdds(h.refill, h.ts[k], h.ts[n - 1], h.ts[n]);
      AccruedGrows(h.refill, h.ts[n - 1], h.ts[n]);
    } else {
      assert h.Grants(k, k) == 0;
      AccruedAdds(h.refill, h.ts[k], h.ts[k], h.ts[k]);
    }
  }

  ghost predicate Settled(b: Option<Bucket>, now: real, capacity: real) {
    b.Some? ==> 0.0 <= b.value.tokens <= capacity && b.value.last <= now
  }

  lemma TakeSettles(b: Option<Bucket>, now: real, refill: real, capacity: real)
    requires refill > 0.0 && capacity >= 0.0 && Settled(b, now, capacity)
    ensures Settled(Some(Take(b, now, refill, capacity).bucket), now, capacity)
    ensures 0.0 <= Level(b, now, refill, capacity) <= capacity
  {
    if b.Some? {
      AccruedGrows(refill, b.value.last, now);
    }
  }

  lemma {:induction false} BucketStaysInRange(h: History, n: nat)
    requires h.Usable() && h.Monotone() && h.capacity >= 0.0 && n <= |h.ts|
    ensures n < |h.ts| ==> Settled(h.Before(n), h.ts[n], h.capacity)
    ensures h.Before(n).Some? ==> 0.0 <= h.Before(n).value.tokens <= h.capacity && h.Before(n).value.last == h.ts[n - 1]
  {
    if n > 0 {
      BucketStaysInRange(h, n - 1);
      TakeSettles(h.Before(n - 1), h.ts[n - 1], h.refill, h.capacity);
    }
  }

  // ---------------------------------------------------------------- the wait of a refused call

  /** The wait is the least idle time after which a lone retry is granted. */
  lemma WaitIsLeast(b: Option<Bucket>, now: real, refill: real, capacity: real, idle: real)
    requires refill > 0.0 && capacity >= 1.0 && idle >= 0.0
    requires Take(b, now, refill, capacity).wait > 0.0
    ensures var t := Take(b, now, refill, capacity);
            Take(Some(t.bucket), now + idle, refill, capacity).wait <= 0.0 <==> idle >= t.wait
  {
    hide Level;
    var t := Take(b, now, refill, capacity);
    var level := Level(b, now, refill, capacity);
    PositiveQuotient(1.0 - level, refill);
    var next := level + idle * refill;
    LevelAfterIdle(level, now, idle, refill, capacity);
    SurplusSign(idle, t.wait, refill);
    assert idle >= t.wait <==> next >= 1.0;
    if next < 1.0 {
      PositiveQuotient(1.0 - next, refill);
    }
  }

  lemma LevelAfterIdle(level: real, now: real, idle: real, refill: real, capacity: real)
    ensures Level(Some(Bucket(level, now)), now + idle, refill, capacity) == MinReal(capacity, level + idle * refill)
  {
    assert now + idle - now == idle;
  }

  lemma SurplusSign(idle: real, wait: real, refill: real)
    requires refill > 0.0
    ensures idle >= wait <==> idle * refill >= wait * refill
  {
    assert idle * refill - wait * refill == (idle - wait) * refill;
  }

  /** A refused call is never told to wait longer than one token takes to refill. */
  lemma WaitIsAtMostOneToken(b: Option<Bucket>, now: real, refill: real, capacity: real)
    requires refill > 0.0 && capacity >= 0.0 && Settled(b, now, capacity)
    ensures Take(b, now, refill, capacity).wait * refill <= 1.0
    ensures Take(b, now, refill, capacity).wait <= 1.0 / refill
  {
    hide Accrued;
    TakeSettles(b, now, refill, capacity);
    var level := Level(b, now, refill, capacity);
    PositiveQuotient(1.0, refill);
    if level < 1.0 {
      PositiveQuotient(1.0 - level, refill);
      QuotientMonotone(1.0 - level, 1.0, refill);
    }
  }

  lemma QuotientMonotone(x: real, y: real, z: real)
    requires x <= y && z > 0.0
    ensures x / z <= y / z
  {
  }

  // ---------------------------------------------------------------- the server-side script

  function Ceil(x: real): int {
    -((-x).Floor)
  }

  /** A stored hash and the instant the server drops it. */
  datatype Stored = Stored(bucket: Bucket, expires: real)

  function TimeToLive(refill: real, capacity: real): int
    requires refill != 0.0
  {
    Ceil(capacity / refill) + 60
  }

  class RedisKV {
    var hashes: map<string, Stored>
    const forgets: bool

    /** A server that expires idle keys, or (for comparison) one that keeps them. */
    constructor (forgets: bool)
      ensures hashes == map[] && this.forgets == forgets
    {
      hashes := map[];
      this.forgets := forgets;
    }

    ghost function Lookup(key: string): Option<Stored>
      reads this
    {
      if key in hashes then Some(hashes[key]) else None
    }

    /** The script, evaluated atomically at server time `now`. */
    method IncrFloatWindow(key: string, now: real, refill: real, capacity: real) returns (wait: real)
      requires refill != 0.0
      modifies this
      ensures key in hashes && hashes[key].expires == now + TimeToLive(refill, capacity) as real
      ensures Taken(hashes[key].bucket, wait) == SharedTake(old(Lookup(key)), forgets, now, refill, capacity)
      ensures hashes == old(hashes)[key := hashes[key]]
    {
      var alive := key in hashes && (!forgets || now < hashes[key].expires);
      var tokens, ts := capacity, now;
      if alive {
        tokens, ts := hashes[key].bucket.tokens, hashes[key].bucket.last;
      }
      var elapsed := now - ts;
      if elapsed < 0.0 {
        elapsed := 0.0;
      }
      tokens := MinReal(capacity, tokens + elapsed * refill);
      wait := 0.0;
      if tokens >= 1.0 {
        tokens := tokens - 1.0;
      } else {
        wait := (1.0 - tokens) / refill;
      }
      hashes := hashes[key := Stored(Bucket(tokens, now), now + TimeToLive(refill, capacity) as real)];
    }
  }

  function Alive(s: Option<Stored>, forgets: bool, now: real): Option<Bucket> {
    if s.Some? && (!forgets || now < s.value.expires) then Some(s.value.bucket) else None
  }

  function SharedTake(s: Option<Stored>, forgets: bool, now: real, refill: real, capacity: real): Taken
    requires refill != 0.0
  {
    match Alive(s, forgets, now)
    case None => Take(None, now, refill, capacity)
    case Some(b) => Take(Some(b.(last := MinReal(b.last, now))), now, refill, capacity)
  }

  ghost function StoredBefore(h: History, forgets: bool, n: nat): Option<Stored>
    requires h.Usable() && n <= |h.ts|
  {
    if n == 0 then None
    else
      var taken := SharedTake(StoredBefore(h, forgets, n - 1), forgets, h.ts[n - 1], h.refill, h.capacity);
      Some(Stored(taken.bucket, h.ts[n - 1] + TimeToLive(h.refill, h.capacity) as real))
  }

  ghost function SharedWait(h: History, forgets: bool, n: nat): real
    requires h.Usable() && n < |h.ts|
  {
    SharedTake(StoredBefore(h, forgets, n), forgets, h.ts[n], h.refill, h.capacity).wait
  }

  // By the time a key expires a full refill has passed, so the forgotten bucket was full.
  lemma ForgottenMeansFull(b: Bucket, now: real, refill: real, capacity: real)
    requires refill > 0.0 && 0.0 <= b.tokens <= capacity
    requires now >= b.last + TimeToLive(refill, capacity) as real
    ensures Take(Some(b), now, refill, capacity) == Take(None, now, refill, capacity)
  {
    assert Ceil(capacity / refill) as real >= capacity / refill;
    var elapsed := now - b.last;
    assert elapsed * refill >= capacity by {
      assert (capacity / refill) * refill == capacity;
      assert (elapsed - capacity / refill) * refill >= 0.0;
    }
  }

  /** Over any monotone clock history, forgetting idle keys changes no answer: the script
      agrees with one that never forgets and with the in-process bucket. */
  lemma {:induction false} ExpiryIsUnobservable(h: History, forgets: bool, n: nat)
    requires h.Usable() && h.Monotone() && h.capacity >= 0.0 && n < |h.ts|
    ensures SharedWait(h, forgets, n) == h.Wait(n)
    ensures n > 0 ==> StoredBefore(h, forgets, n).value.bucket == h.Before(n).value
  {
    if n > 0 {
      ExpiryIsUnobservable(h, forgets, n - 1);
      BucketStaysInRange(h, n - 1);
      BucketStaysInRange(h, n);
      SameStep(h, forgets, n - 1);
      SameStep(h, forgets, n);
    }
  }

  lemma SameStep(h: History, forgets: bool, n: nat)
    requires h.Usable() && h.Monotone() && h.capacity >= 0.0 && n < |h.ts|
    requires n > 0 ==> StoredBefore(h, forgets, n).value.bucket == h.Before(n).value
    ensures SharedTake(StoredBefore(h, forgets, n), forgets, h.ts[n], h.refill, h.capacity) ==
            Take(h.Before(n), h.ts[n], h.refill, h.capacity)
  {
    BucketStaysInRange(h, n);
    if n > 0 && Alive(StoredBefore(h, forgets, n), forgets, h.ts[n]).None? {
      ForgottenMeansFull(h.Before(n).value, h.ts[n], h.refill, h.capacity);
    }
  }

  /** A clock that steps back neither refills nor drains the shared bucket: the call is judged
      on the tokens stored. */
  lemma StepBackChangesNothing(s: Stored, forgets: bool, now: real, refill: real, capacity: real)
    requires refill > 0.0 && now <= s.bucket.last && now < s.expires
    ensures var t := SharedTake(Some(s), forgets, now, refill, capacity); var tokens := MinReal(capacity, s.bucket.tokens);
            t == if tokens >= 1.0 then Taken(Bucket(tokens - 1.0, now), 0.0) else Taken(Bucket(tokens, now), (1.0 - tokens) / refill)
  {
  }
}
