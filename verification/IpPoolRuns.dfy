// What the egress pool promises over whole runs of acquire, report and cool.

module IpPoolRuns {
  import opened Common
  import opened IpPool

  /** A pool and everything that is asked of it, in order. */
  datatype Run = Run(start: Pool, events: seq<Event>) {

    ghost function At(t: nat): Pool
      requires t <= |events|
    {
      if t == 0 then start else Step(At(t - 1), events[t - 1])
    }

    /** The entry handed out by event `t`, if it is an acquire that succeeds. */
    ghost function Handed(t: nat): Option<nat>
      requires t < |events|
    {
      if events[t].Acquire? then Take(At(t), events[t].now, events[t].today).index else None
    }

    /** The pool as the scan of event `t` sees it, after the day roll. */
    ghost function Seen(t: nat): Pool
      requires t < |events| && events[t].Acquire?
    {
      Rolled(At(t), events[t].today)
    }

    /** Event `t` puts entry `k` into cooldown. */
    ghost predicate Cools(t: nat, k: nat)
      requires t < |events|
    {
      && k < |start.entries|
      && ((events[t].Report? && events[t].outcome == Block && events[t].ip.Some? && events[t].ip.value != "" &&
           Find(start.entries, events[t].ip.value) == k)
          || (events[t].Cool? && Find(start.entries, events[t].address) == k))
    }

    ghost function Until(t: nat): real
      requires t < |events|
    {
      events[t].now +
      if events[t].Cool? && events[t].seconds.Some? && events[t].seconds.value != 0.0 then events[t].seconds.value else start.cooldown
    }

    ghost predicate ClockMonotone() {
      forall s, t :: 0 <= s <= t < |events| ==> events[s].now <= events[t].now
    }

    ghost predicate DaysMonotone() {
      && (forall t :: 0 <= t < |events| && events[t].Acquire? ==> start.day <= events[t].today)
      && forall s, t :: 0 <= s <= t < |events| && events[s].Acquire? && events[t].Acquire? ==> events[s].today <= events[t].today
    }

    ghost predicate DefaultLengths() {
      forall t :: 0 <= t < |events| && events[t].Cool? ==> events[t].seconds.None? || events[t].seconds.value == 0.0
    }
  }

  // ---------------------------------------------------------------- single steps

  lemma MultipleIsFar(n: nat, z: int)
    ensures z == 0 || n * z >= n || n * z + n <= 0
  {
    if z >= 1 {
      assert n * (z - 1) >= 0;
    } else if z <= -1 {
      assert n * (-z - 1) >= 0;
    }
  }

  lemma DifferentSlots(a: nat, b: nat, n: nat)
    requires n > 0 && a < b < a + n
    ensures a % n != b % n
  {
    var z := b / n - a / n;
    MultipleIsFar(n, z);
    assert n * z == n * (b / n) - n * (a / n) == (b - b % n) - (a - a % n);
  }

  lemma ModOf(q: nat, n: nat, k: nat)
    requires k < n
    ensures (n * q + k) % n == k
  {
    var m := n * q + k;
    var z := q - m / n;
    MultipleIsFar(n, z);
    assert n * z == n * q - n * (m / n) == m % n - k;
  }

  lemma Euclid(x: nat, n: nat)
    requires n > 0
    ensures x == n * (x / n) + x % n && 0 <= x % n < n
  {
  }

  lemma OneMore(n: nat, q: nat)
    ensures n * (q + 1) == n * q + n
  {
  }

  // The first position at or after `from`, which is `n * q + r`, that falls on slot `k`.
  lemma NextAfter(from: nat, n: nat, k: nat, q: nat, r: nat, turns: nat) returns (x: nat)
    requires k < n && r < n && from == turns + r && turns == n * q
    ensures from <= x < from + n && x % n == k
  {
    if r <= k {
      x := turns + k;
      ModOf(q, n, k);
    } else {
      x := turns + n + k;
      OneMore(n, q);
      ModOf(q + 1, n, k);
    }
  }

  lemma NextPosition(from: nat, n: nat, k: nat) returns (x: nat)
    requires k < n
    ensures from <= x < from + n && x % n == k
  {
    Euclid(from, n);
    x := NextAfter(from, n, k, from / n, from % n, n * (from / n));
  }

  /** Acquire returns nothing exactly when, after the day roll, no entry is eligible; what
      it does return is eligible. */
  lemma NoneOnlyWhenNoneEligible(p: Pool, now: real, today: int)
    ensures |Rolled(p, today).entries| == |p.entries|
    ensures Take(p, now, today).index.None? <==>
              forall k :: 0 <= k < |p.entries| ==> !Eligible(Rolled(p, today).entries[k], p.cap, now)
    ensures Take(p, now, today).index.Some? ==>
              var k := Take(p, now, today).index.value;
              k < |p.entries| && Eligible(Rolled(p, today).entries[k], p.cap, now)
  {
    hide Eligible;
    if p.entries != [] {
      TakeCases(p, now, today);
      var r := Rolled(p, today);
      var n := |r.entries|;
      var x := FirstEligible(r, now, r.cursor, r.cursor + n);
      if x == r.cursor + n {
        forall k | 0 <= k < n
          ensures !Eligible(r.entries[k], p.cap, now)
        {
          var y := NextPosition(r.cursor, n, k);
          assert Slot(r, y) == k;
        }
      }
    }
  }

  /** An entry may be handed out at `now`, the pool's day aside: its cooldown is over and, once
      the day roll has moved its stage and reset its count, it is warmed up or below the cap. */
  predicate MayBeHandedOut(e: Entry, cap: int, now: real, newDay: bool) {
    e.cooldownUntil <= now &&
    ((newDay && e.reputation >= 0.8) || e.stage > 0 || (if newDay then 0 else e.dailyCount) < cap)
  }

  /** Acquire hands out an entry exactly when one may be handed out, and only such a one. */
  lemma HandsOutExactlyWhenPossible(p: Pool, now: real, today: int)
    ensures var index := Take(p, now, today).index;
            && (index.Some? <==> exists k :: 0 <= k < |p.entries| && MayBeHandedOut(p.entries[k], p.cap, now, today != p.day))
            && (index.Some? ==> index.value < |p.entries| && MayBeHandedOut(p.entries[index.value], p.cap, now, today != p.day))
  {
    hide Take;
    NoneOnlyWhenNoneEligible(p, now, today);
    forall k | 0 <= k < |p.entries|
      ensures Eligible(Rolled(p, today).entries[k], p.cap, now) <==> MayBeHandedOut(p.entries[k], p.cap, now, today != p.day)
    {
    }
  }

  /** A new pool holds the addresses that are not blank, each at full reputation in stage 0,
      unused and not cooling. */
  lemma {:induction false} NewPoolEntries(ips: seq<string>, ip: string)
    ensures (exists e :: e in Listed(ips) && e.ip == ip) <==> ip in ips && Strip(ip) != ""
    ensures forall e :: e in Listed(ips) ==> e.dailyCount == 0 && e.cooldownUntil == 0.0 && e.reputation == 1.0 && e.stage == 0
  {
    hide Strip;
    if ips != [] {
      var n := |ips| - 1;
      NewPoolEntries(ips[..n], ip);
      assert ips == ips[..n] + [ips[n]];
      if NotBlank(ips[n]) {
        assert Entry(ips[n], 0, 0.0, 1.0, 0) in Listed(ips);
      }
    }
  }

  lemma {:induction false} FindIgnoresRest(es: seq<Entry>, fs: seq<Entry>, ip: string)
    requires |es| == |fs| && forall k :: 0 <= k < |es| ==> es[k].ip == fs[k].ip
    ensures Find(es, ip) == Find(fs, ip)
  {
    if es != [] && es[0].ip != ip {
      FindIgnoresRest(es[1..], fs[1..], ip);
    }
  }

  // What one event does to one entry.
  lemma StepKeeps(p: Pool, e: Event, k: nat)
    requires k < |p.entries|
    ensures var q := Step(p, e);
            |q.entries| == |p.entries| && q.entries[k].ip == p.entries[k].ip && q.cap == p.cap && q.cooldown == p.cooldown
    ensures e.Acquire? ==> Step(p, e).entries[k].cooldownUntil == p.entries[k].cooldownUntil
    ensures e.Acquire? ==> Step(p, e).day == e.today && Step(p, e).entries[k].stage == Rolled(p, e.today).entries[k].stage
    ensures !e.Acquire? ==> Step(p, e).day == p.day && Step(p, e).cursor == p.cursor
    ensures !e.Acquire? ==> Step(p, e).entries[k].stage == p.entries[k].stage && Step(p, e).entries[k].dailyCount == p.entries[k].dailyCount
  {
    if e.Acquire? {
      TakeCases(p, e.now, e.today);
    }
  }

  lemma {:induction false} RunKeepsShape(r: Run, t: nat, k: nat)
    requires t <= |r.events| && k < |r.start.entries|
    ensures |r.At(t).entries| == |r.start.entries| && r.At(t).entries[k].ip == r.start.entries[k].ip
    ensures r.At(t).cap == r.start.cap && r.At(t).cooldown == r.start.cooldown
  {
    hide Step;
    if t > 0 {
      RunKeepsShape(r, t - 1, k);
      StepKeeps(r.At(t - 1), r.events[t - 1], k);
    }
  }

  // ---------------------------------------------------------------- cooldowns

  lemma CooldownStep(r: Run, t: nat, k: nat)
    requires t < |r.events| && k < |r.start.entries|
    ensures |r.At(t).entries| == |r.At(t + 1).entries| == |r.start.entries|
    ensures r.At(t + 1).entries[k].cooldownUntil == if r.Cools(t, k) then r.Until(t) else r.At(t).entries[k].cooldownUntil
  {
    var p, e := r.At(t), r.events[t];
    forall j | 0 <= j < |r.start.entries|
      ensures |p.entries| == |r.start.entries| && p.entries[j].ip == r.start.entries[j].ip && p.cooldown == r.start.cooldown
    {
      RunKeepsShape(r, t, j);
    }
    RunKeepsShape(r, t + 1, k);
    if e.Acquire? {
      StepKeeps(p, e, k);
    } else if e.Cool? {
      FindIgnoresRest(p.entries, r.start.entries, e.address);
    } else if e.ip.Some? {
      FindIgnoresRest(p.entries, r.start.entries, e.ip.value);
    }
  }

  lemma {:induction false} CooldownHolds(r: Run, s: nat, t: nat, k: nat)
    requires s < t <= |r.events| && k < |r.start.entries| && r.Cools(s, k)
    requires forall u :: s < u < t ==> !r.Cools(u, k)
    ensures |r.At(t).entries| == |r.start.entries| && r.At(t).entries[k].cooldownUntil == r.Until(s)
  {
    hide r.Cools, r.Until, r.At;
    CooldownStep(r, t - 1, k);
    if s < t - 1 {
      CooldownHolds(r, s, t - 1, k);
    }
  }

  /** Whatever the cooldown lengths: an entry is handed out only once its latest cooldown is over. */
  lemma LatestCooldownIsServed(r: Run, s: nat, t: nat, k: nat)
    requires s < t < |r.events| && r.Cools(s, k) && forall u :: s < u < t ==> !r.Cools(u, k)
    requires r.Handed(t) == Some(k)
    ensures r.Until(s) <= r.events[t].now
  {
    CooldownHolds(r, s, t, k);
    NoneOnlyWhenNoneEligible(r.At(t), r.events[t].now, r.events[t].today);
  }

  lemma {:induction false} DefaultCooldownHolds(r: Run, s: nat, t: nat, k: nat)
    requires r.DefaultLengths() && r.ClockMonotone() && s < t <= |r.events| && k < |r.start.entries| && r.Cools(s, k)
    ensures |r.At(t).entries| == |r.start.entries| && r.At(t).entries[k].cooldownUntil >= r.events[s].now + r.start.cooldown
  {
    hide r.Cools, r.At;
    CooldownStep(r, t - 1, k);
    if s < t - 1 {
      DefaultCooldownHolds(r, s, t - 1, k);
    }
  }

  /** The address is blocked or cooled by event `s`. */
  ghost predicate CoolsAddress(e: Event, ip: string) {
    (e.Report? && e.outcome == Block && e.ip == Some(ip) && ip != "") || (e.Cool? && e.address == ip)
  }

  ghost predicate DistinctAddresses(p: Pool) {
    forall j, k :: 0 <= j < k < |p.entries| ==> p.entries[j].ip != p.entries[k].ip
  }

  /** No run with default-length cooldowns and a monotone clock hands out an address that
      is still cooling. */
  ghost predicate NeverHandsOutCooling(p: Pool) {
    forall r: Run, s: nat, t: nat :: r.start == p && HandsOutNamed(r, s, t) ==>
      r.events[s].now + p.cooldown <= r.events[t].now
  }

  /** In a run with default-length cooldowns and a monotone clock, event `t` hands out an
      address that the earlier event `s` put into cooldown. */
  ghost predicate HandsOutNamed(r: Run, s: nat, t: nat) {
    && r.ClockMonotone() && r.DefaultLengths() && s < t < |r.events|
    && r.Handed(t).Some? && r.Handed(t).value < |r.start.entries|
    && CoolsAddress(r.events[s], r.start.entries[r.Handed(t).value].ip)
  }

  lemma DistinctIsSafe(p: Pool)
    requires DistinctAddresses(p)
    ensures NeverHandsOutCooling(p)
  {
    forall r: Run, s: nat, t: nat | r.start == p && HandsOutNamed(r, s, t)
      ensures r.events[s].now + p.cooldown <= r.events[t].now
    {
      var k := r.Handed(t).value;
      FindIsFirst(p.entries, p.entries[k].ip, k);
      DefaultCooldownHolds(r, s, t, k);
      NoneOnlyWhenNoneEligible(r.At(t), r.events[t].now, r.events[t].today);
    }
  }

  // ---------------------------------------------------------------- the daily cap

  /** Hand-outs of entry `k` on UTC day `day` among the first `t` events. */
  ghost function HandOuts(r: Run, k: nat, day: int, t: nat): nat
    requires t <= |r.events|
  {
    if t == 0 then 0
    else
      var e := r.events[t - 1];
      HandOuts(r, k, day, t - 1) + if e.Acquire? && e.today == day && r.Handed(t - 1) == Some(k) then 1 else 0
  }

  lemma {:induction false} DayNeverAhead(r: Run, t: nat, s: nat)
    requires r.DaysMonotone() && t <= s < |r.events| && r.events[s].Acquire?
    ensures r.At(t).day <= r.events[s].today
  {
    if t > 0 {
      DayNeverAhead(r, t - 1, s);
      DayAfter(r.At(t - 1), r.events[t - 1]);
    }
  }

  lemma DayAfter(p: Pool, e: Event)
    ensures Step(p, e).day == if e.Acquire? && p.entries != [] then e.today else p.day
  {
    if e.Acquire? && p.entries != [] {
      TakeCases(p, e.now, e.today);
    }
  }

  lemma CountStep(p: Pool, e: Event, k: nat)
    requires e.Acquire? && k < |p.entries|
    ensures var q := Step(p, e); var seen := Rolled(p, e.today).entries[k];
            && |q.entries| == |p.entries| && |Rolled(p, e.today).entries| == |p.entries|
            && q.entries[k].dailyCount == seen.dailyCount + (if Take(p, e.now, e.today).index == Some(k) then 1 else 0)
            && (Take(p, e.now, e.today).index == Some(k) && seen.stage == 0 ==> seen.dailyCount < p.cap)
  {
    TakeCases(p, e.now, e.today);
    NoneOnlyWhenNoneEligible(p, e.now, e.today);
  }

  /** While an entry is at stage 0, it has been handed out at most `cap` times on the pool's
      current UTC day; the daily count is exactly the number of those hand-outs. */
  lemma {:induction false} DailyCapHolds(r: Run, k: nat, t: nat)
    requires r.DaysMonotone() && t <= |r.events| && k < |r.start.entries|
    requires forall j :: 0 <= j < |r.start.entries| ==> r.start.entries[j].dailyCount == 0
    ensures |r.At(t).entries| == |r.start.entries|
    ensures HandOuts(r, k, r.At(t).day, t) == r.At(t).entries[k].dailyCount
    ensures r.At(t).entries[k].stage == 0 ==> r.At(t).entries[k].dailyCount <= Max(0, r.start.cap)
    ensures forall day: int :: day > r.At(t).day ==> HandOuts(r, k, day, t) == 0
  {
    hide Step, Rolled;
    if t > 0 {
      var p, e := r.At(t - 1), r.events[t - 1];
      DailyCapHolds(r, k, t - 1);
      RunKeepsShape(r, t - 1, k);
      StepKeeps(p, e, k);
      if e.Acquire? {
        DayNeverAhead(r, t - 1, t - 1);
        CountStep(p, e, k);
        RolledEntry(p, e.today, k);
      }
    }
  }

  lemma RolledEntry(p: Pool, today: int, k: nat)
    requires k < |p.entries|
    ensures var q := Rolled(p, today);
            && |q.entries| == |p.entries|
            && (today == p.day ==> q == p)
            && (today != p.day ==> q.entries[k].dailyCount == 0)
  {
  }

  // ---------------------------------------------------------------- reputation and warm-up

  /** Event `t` reports an outcome of entry `k`. */
  ghost predicate Reports(r: Run, t: nat, k: nat, o: Outcome) {
    t < |r.events| && k < |r.start.entries| && r.events[t].Report? && r.events[t].outcome == o &&
    r.events[t].ip.Some? && r.events[t].ip.value != "" && Find(r.start.entries, r.events[t].ip.value) == k
  }

  /** A block costs half a point of reputation and a deferral a twentieth, never below zero; a
      success earns a hundredth, never above one; nothing else changes it. */
  lemma ReportsMoveReputation(r: Run, t: nat, k: nat)
    requires t < |r.events| && k < |r.start.entries|
    ensures |r.At(t).entries| == |r.At(t + 1).entries| == |r.start.entries|
    ensures var was, now := r.At(t).entries[k].reputation, r.At(t + 1).entries[k].reputation;
            now == if Reports(r, t, k, Block) then if was >= 0.5 then was - 0.5 else 0.0
                   else if Reports(r, t, k, Tempfail) then if was >= 0.05 then was - 0.05 else 0.0
                   else if Reports(r, t, k, Ok) then if was <= 0.99 then was + 0.01 else 1.0
                   else was
  {
    var p, e := r.At(t), r.events[t];
    forall j | 0 <= j < |r.start.entries|
      ensures |p.entries| == |r.start.entries| && p.entries[j].ip == r.start.entries[j].ip
    {
      RunKeepsShape(r, t, j);
    }
    RunKeepsShape(r, t + 1, k);
    if e.Acquire? {
      AcquireKeepsReputation(p, e.now, e.today, k);
    } else if e.Cool? {
      FindIgnoresRest(p.entries, r.start.entries, e.address);
    } else if e.ip.Some? {
      FindIgnoresRest(p.entries, r.start.entries, e.ip.value);
    }
  }

  lemma AcquireKeepsReputation(p: Pool, now: real, today: int, k: nat)
    requires k < |p.entries|
    ensures |Take(p, now, today).pool.entries| == |p.entries|
    ensures Take(p, now, today).pool.entries[k].reputation == p.entries[k].reputation
  {
    hide FirstEligible;
    TakeCases(p, now, today);
  }

  /** On the first acquire of a new day every entry with reputation of at least 0.8 moves one
      warm-up stage on; on the same day, and by any other event, no stage changes. */
  lemma StagesMoveOnNewDays(r: Run, t: nat, k: nat)
    requires t < |r.events| && k < |r.start.entries|
    ensures |r.At(t).entries| == |r.At(t + 1).entries| == |r.start.entries|
    ensures var e, was := r.events[t], r.At(t).entries[k];
            r.At(t + 1).entries[k].stage ==
            was.stage + if e.Acquire? && e.today != r.At(t).day && was.reputation >= 0.8 then 1 else 0
  {
    RunKeepsShape(r, t, k);
    RunKeepsShape(r, t + 1, k);
    StepKeeps(r.At(t), r.events[t], k);
  }

  /** Successes reported of entry `k` by the events `s`, ..., `t - 1`. */
  ghost function Successes(r: Run, k: nat, s: nat, t: nat): nat
    requires s <= t <= |r.events|
  {
    if s == t then 0 else Successes(r, k, s, t - 1) + if Reports(r, t - 1, k, Ok) then 1 else 0
  }

  lemma {:induction false} ReputationAtMostOne(r: Run, t: nat, k: nat)
    requires t <= |r.events| && k < |r.start.entries| && r.start.entries[k].reputation <= 1.0
    ensures |r.At(t).entries| == |r.start.entries| && r.At(t).entries[k].reputation <= 1.0
  {
    hide Step, Reports;
    if t > 0 {
      ReputationAtMostOne(r, t - 1, k);
      ReportsMoveReputation(r, t - 1, k);
    }
  }

  /** A blocked entry has to earn its way back: until thirty successes have been reported since,
      its reputation stays below 0.8 and it leaves no warm-up stage, however many days pass. */
  lemma {:induction false} BlockedEntryStaysInStage(r: Run, s: nat, t: nat, k: nat)
    requires s < t <= |r.events| && k < |r.start.entries| && r.start.entries[k].reputation <= 1.0
    requires Reports(r, s, k, Block) && Successes(r, k, s + 1, t) < 30
    ensures |r.At(s).entries| == |r.At(t).entries| == |r.start.entries|
    ensures r.At(t).entries[k].reputation <= 0.5 + 0.01 * Successes(r, k, s + 1, t) as real < 0.8
    ensures r.At(t).entries[k].stage == r.At(s).entries[k].stage
    decreases t
  {
    hide Step, Reports;
    ReportsMoveReputation(r, t - 1, k);
    StagesMoveOnNewDays(r, t - 1, k);
    if s + 1 < t {
      BlockedEntryStaysInStage(r, s, t - 1, k);
    } else {
      ReputationAtMostOne(r, s, k);
      ReportIsNoAcquire(r, s, k);
    }
  }

  lemma ReportIsNoAcquire(r: Run, t: nat, k: nat)
    requires Reports(r, t, k, Block)
    ensures !r.events[t].Acquire?
  {
  }

  // ---------------------------------------------------------------- rotation

  // From a hand-out on, the cursor does not pass the next position of an entry that stays
  // eligible until that entry is handed out.
  lemma {:induction false} CursorStopsAtEligible(r: Run, s: nat, u: nat, m: nat, x: nat)
    requires s < u <= |r.events| && m < |r.start.entries|
    requires r.At(s + 1).cursor <= x < r.At(s + 1).cursor + |r.start.entries| && x % |r.start.entries| == m
    requires forall v :: s < v < u && r.events[v].Acquire? ==> EligibleIn(r, v, m) && r.Handed(v) != Some(m)
    ensures r.At(s + 1).cursor <= r.At(u).cursor <= x
  {
    hide Step, Eligible;
    if s + 1 < u {
      CursorStopsAtEligible(r, s, u - 1, m, x);
      RunKeepsShape(r, u - 1, m);
      if r.events[u - 1].Acquire? {
        ScanStops(r, u - 1, m, x);
      } else {
        StepKeeps(r.At(u - 1), r.events[u - 1], m);
      }
    }
  }

  ghost predicate EligibleIn(r: Run, v: nat, m: nat)
    requires v < |r.events| && r.events[v].Acquire?
  {
    m < |r.Seen(v).entries| && Eligible(r.Seen(v).entries[m], r.start.cap, r.events[v].now)
  }

  lemma ScanStops(r: Run, v: nat, m: nat, x: nat)
    requires v < |r.events| && r.events[v].Acquire? && m < |r.start.entries| && EligibleIn(r, v, m)
    requires r.At(v).cursor <= x < r.At(v).cursor + |r.start.entries| && x % |r.start.entries| == m
    ensures r.Handed(v).Some? && r.At(v).cursor < r.At(v + 1).cursor <= x + 1
    ensures r.Handed(v).value == (r.At(v + 1).cursor - 1) % |r.start.entries|
    ensures r.At(v + 1).cursor == x + 1 ==> r.Handed(v) == Some(m)
  {
    hide Eligible, Rolled, Take;
    RunKeepsShape(r, v, m);
    ScanFinds(r.At(v), r.events[v].now, r.events[v].today, m, x);
  }

  // A scan takes an eligible entry no later than at its next position in the rotation.
  lemma ScanFinds(p: Pool, now: real, today: int, m: nat, x: nat)
    requires m < |p.entries| && m < |Rolled(p, today).entries| && Eligible(Rolled(p, today).entries[m], p.cap, now)
    requires p.cursor <= x < p.cursor + |p.entries| && x % |p.entries| == m
    ensures var t := Take(p, now, today);
            && t.index.Some? && p.cursor < t.pool.cursor <= x + 1
            && t.index.value == (t.pool.cursor - 1) % |p.entries|
            && (t.pool.cursor == x + 1 ==> t.index == Some(m))
  {
    hide Eligible, Take;
    TakeCases(p, now, today);
    RolledShape(p, today);
    assert Slot(Rolled(p, today), x) == m;
  }

  lemma RolledShape(p: Pool, today: int)
    ensures var q := Rolled(p, today);
            |q.entries| == |p.entries| && q.cursor == p.cursor && q.cap == p.cap
  {
  }

  lemma TakeMovesPast(p: Pool, now: real, today: int, k: nat)
    requires Take(p, now, today).index == Some(k)
    ensures p.entries != [] && var t := Take(p, now, today); t.pool.cursor > 0 && (t.pool.cursor - 1) % |p.entries| == k
  {
    hide Eligible, Rolled, FirstEligible;
    if p.entries != [] {
      TakeCases(p, now, today);
    }
  }

  lemma HandOutMovesPast(r: Run, s: nat, k: nat)
    requires s < |r.events| && k < |r.start.entries| && r.Handed(s) == Some(k)
    ensures r.events[s].Acquire? && r.At(s + 1).cursor > 0 && (r.At(s + 1).cursor - 1) % |r.start.entries| == k
  {
    hide Take, Rolled;
    RunKeepsShape(r, s, k);
    TakeMovesPast(r.At(s), r.events[s].now, r.events[s].today, k);
  }

  /** Between two hand-outs of one entry, every other entry eligible throughout was handed out. */
  lemma RotationIsFair(r: Run, s: nat, t: nat, k: nat, m: nat)
    requires s < t < |r.events| && k < |r.start.entries| && m < |r.start.entries| && k != m
    requires r.Handed(s) == Some(k) && r.Handed(t) == Some(k)
    requires forall v :: s < v <= t && r.events[v].Acquire? ==> EligibleIn(r, v, m)
    ensures exists v :: s < v < t && r.Handed(v) == Some(m)
  {
    hide r.At, r.Handed, EligibleIn;
    if forall v :: s < v < t ==> r.Handed(v) != Some(m) {
      var n := |r.start.entries|;
      HandOutMovesPast(r, s, k);
      HandOutMovesPast(r, t, k);
      var from := r.At(s + 1).cursor;
      var x := NextPosition(from, n, m);
      CursorStopsAtEligible(r, s, t, m, x);
      ScanStops(r, t, m, x);
      var y := r.At(t + 1).cursor - 1;
      assert from <= y <= x < from + n && y % n == k;
      if y < from + n - 1 {
        DifferentSlots(from - 1, y, n);
      }
      assert false;
    }
  }

  // ---------------------------------------------------------------- addresses listed twice

  lemma {:induction false} ListedEntriesAreNew(ips: seq<string>)
    ensures forall e :: e in Listed(ips) ==> e == Entry(e.ip, 0, 0.0, 1.0, 0)
  {
    if ips != [] {
      ListedEntriesAreNew(ips[..|ips| - 1]);
    }
  }

  /** Cool every listed address at time zero. */
  function CoolAll(es: seq<Entry>): (r: seq<Event>)
    ensures |r| == |es| && forall k :: 0 <= k < |es| ==> r[k] == Cool(es[k].ip, None, 0.0)
  {
    if es == [] then [] else CoolAll(es[..|es| - 1]) + [Cool(es[|es| - 1].ip, None, 0.0)]
  }

  // Cooling by address never reaches an entry whose address is already listed before it.
  lemma {:induction false} RepeatStaysWarm(r: Run, t: nat, j: nat, k: nat)
    requires t <= |r.events| && j < k < |r.start.entries| && r.start.entries[j].ip == r.start.entries[k].ip
    requires forall u :: 0 <= u < t ==> r.events[u].Cool?
    ensures |r.At(t).entries| == |r.start.entries| && r.At(t).day == r.start.day
    ensures r.At(t).entries[k] == r.start.entries[k]
  {
    hide Step;
    if t > 0 {
      RepeatStaysWarm(r, t - 1, j, k);
      RunKeepsShape(r, t - 1, j);
      CoolMissesRepeat(r.At(t - 1), r.events[t - 1], j, k);
    }
  }

  lemma CoolMissesRepeat(p: Pool, e: Event, j: nat, k: nat)
    requires e.Cool? && j < k < |p.entries| && p.entries[j].ip == p.entries[k].ip
    ensures |Step(p, e).entries| == |p.entries| && Step(p, e).entries[k] == p.entries[k] && Step(p, e).day == p.day
  {
    assert Find(p.entries, e.address) != k;
  }

  lemma RepeatIsUnsafe(ips: seq<string>, cap: int, cooldown: real, day: int)
    requires cooldown > 0.0 && !DistinctAddresses(NewPool(ips, cap, cooldown, day))
    ensures !NeverHandsOutCooling(NewPool(ips, cap, cooldown, day))
  {
    hide Listed, HandsOutNamed, CoolAll;
    var p := NewPool(ips, cap, cooldown, day);
    ListedEntriesAreNew(ips);
    var j, k :| 0 <= j < k < |p.entries| && p.entries[j].ip == p.entries[k].ip;
    assert p.entries[k] in Listed(ips);
    var r := Run(p, CoolAll(p.entries) + [Acquire(0.0, day + 1)]);
    var h := RepeatIsHandedOut(r, j, k);
    assert r.start == p && HandsOutNamed(r, h, |p.entries|);
  }

  lemma RepeatIsHandedOut(r: Run, j: nat, k: nat) returns (h: nat)
    requires j < k < |r.start.entries| && r.start.entries[j].ip == r.start.entries[k].ip
    requires r.events == CoolAll(r.start.entries) + [Acquire(0.0, r.start.day + 1)]
    requires r.start.entries[k] == Entry(r.start.entries[k].ip, 0, 0.0, 1.0, 0)
    ensures HandsOutNamed(r, h, |r.start.entries|) && r.events[h].now == r.events[|r.start.entries|].now == 0.0
  {
    hide r.At, Rolled, Eligible, Take, CoolAll;
    var n := |r.start.entries|;
    RepeatStaysWarm(r, n, j, k);
    RunKeepsShape(r, n, k);
    PromotedIsEligible(r.At(n), k, r.start.day + 1);
    NoneOnlyWhenNoneEligible(r.At(n), 0.0, r.start.day + 1);
    h := r.Handed(n).value;
    assert r.events[h] == Cool(r.start.entries[h].ip, None, 0.0);
  }

  lemma PromotedIsEligible(p: Pool, k: nat, today: int)
    requires k < |p.entries| && today != p.day && p.entries[k].cooldownUntil == 0.0 && p.entries[k].reputation == 1.0
    ensures |Rolled(p, today).entries| == |p.entries| && Eligible(Rolled(p, today).entries[k], p.cap, 0.0)
  {
  }

  /** A cooling address is never handed out, in any run, exactly when no address is listed twice. */
  lemma SafeExactlyWhenDistinct(ips: seq<string>, cap: int, cooldown: real, day: int)
    requires cooldown > 0.0
    ensures NeverHandsOutCooling(NewPool(ips, cap, cooldown, day)) <==> DistinctAddresses(NewPool(ips, cap, cooldown, day))
  {
    if DistinctAddresses(NewPool(ips, cap, cooldown, day)) {
      DistinctIsSafe(NewPool(ips, cap, cooldown, day));
    } else {
      RepeatIsUnsafe(ips, cap, cooldown, day);
    }
  }
}
