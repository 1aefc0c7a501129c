// Deferred re-probes over every run: any number of pollers claiming from one table, each
// claim ending in a deferral, an answer, a raise or a crash, on one shared clock. Dropping
// the row and writing the address are two steps, and a claim may end between them.
// A key is enrolled once; a later bulk run that verifies or schedules it afresh is not part
// of a run.

module ReprobeRuns {
  import opened Common
  import opened Verdicts
  import opened Reprobe
  import Addresses = Addresses

  datatype Config = Config(policy: Policy, lease: real) {
    predicate Usable() {
      policy.Usable() && lease > 0.0
    }

    /** Any retry it can schedule lies at least one lease ahead. */
    ghost predicate Spaced()
      requires Usable()
    {
      forall a: nat :: 1 <= a < policy.maxAttempts ==> policy.NextDelay(a) < 0 || policy.NextDelay(a) as real >= lease
    }
  }

  /** How far a claim has come. */
  datatype Phase =
    | Probing
    | Dropped(verdict: VerdictData)      // row dropped, address not written yet
    | Updated(verdict: VerdictData)      // address written
    | Lost(verdict: VerdictData)         // raised or crashed between the two
    | Over                               // retried, or raised before touching the row

  /** A claim: the row as it was taken, the end of its lease and how far it has come. */
  datatype Held = Held(claim: Claim, until: real, phase: Phase)

  /** An address row and the claim that wrote it, if a retry did. */
  datatype Entry = Entry(record: Addresses.Record, writer: Option<nat>)

  datatype Sys = Sys(
    table: Table,
    now: real,
    held: map<nat, Held>,        // every claim ever taken
    nextId: nat,
    enrolled: set<Key>,
    deferrals: map<Key, nat>,    // deferred outcomes so far
    addresses: map<Key, Entry>
  )

  datatype Event =
    | Advance(now: real)
    | Import(key: Key, record: Addresses.Record)   // the bulk run writes an address
    | Enrol(key: Key, jobId: string, code: int)    // and schedules its first retry
    | Take(key: Key)
    | Finish(id: nat, end: ProbeEnd)               // `Raised` also stands for a crash while probing
    | Update(id: nat)
    | Fail(id: nat)                                // a raise or crash between drop and update

  function Initial(): Sys {
    Sys(map[], 0.0, map[], 0, {}, map[], map[])
  }

  predicate Enabled(s: Sys, e: Event) {
    match e
    case Advance(now) => s.now <= now
    case Import(key, _) => key !in s.enrolled
    case Enrol(key, _, _) => key !in s.enrolled
    case Take(key) => key in s.table && s.table[key].nextAt <= s.now
    case Finish(id, _) => id in s.held && s.held[id].phase.Probing?
    case Update(id) => id in s.held && s.held[id].phase.Dropped?
    case Fail(id) => id in s.held && s.held[id].phase.Dropped?
  }

  function DeferralsOf(s: Sys, key: Key): nat {
    if key in s.deferrals then s.deferrals[key] else 0
  }

  function Records(s: Sys): AddressTable {
    map key | key in s.addresses :: s.addresses[key].record
  }

  function MovedTo(s: Sys, id: nat, p: Phase): map<nat, Held>
    requires id in s.held
  {
    s.held[id := s.held[id].(phase := p)]
  }

  function Apply(c: Config, s: Sys, e: Event): Sys
    requires c.Usable() && Enabled(s, e)
  {
    match e
    case Advance(now) => s.(now := now)
    case Import(key, record) => s.(addresses := s.addresses[key := Entry(record, None)])
    case Enrol(key, jobId, code) =>
      var row := Scheduled(c.policy, jobId, 0, code, s.now);
      s.(enrolled := s.enrolled + {key}, table := if row.Some? then s.table[key := row.value] else s.table)
    case Take(key) =>
      var until := s.now + c.lease;
      s.(table := s.table[key := s.table[key].(nextAt := until)],
         held := s.held[s.nextId := Held(Claim(key, s.table[key]), until, Probing)], nextId := s.nextId + 1)
    case Finish(id, end) =>
      var h := s.held[id];
      var key := h.claim.key;
      s.(held := MovedTo(s, id, if Removes(c.policy, h.claim, end) then Dropped(end.verdict) else Over),
         table := if end.Raised? then s.table
                  else Stored(s.table, key, AfterProbe(c.policy, h.claim, end, h.until, s.now)),
         deferrals := if end.Deferred? then s.deferrals[key := DeferralsOf(s, key) + 1] else s.deferrals)
    case Update(id) =>
      var h := s.held[id];
      var record := Refreshed(Records(s), h.claim.key, h.phase.verdict, h.claim.row.jobId);
      s.(held := MovedTo(s, id, Updated(h.phase.verdict)),
         addresses := s.addresses[(h.claim.key.0, record.email) := Entry(record, Some(id))])
    case Fail(id) => s.(held := MovedTo(s, id, Lost(s.held[id].phase.verdict)))
  }

  /** The event is not a write to the queue by a worker whose lease has run out. */
  predicate InTime(s: Sys, e: Event) {
    e.Finish? && !e.end.Raised? && e.id in s.held ==> s.now < s.held[e.id].until
  }

  ghost predicate IsRun(c: Config, run: seq<Sys>, events: seq<Event>)
    requires c.Usable()
  {
    && |run| == |events| + 1 && run[0] == Initial()
    && forall i :: 0 <= i < |events| ==> Enabled(run[i], events[i]) && run[i + 1] == Apply(c, run[i], events[i])
  }

  ghost predicate Timely(run: seq<Sys>, events: seq<Event>) {
    |run| > |events| && forall i :: 0 <= i < |events| ==> InTime(run[i], events[i])
  }

  // ---------------------------------------------------------------- every run

  ghost predicate Sound(c: Config, s: Sys) {
    && (forall key :: key in s.table ==> s.table[key].attempt < c.policy.maxAttempts && key in s.enrolled)
    && (forall id :: id in s.held ==> id < s.nextId && s.held[id].claim.key in s.enrolled && s.held[id].until <= s.now + c.lease)
    && (forall key :: key in s.deferrals ==> key in s.enrolled)
  }

  lemma StepKeepsSound(c: Config, s: Sys, e: Event)
    requires c.Usable() && Sound(c, s) && Enabled(s, e)
    ensures Sound(c, Apply(c, s, e))
  {
  }

  lemma {:induction false} RunKeepsSound(c: Config, run: seq<Sys>, events: seq<Event>, i: nat)
    requires c.Usable() && IsRun(c, run, events) && i < |run|
    ensures Sound(c, run[i])
  {
    hide Apply, Enabled;
    if i > 0 {
      RunKeepsSound(c, run, events, i - 1);
      StepKeepsSound(c, run[i - 1], events[i - 1]);
    }
  }

  /** The stored attempt number stays in [0, maxAttempts), late workers or not. */
  lemma AttemptsStayInRange(c: Config, run: seq<Sys>, events: seq<Event>, i: nat, key: Key)
    requires c.Usable() && IsRun(c, run, events) && i < |run| && key in run[i].table
    ensures 0 <= run[i].table[key].attempt < c.policy.maxAttempts
  {
    RunKeepsSound(c, run, events, i);
  }

  /** A row leaves the table only when a claim on it is answered or runs out of attempts; a
      raise or crash while probing loses nothing, one between drop and update touches neither
      table. */
  lemma RowsSurviveFailures(c: Config, s: Sys, e: Event, key: Key)
    requires c.Usable() && Enabled(s, e) && key in s.table
    ensures key !in Apply(c, s, e).table ==>
              e.Finish? && s.held[e.id].claim.key == key && Removes(c.policy, s.held[e.id].claim, e.end)
    ensures (e.Finish? && e.end.Raised?) || e.Fail? ==>
              Apply(c, s, e).table == s.table && Apply(c, s, e).addresses == s.addresses
  {
  }

  /** However its last claim ended, a stored row can be claimed again once the clock passes
      its next attempt. */
  lemma StoredRowsComeDue(c: Config, s: Sys, key: Key, later: real)
    requires c.Usable() && key in s.table && later >= s.now && later >= s.table[key].nextAt
    ensures Enabled(s, Advance(later)) && Enabled(Apply(c, s, Advance(later)), Take(key))
  {
  }

  // ---------------------------------------------------------------- workers that finish in time

  /** The worker is still at it and its lease has not run out. */
  ghost predicate Live(s: Sys, id: nat) {
    id in s.held && (s.held[id].phase.Probing? || s.held[id].phase.Dropped?) && s.now < s.held[id].until
  }

  /** The claim removed its row. */
  ghost predicate Removed(s: Sys, id: nat, key: Key) {
    id in s.held && s.held[id].claim.key == key &&
    (s.held[id].phase.Dropped? || s.held[id].phase.Updated? || s.held[id].phase.Lost?)
  }

  /** A live probing claim's row is still as the claim left it. */
  ghost predicate LiveRowsMatch(s: Sys) {
    forall id :: Live(s, id) && s.held[id].phase.Probing? ==>
      var h := s.held[id];
      h.claim.key in s.table && s.table[h.claim.key] == h.claim.row.(nextAt := h.until)
  }

  /** Live claims are on different keys. */
  ghost predicate LiveAlone(s: Sys) {
    forall i, j :: Live(s, i) && Live(s, j) && s.held[i].claim.key == s.held[j].claim.key ==> i == j
  }

  ghost predicate LiveClaimsMatch(s: Sys) {
    LiveRowsMatch(s) && LiveAlone(s)
  }

  /** A removed row stays removed, by one claim only. */
  ghost predicate RemovedOnce(s: Sys) {
    && (forall id, key :: Removed(s, id, key) ==> key !in s.table)
    && (forall i, j, key :: Removed(s, i, key) && Removed(s, j, key) ==> i == j)
  }

  ghost predicate DeferralsCounted(c: Config, s: Sys) {
    forall key ::
      if key in s.table then DeferralsOf(s, key) == s.table[key].attempt
      else DeferralsOf(s, key) <= Max(0, c.policy.maxAttempts)
  }

  lemma TimelyStepKeepsAlone(c: Config, s: Sys, e: Event)
    requires c.Usable() && LiveAlone(s) && Enabled(s, e)
    requires e.Take? ==> forall id :: Live(s, id) ==> s.held[id].claim.key != e.key
    requires forall id :: id in s.held ==> id < s.nextId
    ensures LiveAlone(Apply(c, s, e))
  {
    hide Stored, AfterProbe, Removes, Scheduled;
    var next := Apply(c, s, e);
    forall id | Live(next, id)
      ensures if e.Take? && id == s.nextId then next.held[id].claim.key == e.key
              else Live(s, id) && next.held[id].claim == s.held[id].claim
    {
    }
  }

  lemma TimelyStepKeepsRows(c: Config, s: Sys, e: Event)
    requires c.Usable() && LiveRowsMatch(s) && LiveAlone(s) && Enabled(s, e) && InTime(s, e)
    requires forall id :: id in s.held ==> id < s.nextId && s.held[id].claim.key in s.enrolled
    requires e.Take? ==> forall id :: Live(s, id) ==> s.held[id].claim.key != e.key
    ensures LiveRowsMatch(Apply(c, s, e))
  {
    hide AfterProbe, Removes, Scheduled;
    var next := Apply(c, s, e);
    forall id | Live(next, id) && next.held[id].phase.Probing?
      ensures var h := next.held[id];
              h.claim.key in next.table && next.table[h.claim.key] == h.claim.row.(nextAt := h.until)
    {
      if id in s.held {
        assert Live(s, id);
        assert e.Finish? && !e.end.Raised? ==> Live(s, e.id) && e.id != id;
      }
    }
  }

  lemma TimelyStepKeepsMatch(c: Config, s: Sys, e: Event)
    requires c.Usable() && Sound(c, s) && LiveClaimsMatch(s) && RemovedOnce(s) && Enabled(s, e) && InTime(s, e)
    ensures LiveClaimsMatch(Apply(c, s, e))
  {
    hide RemovedOnce, Sound, Apply, Enabled, LiveRowsMatch, LiveAlone;
    SoundIds(c, s);
    if e.Take? {
      NobodyLiveOnDueRow(s, e.key);
    }
    TimelyStepKeepsAlone(c, s, e);
    TimelyStepKeepsRows(c, s, e);
  }

  lemma NobodyLiveOnDueRow(s: Sys, key: Key)
    requires LiveClaimsMatch(s) && RemovedOnce(s) && Enabled(s, Take(key))
    ensures forall id :: Live(s, id) ==> s.held[id].claim.key != key
  {
    forall id | Live(s, id)
      ensures s.held[id].claim.key != key
    {
      if s.held[id].phase.Dropped? {
        assert Removed(s, id, s.held[id].claim.key);
      }
    }
  }

  lemma TimelyStepKeepsRemoved(c: Config, s: Sys, e: Event)
    requires c.Usable() && Sound(c, s) && LiveClaimsMatch(s) && RemovedOnce(s) && Enabled(s, e) && InTime(s, e)
    ensures RemovedOnce(Apply(c, s, e))
  {
    var next := Apply(c, s, e);
    forall id, key | Removed(next, id, key)
      ensures key !in next.table && (Removed(s, id, key) || (e.Finish? && e.id == id && key in s.table))
    {
      if !Removed(s, id, key) {
        assert Live(s, id);
      } else if e.Finish? && !e.end.Raised? {
        assert Live(s, e.id);
      }
    }
  }

  // A claim that ends without a raise counts on from the attempt its row still has.
  lemma FinishKeepsCount(c: Config, s: Sys, id: nat, end: ProbeEnd)
    requires c.Usable() && DeferralsCounted(c, s) && Enabled(s, Finish(id, end)) && !end.Raised?
    requires var row, key := s.held[id].claim.row, s.held[id].claim.key;
             key in s.table && s.table[key].attempt == row.attempt < c.policy.maxAttempts
    ensures DeferralsCounted(c, Apply(c, s, Finish(id, end)))
  {
    hide MovedTo;
  }

  lemma OtherStepKeepsCount(c: Config, s: Sys, e: Event)
    requires c.Usable() && DeferralsCounted(c, s) && Enabled(s, e) && (e.Finish? ==> e.end.Raised?)
    requires forall key :: key in s.deferrals ==> key in s.enrolled
    ensures DeferralsCounted(c, Apply(c, s, e))
  {
    hide MovedTo, Refreshed, Records, Removes, AfterProbe, Stored;
  }

  lemma TimelyStepKeepsCount(c: Config, s: Sys, e: Event)
    requires c.Usable() && Sound(c, s) && LiveClaimsMatch(s) && DeferralsCounted(c, s) && Enabled(s, e) && InTime(s, e)
    ensures DeferralsCounted(c, Apply(c, s, e))
  {
    hide Apply, DeferralsCounted, LiveAlone;
    if e.Finish? && !e.end.Raised? {
      assert Live(s, e.id);
      FinishKeepsCount(c, s, e.id, e.end);
    } else {
      OtherStepKeepsCount(c, s, e);
    }
  }

  lemma {:induction false} TimelyRunKeepsInv(c: Config, run: seq<Sys>, events: seq<Event>, i: nat)
    requires c.Usable() && IsRun(c, run, events) && Timely(run, events) && i < |run|
    ensures Sound(c, run[i]) && LiveClaimsMatch(run[i]) && RemovedOnce(run[i]) && DeferralsCounted(c, run[i])
  {
    hide Apply, Enabled, InTime;
    RunKeepsSound(c, run, events, i);
    if i > 0 {
      TimelyRunKeepsInv(c, run, events, i - 1);
      TimelyStepKeepsMatch(c, run[i - 1], events[i - 1]);
      TimelyStepKeepsRemoved(c, run[i - 1], events[i - 1]);
      TimelyStepKeepsCount(c, run[i - 1], events[i - 1]);
    }
  }

  /** With workers that finish inside their lease, a key sees at most `maxAttempts` deferred
      outcomes, each one uses up an attempt, and after the last of them the row is gone. */
  lemma DeferralsAreBounded(c: Config, run: seq<Sys>, events: seq<Event>, i: nat, key: Key)
    requires c.Usable() && IsRun(c, run, events) && Timely(run, events) && i < |run|
    ensures DeferralsOf(run[i], key) <= Max(0, c.policy.maxAttempts)
    ensures key in run[i].table ==> DeferralsOf(run[i], key) == run[i].table[key].attempt < c.policy.maxAttempts
  {
    TimelyRunKeepsInv(c, run, events, i);
  }

  // ---------------------------------------------------------------- exclusive claims

  /** At event `i`, a claim is taken on a key another worker still holds under an unexpired lease. */
  ghost predicate Overlaps(run: seq<Sys>, events: seq<Event>, i: nat) {
    i < |events| < |run| && events[i].Take? &&
    exists id :: Live(run[i], id) && run[i].held[id].claim.key == events[i].key
  }

  /** No two live claims on one key, as long as workers finish inside their lease. */
  lemma TimelyClaimsAreExclusive(c: Config, run: seq<Sys>, events: seq<Event>, i: nat)
    requires c.Usable() && IsRun(c, run, events) && Timely(run, events)
    ensures !Overlaps(run, events, i)
  {
    if i < |events| && events[i].Take? {
      TimelyRunKeepsInv(c, run, events, i);
      NobodyLiveOnDueRow(run[i], events[i].key);
    }
  }

  // A live claim's row, if still stored, is not due before the lease ends.
  ghost predicate LeasesHold(s: Sys) {
    forall id :: Live(s, id) && s.held[id].claim.key in s.table ==> s.table[s.held[id].claim.key].nextAt >= s.held[id].until
  }

  lemma SpacedStepKeepsLeases(c: Config, s: Sys, e: Event)
    requires c.Usable() && c.Spaced() && Sound(c, s) && LeasesHold(s) && Enabled(s, e)
    ensures LeasesHold(Apply(c, s, e))
  {
    var next := Apply(c, s, e);
    forall id | Live(next, id) && next.held[id].claim.key in next.table
      ensures next.table[next.held[id].claim.key].nextAt >= next.held[id].until
    {
      if id in s.held {
        assert Live(s, id);
      }
    }
  }

  lemma {:induction false} SpacedRunKeepsLeases(c: Config, run: seq<Sys>, events: seq<Event>, i: nat)
    requires c.Usable() && c.Spaced() && IsRun(c, run, events) && i < |run|
    ensures LeasesHold(run[i])
  {
    hide Apply, Enabled;
    if i > 0 {
      SpacedRunKeepsLeases(c, run, events, i - 1);
      RunKeepsSound(c, run, events, i - 1);
      SpacedStepKeepsLeases(c, run[i - 1], events[i - 1]);
    }
  }

  /** Whatever workers do, late ones included, claims never overlap. */
  ghost predicate AlwaysExclusive(c: Config)
    requires c.Usable()
  {
    forall run, events, i: nat :: IsRun(c, run, events) ==> !Overlaps(run, events, i)
  }

  lemma SpacedIsExclusive(c: Config)
    requires c.Usable() && c.Spaced()
    ensures AlwaysExclusive(c)
  {
    forall run, events, i: nat | IsRun(c, run, events)
      ensures !Overlaps(run, events, i)
    {
      if i < |events| {
        SpacedRunKeepsLeases(c, run, events, i);
      }
    }
  }

  // A run and one more enabled event.
  lemma Extended(c: Config, run: seq<Sys>, events: seq<Event>, e: Event)
    requires c.Usable() && IsRun(c, run, events) && Enabled(run[|events|], e)
    ensures IsRun(c, run + [Apply(c, run[|events|], e)], events + [e])
  {
  }

  /** The key is stored for its `a`-th retry, not due before now. */
  ghost predicate Quiet(s: Sys, key: Key, a: nat) {
    key in s.table && s.table[key].attempt == a && (forall id :: id in s.held ==> id < s.nextId) && s.now <= s.table[key].nextAt
  }

  const SOME_VERDICT := VerdictData("", Unknown, Greylisted, 70, None, None, None, false, false, false, false, true, None)

  // Deferral after deferral, each answered at once, brings a row to any attempt below the maximum.
  lemma {:induction false} ReachAttempt(c: Config, key: Key, a: nat) returns (run: seq<Sys>, events: seq<Event>)
    requires c.Usable() && a < c.policy.maxAttempts && forall b: nat :: b <= a ==> c.policy.NextDelay(b) >= 0
    ensures IsRun(c, run, events) && Quiet(run[|events|], key, a)
  {
    if a == 0 {
      events := [Enrol(key, "", 0)];
      run := [Initial(), Apply(c, Initial(), events[0])];
    } else {
      var before, done := ReachAttempt(c, key, a - 1);
      var s0 := before[|done|];
      run, events := ClaimWhenDue(c, before, done, key);
      var s2 := run[|events|];
      var defer := Finish(s0.nextId, Deferred(0, SOME_VERDICT));
      var s3 := Apply(c, s2, defer);
      Extended(c, run, events, defer);
      run, events := run + [s3], events + [defer];
    }
  }

  // Wait until a stored row is due and claim it.
  lemma ClaimWhenDue(c: Config, before: seq<Sys>, done: seq<Event>, key: Key) returns (run: seq<Sys>, events: seq<Event>)
    requires c.Usable() && IsRun(c, before, done) && key in before[|done|].table
    requires before[|done|].now <= before[|done|].table[key].nextAt
    ensures IsRun(c, run, events)
    ensures var s0, s := before[|done|], run[|events|];
            var row := s0.table[key];
            var until := row.nextAt + c.lease;
            && s.now == row.nextAt && s.nextId == s0.nextId + 1
            && s.table == s0.table[key := row.(nextAt := until)]
            && s.held == s0.held[s0.nextId := Held(Claim(key, row), until, Probing)]
  {
    var s0 := before[|done|];
    var wait, take := Advance(s0.table[key].nextAt), Take(key);
    var s1 := Apply(c, s0, wait);
    Extended(c, before, done, wait);
    Extended(c, before + [s1], done + [wait], take);
    run, events := before + [s1] + [Apply(c, s1, take)], done + [wait] + [take];
  }

  // The overlap: a worker answers after its lease, and the retry it schedules falls inside
  // the lease of the worker that had taken over.
  lemma LateAnswerOverlaps(c: Config, a: nat) returns (run: seq<Sys>, events: seq<Event>)
    requires c.Usable() && 1 <= a < c.policy.maxAttempts && c.policy.NextDelay(a) as real < c.lease
    requires forall b: nat :: b <= a ==> c.policy.NextDelay(b) >= 0
    ensures IsRun(c, run, events) && |events| > 0 && Overlaps(run, events, |events| - 1)
  {
    var key: Key := ("", "");
    var run0, events0 := ReachAttempt(c, key, a - 1);
    var s0 := run0[|events0|];
    var run1, events1 := ClaimWhenDue(c, run0, events0, key);
    var s1 := run1[|events1|];
    var run2, events2 := ClaimWhenDue(c, run1, events1, key);
    var s2 := run2[|events2|];
    assert s2.held[s0.nextId].claim.row.attempt == a - 1;
    var late := Finish(s0.nextId, Deferred(0, SOME_VERDICT));
    var s3 := Apply(c, s2, late);
    Extended(c, run2, events2, late);
    var run3, events3 := run2 + [s3], events2 + [late];
    assert s3.table[key].nextAt == s2.now + c.policy.NextDelay(a) as real;
    assert s3.held[s1.nextId].until == s2.now + c.lease && s3.held[s1.nextId].phase.Probing?;
    LateClaim(c, run3, events3, key, s1.nextId);
    run := run3 + [Apply(c, s3, Advance(s3.table[key].nextAt))];
    run := run + [Apply(c, run[|events3| + 1], Take(key))];
    events := events3 + [Advance(s3.table[key].nextAt), Take(key)];
  }

  lemma LateClaim(c: Config, run: seq<Sys>, events: seq<Event>, key: Key, id: nat)
    requires c.Usable() && IsRun(c, run, events)
    requires var s := run[|events|];
             key in s.table && s.now <= s.table[key].nextAt && id in s.held && s.held[id].claim.key == key &&
             s.held[id].phase.Probing? && s.table[key].nextAt < s.held[id].until
    ensures var s := run[|events|];
            var s1 := Apply(c, s, Advance(s.table[key].nextAt));
            var more := events + [Advance(s.table[key].nextAt), Take(key)];
            && Enabled(s1, Take(key))
            && IsRun(c, run + [s1] + [Apply(c, s1, Take(key))], more)
            && Overlaps(run + [s1] + [Apply(c, s1, Take(key))], more, |events| + 1)
  {
    var s := run[|events|];
    var wait := Advance(s.table[key].nextAt);
    var s1 := Apply(c, s, wait);
    Extended(c, run, events, wait);
    Extended(c, run + [s1], events + [wait], Take(key));
    assert events + [wait] + [Take(key)] == events + [wait, Take(key)];
    assert Live(s1, id);
  }

  /** Exclusive claims without any assumption on workers hold exactly when every retry delay
      after the first is at least the lease. */
  lemma ExclusiveExactlyWhenSpaced(c: Config)
    requires c.Usable() && forall b: nat :: b < c.policy.maxAttempts ==> c.policy.NextDelay(b) >= 0
    ensures AlwaysExclusive(c) <==> forall a: nat :: 1 <= a < c.policy.maxAttempts ==> c.policy.NextDelay(a) as real >= c.lease
  {
    if a: nat :| 1 <= a < c.policy.maxAttempts && (c.policy.NextDelay(a) as real) < c.lease {
      var run, events := LateAnswerOverlaps(c, a);
    } else {
      SpacedIsExclusive(c);
    }
  }

  // ---------------------------------------------------------------- verdicts in the address table

  /** A retry's verdict is stored under the address it verified. */
  predicate OnItsAddress(s: Sys, e: Event) {
    e.Finish? && !e.end.Raised? && e.id in s.held ==>
      Addresses.FromVerdict(e.end.verdict, "").email == s.held[e.id].claim.key.1
  }

  ghost predicate Canonical(run: seq<Sys>, events: seq<Event>) {
    |run| > |events| && forall i :: 0 <= i < |events| ==> OnItsAddress(run[i], events[i])
  }

  ghost predicate VerdictsOnAddress(s: Sys) {
    forall id, key :: Removed(s, id, key) ==> Addresses.FromVerdict(s.held[id].phase.verdict, "").email == key.1
  }

  /** Address rows written by retries are exactly those of the claims that got that far. */
  ghost predicate EntriesMatch(s: Sys) {
    && (forall key :: key in s.addresses && s.addresses[key].writer.Some? ==>
          var id := s.addresses[key].writer.value;
          Removed(s, id, key) && s.held[id].phase == Updated(s.addresses[key].record.verdict))
    && (forall id, key :: Removed(s, id, key) && s.held[id].phase.Updated? ==> StoredByRetry(s, key))
  }

  ghost predicate RemovedByClaim(c: Config, s: Sys)
    requires c.Usable()
  {
    c.policy.NextDelay(0) >= 0 ==> forall key :: key in s.enrolled && key !in s.table ==> exists id :: Removed(s, id, key)
  }

  /** The address row holds the verdict of a retry. */
  predicate StoredByRetry(s: Sys, key: Key) {
    key in s.addresses && s.addresses[key].writer.Some?
  }

  lemma StepKeepsVerdicts(c: Config, s: Sys, e: Event)
    requires c.Usable() && VerdictsOnAddress(s) && Enabled(s, e) && OnItsAddress(s, e)
    requires forall id :: id in s.held ==> id < s.nextId
    ensures VerdictsOnAddress(Apply(c, s, e))
  {
    var next := Apply(c, s, e);
    forall id, key | Removed(next, id, key)
      ensures Addresses.FromVerdict(next.held[id].phase.verdict, "").email == key.1
    {
      assert Removed(s, id, key) || (e.Finish? && e.id == id);
    }
  }

  // A removed claim never goes back.
  lemma StepKeepsRemovals(c: Config, s: Sys, e: Event, id: nat, key: Key)
    requires c.Usable() && Enabled(s, e) && Removed(s, id, key) && id < s.nextId
    ensures Removed(Apply(c, s, e), id, key)
    ensures s.held[id].phase.Updated? ==> Apply(c, s, e).held[id] == s.held[id]
  {
  }

  lemma StepKeepsEntries(c: Config, s: Sys, e: Event)
    requires c.Usable() && Sound(c, s) && VerdictsOnAddress(s) && EntriesMatch(s) && Enabled(s, e)
    ensures EntriesMatch(Apply(c, s, e))
  {
    hide Sound, Stored, AfterProbe, Removes;
    var next := Apply(c, s, e);
    SoundIds(c, s);
    if e.Update? {
      assert Removed(s, e.id, s.held[e.id].claim.key);
    }
    forall key | StoredByRetry(next, key)
      ensures var id := next.addresses[key].writer.value;
              Removed(next, id, key) && next.held[id].phase == Updated(next.addresses[key].record.verdict)
    {
      var id := next.addresses[key].writer.value;
      if StoredByRetry(s, key) && next.addresses[key] == s.addresses[key] {
        StepKeepsRemovals(c, s, e, id, key);
      }
    }
    forall id, key | Removed(next, id, key) && next.held[id].phase.Updated?
      ensures StoredByRetry(next, key)
    {
      if Removed(s, id, key) && s.held[id].phase.Updated? {
        assert StoredByRetry(s, key);
      }
    }
  }

  lemma SoundIds(c: Config, s: Sys)
    requires Sound(c, s)
    ensures forall id :: id in s.held ==> id < s.nextId && s.held[id].claim.key in s.enrolled
  {
  }

  lemma StepKeepsRemovers(c: Config, s: Sys, e: Event)
    requires c.Usable() && Sound(c, s) && RemovedByClaim(c, s) && Enabled(s, e)
    ensures RemovedByClaim(c, Apply(c, s, e))
  {
    var next := Apply(c, s, e);
    if c.policy.NextDelay(0) >= 0 {
      forall key | key in next.enrolled && key !in next.table
        ensures exists id :: Removed(next, id, key)
      {
        if key in s.enrolled && key !in s.table {
          var id :| Removed(s, id, key);
          StepKeepsRemovals(c, s, e, id, key);
        } else {
          assert Removed(next, e.id, key);
        }
      }
    }
  }

  lemma {:induction false} RunKeepsAddresses(c: Config, run: seq<Sys>, events: seq<Event>, i: nat)
    requires c.Usable() && IsRun(c, run, events) && Canonical(run, events) && i < |run|
    ensures Sound(c, run[i]) && VerdictsOnAddress(run[i]) && EntriesMatch(run[i]) && RemovedByClaim(c, run[i])
  {
    hide Apply, Enabled, OnItsAddress;
    RunKeepsSound(c, run, events, i);
    if i > 0 {
      RunKeepsAddresses(c, run, events, i - 1);
      SoundIds(c, run[i - 1]);
      StepKeepsVerdicts(c, run[i - 1], events[i - 1]);
      StepKeepsEntries(c, run[i - 1], events[i - 1]);
      StepKeepsRemovers(c, run[i - 1], events[i - 1]);
    }
  }

  /** A settling retry of the store is the drop followed by the update, or by its failure. */
  lemma RetryIsTwoSteps(c: Config, s: Sys, id: nat, end: ProbeEnd)
    requires c.Usable() && Enabled(s, Finish(id, end)) && Removes(c.policy, s.held[id].claim, end)
    ensures var claim, dropped := s.held[id].claim, Apply(c, s, Finish(id, end));
            && dropped.table == Stored(s.table, claim.key, None) && Records(dropped) == Records(s)
            && Enabled(dropped, Update(id)) && Enabled(dropped, Fail(id))
            && Records(Apply(c, dropped, Update(id))) == AfterUpdate(Records(s), c.policy, claim, end, true)
            && Records(Apply(c, dropped, Fail(id))) == AfterUpdate(Records(s), c.policy, claim, end, false)
  {
    hide Refreshed;
  }

  /** No claim stands between its drop and its update. */
  ghost predicate NoneBetween(s: Sys, key: Key) {
    forall id :: Removed(s, id, key) ==> !s.held[id].phase.Dropped?
  }

  /** In any run, late workers included, a removed row has been removed by some claim, and the
      address row holds a retry's verdict exactly unless every such claim ended between its
      drop and its update. */
  lemma MissingExactlyWhenAllLost(c: Config, run: seq<Sys>, events: seq<Event>, i: nat, key: Key)
    requires c.Usable() && IsRun(c, run, events) && Canonical(run, events) && i < |run| && c.policy.NextDelay(0) >= 0
    requires key in run[i].enrolled && key !in run[i].table && NoneBetween(run[i], key)
    ensures exists id :: Removed(run[i], id, key)
    ensures !StoredByRetry(run[i], key) <==> forall id :: Removed(run[i], id, key) ==> run[i].held[id].phase.Lost?
  {
    hide IsRun, Canonical;
    RunKeepsAddresses(c, run, events, i);
    var s := run[i];
    if StoredByRetry(s, key) {
      var id := s.addresses[key].writer.value;
      assert Removed(s, id, key) && s.held[id].phase.Updated?;
    }
  }

  /** With workers that finish inside their lease, exactly one claim removes a row, and that
      claim's verdict is in the address table if and only if no claim on the key ended between
      its drop and its update. */
  lemma RemovedVerdictIsStored(c: Config, run: seq<Sys>, events: seq<Event>, i: nat, key: Key) returns (id: nat)
    requires c.Usable() && IsRun(c, run, events) && Timely(run, events) && Canonical(run, events) && i < |run|
    requires c.policy.NextDelay(0) >= 0
    requires key in run[i].enrolled && key !in run[i].table && NoneBetween(run[i], key)
    ensures Removed(run[i], id, key) && forall other :: Removed(run[i], other, key) ==> other == id
    ensures (key in run[i].addresses && run[i].addresses[key].writer == Some(id) &&
             run[i].addresses[key].record.verdict == run[i].held[id].phase.verdict) <==>
            forall other :: Removed(run[i], other, key) ==> !run[i].held[other].phase.Lost?
  {
    hide IsRun, Canonical, Timely;
    RunKeepsAddresses(c, run, events, i);
    TimelyRunKeepsInv(c, run, events, i);
    MissingExactlyWhenAllLost(c, run, events, i, key);
    id :| Removed(run[i], id, key);
  }

  /** The bad case happens: a raise or crash right after the drop, and the answer is in
      neither table. */
  lemma AnswerCanBeLost(c: Config, key: Key, verdict: VerdictData) returns (run: seq<Sys>, events: seq<Event>)
    requires c.Usable() && c.policy.NextDelay(0) >= 0 && Addresses.FromVerdict(verdict, "").email == key.1
    ensures IsRun(c, run, events) && Timely(run, events) && Canonical(run, events)
    ensures var last := run[|events|];
            key in last.enrolled && key !in last.table && NoneBetween(last, key) && !StoredByRetry(last, key)
  {
    hide Refreshed, Records;
    var enrol := Enrol(key, "", 0);
    var s1 := Apply(c, Initial(), enrol);
    var due := s1.table[key].nextAt;
    var s2 := Apply(c, s1, Advance(due));
    var s3 := Apply(c, s2, Take(key));
    var finish := Finish(0, Cleared(verdict));
    var s4 := Apply(c, s3, finish);
    var s5 := Apply(c, s4, Fail(0));
    run := [Initial(), s1, s2, s3, s4, s5];
    events := [enrol, Advance(due), Take(key), finish, Fail(0)];
  }

  // ---------------------------------------------------------------- the store's claim as events

  /** Taking each claimed row in turn. */
  ghost function TakeAll(c: Config, s: Sys, claimed: seq<Claim>): Sys
    requires c.Usable()
  {
    if claimed == [] then s
    else
      var before := TakeAll(c, s, claimed[..|claimed| - 1]);
      var e := Take(claimed[|claimed| - 1].key);
      if Enabled(before, e) then Apply(c, before, e) else before
  }

  /** One batched claim of the store is a succession of enabled single claims. */
  lemma {:induction false} BatchClaimIsSingleClaims(c: Config, s: Sys, limit: nat, claimed: seq<Claim>, n: nat)
    requires c.Usable() && IsClaim(s.table, limit, s.now, claimed) && n <= |claimed|
    ensures TakeAll(c, s, claimed[..n]).table == Leased(s.table, claimed[..n], s.now + c.lease)
    ensures TakeAll(c, s, claimed[..n]).now == s.now
    ensures n < |claimed| ==> Enabled(TakeAll(c, s, claimed[..n]), Take(claimed[n].key))
    decreases n
  {
    hide IsClaim, Leased;
    if n > 0 {
      BatchClaimIsSingleClaims(c, s, limit, claimed, n - 1);
      LeaseNext(s.table, limit, s.now, claimed, n - 1, s.now + c.lease);
      assert claimed[..n][..n - 1] == claimed[..n - 1];
    } else {
      LeasedNone(s.table, s.now + c.lease);
    }
    if n < |claimed| {
      StillDue(s.table, limit, s.now, claimed, n, s.now + c.lease);
    }
  }
}
