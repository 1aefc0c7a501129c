// The durable queue of deferred re-probes (src/eve/reprobe.py, src/eve/smtp_infra/greylist.py):
// scheduling, leased claims, and one sweep over the rows that are due. A retry that settles
// an address drops its row and only then writes the address table, in two transactions.

module Reprobe {
  import opened Common
  import opened Verdicts
  import Addresses = Addresses

  // ---------------------------------------------------------------- retry policy

  datatype Policy = Policy(maxAttempts: int, delays: seq<int>) {
    predicate Usable() {
      delays != []
    }

    /** Seconds before the next retry; negative means give up. */
    function NextDelay(attempt: nat): int
      requires Usable()
    {
      if attempt >= maxAttempts then -1 else delays[Min(attempt, |delays| - 1)]
    }
  }

  // ---------------------------------------------------------------- the table

  type Key = (string, string)   // workspace, address

  datatype Row = Row(jobId: string, attempt: nat, nextAt: real, firstDeferredAt: real, lastCode: int)

  datatype Claim = Claim(key: Key, row: Row)

  type Table = map<Key, Row>

  function Lookup<R>(t: map<Key, R>, key: Key): Option<R> {
    if key in t then Some(t[key]) else None
  }

  /** What scheduling attempt number `attempt` at `now` leaves under a key; `None` when the
      attempts ran out and nothing is written. */
  function Scheduled(policy: Policy, jobId: string, attempt: nat, lastCode: int, now: real): Option<Row>
    requires policy.Usable()
  {
    var delay := policy.NextDelay(attempt);
    if delay < 0 then None else Some(Row(jobId, attempt, now + delay as real, now, lastCode))
  }

  /** Attempt `a` waits for its own delay, the last one standing for all later; attempts beyond
      the maximum, or with a negative delay, are not scheduled. */
  lemma ScheduleFollowsDelays(policy: Policy, jobId: string, a: nat, code: int, now: real)
    requires policy.Usable()
    ensures var d := if a < |policy.delays| then policy.delays[a] else policy.delays[|policy.delays| - 1];
            Scheduled(policy, jobId, a, code, now) ==
            if a < policy.maxAttempts && d >= 0 then Some(Row(jobId, a, now + d as real, now, code)) else None
  {
  }

  // ---------------------------------------------------------------- the outcome of one retry

  /** `Raised` is a raise before the row is touched. */
  datatype ProbeEnd = Deferred(code: int, verdict: VerdictData) | Cleared(verdict: VerdictData) | Raised

  const GREYLISTED_DETAIL := "greylisted"

  /** How a retry ends, from the verdict it came to; `None` when verifying raised. */
  function EndOf(v: Option<VerdictData>): ProbeEnd {
    match v
    case None => Raised
    case Some(v) =>
      if v.smtp.Some? && Contains(v.smtp.value.detail, GREYLISTED_DETAIL) then Deferred(v.smtp.value.code, v) else Cleared(v)
  }

  datatype Settled = Resolved | Retried | Exhausted | Failed

  datatype Tally = Tally(claimed: nat, resolved: nat, retried: nat, exhausted: nat, failed: nat) {
    function Settlements(): nat {
      resolved + retried + exhausted + failed
    }

    function Add(r: Settled): (t: Tally)
      ensures t.claimed == claimed && t.Settlements() == Settlements() + 1
      ensures t.resolved == resolved + if r == Resolved then 1 else 0
      ensures t.retried == retried + if r == Retried then 1 else 0
      ensures t.exhausted == exhausted + if r == Exhausted then 1 else 0
      ensures t.failed == failed + if r == Failed then 1 else 0
    {
      match r
      case Resolved => this.(resolved := resolved + 1)
      case Retried => this.(retried := retried + 1)
      case Exhausted => this.(exhausted := exhausted + 1)
      case Failed => this.(failed := failed + 1)
    }
  }

  /** The retry was answered, or deferred with no attempt left. */
  predicate Removes(policy: Policy, c: Claim, end: ProbeEnd)
    requires policy.Usable()
  {
    end.Cleared? || (end.Deferred? && policy.NextDelay(c.row.attempt + 1) < 0)
  }

  /** The row left behind by a claim whose probe ended at `now`. */
  function AfterProbe(policy: Policy, c: Claim, end: ProbeEnd, leasedUntil: real, now: real): Option<Row>
    requires policy.Usable()
  {
    match end
    case Raised => Some(c.row.(nextAt := leasedUntil))
    case Cleared(_) => None
    case Deferred(code, _) => Scheduled(policy, c.row.jobId, c.row.attempt + 1, code, now)
  }

  // ---------------------------------------------------------------- what a verdict means for its row

  /** The server deferred the retry as well. */
  predicate StillGreylisted(v: Option<VerdictData>) {
    v.Some? && v.value.smtp.Some? && Contains(v.value.smtp.value.detail, "greylisted")
  }

  /** The delay before the attempt after this claim's. */
  function DelayAfter(policy: Policy, c: Claim): int
    requires policy.Usable()
  {
    policy.delays[Min(c.row.attempt + 1, |policy.delays| - 1)]
  }

  predicate AttemptLeft(policy: Policy, c: Claim)
    requires policy.Usable()
  {
    c.row.attempt + 1 < policy.maxAttempts && DelayAfter(policy, c) >= 0
  }

  /** The row a claim leaves behind when its retry came to `v` at `now`: unchanged but leased if
      verifying raised, moved on by one attempt if the server deferred again and an attempt is
      left, and gone otherwise. */
  function RowFor(policy: Policy, c: Claim, v: Option<VerdictData>, leasedUntil: real, now: real): Option<Row>
    requires policy.Usable()
  {
    if v.None? then Some(c.row.(nextAt := leasedUntil))
    else if StillGreylisted(v) && AttemptLeft(policy, c)
    then Some(Row(c.row.jobId, c.row.attempt + 1, now + DelayAfter(policy, c) as real, now, v.value.smtp.value.code))
    else None
  }

  function ResultFor(policy: Policy, c: Claim, v: Option<VerdictData>, updates: bool): Settled
    requires policy.Usable()
  {
    if v.None? then Failed
    else if StillGreylisted(v) && AttemptLeft(policy, c) then Retried
    else if !updates then Failed
    else if StillGreylisted(v) then Exhausted
    else Resolved
  }

  function CountOf(claimed: seq<Claim>, policy: Policy, probe: Key -> Option<VerdictData>, updates: Key -> bool, r: Settled): nat
    requires policy.Usable()
  {
    if claimed == [] then 0
    else
      var n := |claimed| - 1;
      var c := claimed[n];
      CountOf(claimed[..n], policy, probe, updates, r) + if ResultFor(policy, c, probe(c.key), updates(c.key)) == r then 1 else 0
  }

  lemma VerdictDecides(policy: Policy, c: Claim, v: Option<VerdictData>, updates: bool, leasedUntil: real, now: real)
    requires policy.Usable()
    ensures AfterProbe(policy, c, EndOf(v), leasedUntil, now) == RowFor(policy, c, v, leasedUntil, now)
    ensures ResultOf(policy, c, EndOf(v), updates) == ResultFor(policy, c, v, updates)
  {
    hide Contains;
  }

  // ---------------------------------------------------------------- the address row

  type AddressTable = map<Key, Addresses.Record>

  /** A retry's verdict as an address row, which stays attributed to the job that first
      validated the address. */
  function Refreshed(t: AddressTable, key: Key, v: VerdictData, jobId: string): Addresses.Record {
    Addresses.FromVerdict(v, if key in t && t[key].jobId != "" then t[key].jobId else jobId)
  }

  function FoldedIn(t: AddressTable, key: Key, v: VerdictData, jobId: string): AddressTable {
    var r := Refreshed(t, key, v, jobId);
    t[(key.0, r.email) := r]
  }

  /** Folding a verdict in keeps the job the address is attributed to, takes the retry's where
      there is none, and touches no other address. */
  lemma FoldKeepsAttribution(t: AddressTable, key: Key, v: VerdictData, jobId: string, other: Key)
    requires Addresses.FromVerdict(v, "").email == key.1
    ensures var after := FoldedIn(t, key, v, jobId);
            && key in after && after[key].verdict == v && after[key].email == key.1
            && after[key].jobId == (if key in t && t[key].jobId != "" then t[key].jobId else jobId)
            && (other != key ==> Lookup(after, other) == Lookup(t, other))
  {
  }

  /** The address table after one retry; `updates` tells whether its address write went through. */
  function AfterUpdate(t: AddressTable, policy: Policy, c: Claim, end: ProbeEnd, updates: bool): AddressTable
    requires policy.Usable()
  {
    if Removes(policy, c, end) && updates then FoldedIn(t, c.key, end.verdict, c.row.jobId) else t
  }

  method UpdateAddress(addresses: Addresses.AddressStore, key: Key, v: VerdictData, jobId: string)
    modifies addresses
    ensures addresses.table == FoldedIn(old(addresses.table), key, v, jobId)
  {
    var attributed := jobId;
    if key in addresses.table && addresses.table[key].jobId != "" {
      attributed := addresses.table[key].jobId;
    }
    var record := Addresses.FromVerdict(v, attributed);
    OneRowTable(addresses.table, key.0, record);
    var ok := addresses.UpsertMany([record], key.0);
  }

  lemma OneRowTable(t: AddressTable, ws: string, r: Addresses.Record)
    ensures Addresses.Distinct([r]) && t + Addresses.AsTable(ws, [r]) == t[(ws, r.email) := r]
  {
    assert [r][..0] == [];
  }

  class ReprobeStore {
    var table: Table

    constructor ()
      ensures Valid() && table == map[]
    {
      table := map[];
    }

    /** Addresses are stored lower-cased. */
    ghost predicate Valid()
      reads this
    {
      forall key :: key in table ==> Lower(key.1) == key.1
    }

    method Schedule(email: string, ws: string, jobId: string, attempt: nat, lastCode: int, policy: Policy, now: real)
      returns (due: Option<real>)
      requires Valid() && policy.Usable()
      modifies this
      ensures Valid()
      ensures var row := Scheduled(policy, jobId, attempt, lastCode, now); var key := (ws, Lower(email));
              if row.None? then due.None? && table == old(table)
              else due == Some(row.value.nextAt) && table == old(table)[key := row.value]
    {
      var delay := policy.NextDelay(attempt);
      if delay < 0 {
        return None;
      }
      LowerTwice(email);
      var key := (ws, Lower(email));
      var row := Row(jobId, attempt, now + delay as real, now, lastCode);
      table := table - {key};
      table := table[key := row];
      due := Some(row.nextAt);
    }

    method Drop(email: string, ws: string)
      requires Valid()
      modifies this
      ensures Valid() && table == old(table) - {(ws, Lower(email))}
    {
      table := table - {(ws, Lower(email))};
    }

    /** Up to `limit` due rows, earliest first: the query of a claim. */
    method SelectDue(limit: nat, now: real) returns (claimed: seq<Claim>)
      ensures IsClaim(table, limit, now, claimed)
    {
      var due := DueKeys(table, now);
      claimed := [];
      while |claimed| < limit && due != {}
        invariant Picking(table, limit, now, claimed, due)
        decreases due
      {
        EarliestExists(table, due);
        var key :| key in due && forall o :: o in due ==> table[key].nextAt <= table[o].nextAt;
        PickOne(table, limit, now, claimed, due, key);
        claimed := claimed + [Claim(key, table[key])];
        due := due - {key};
      }
      PickedEnough(table, limit, now, claimed, due);
    }

    /** Takes due rows and pushes each to the end of its lease. */
    method ClaimDue(limit: nat, lease: real, now: real) returns (claimed: seq<Claim>)
      requires Valid()
      modifies this
      ensures Valid() && IsClaim(old(table), limit, now, claimed)
      ensures table == Leased(old(table), claimed, now + lease)
    {
      hide IsClaim, Leased;
      claimed := SelectDue(limit, now);
      ghost var before := table;
      ghost var until := now + lease;
      LeasedNone(before, until);
      var n := 0;
      while n < |claimed|
        invariant n <= |claimed| && table == Leased(before, claimed[..n], until)
      {
        LeaseNext(before, limit, now, claimed, n, until);
        var key := claimed[n].key;
        table := table[key := table[key].(nextAt := now + lease)];
        n := n + 1;
      }
      assert claimed[..n] == claimed;
      LeasedKeys(before, claimed, until);
    }

    /** Acts on how one claimed row's retry ended. A failure of the address update comes after
        the drop, so it leaves neither the row nor the verdict. */
    method ReprobeOne(c: Claim, end: ProbeEnd, updates: bool, policy: Policy, leasedUntil: real, now: real,
                      addresses: Addresses.AddressStore)
      returns (result: Settled)
      requires Valid() && policy.Usable() && Lower(c.key.1) == c.key.1
      requires Lookup(table, c.key) == Some(c.row.(nextAt := leasedUntil))
      modifies this, addresses
      ensures Valid()
      ensures table == Stored(old(table), c.key, AfterProbe(policy, c, end, leasedUntil, now))
      ensures addresses.table == AfterUpdate(old(addresses.table), policy, c, end, updates)
      ensures result == ResultOf(policy, c, end, updates)
      ensures c.key !in table <==> Removes(policy, c, end)
      ensures result == Failed <==> end.Raised? || (c.key !in table && !updates)
    {
      match end {
        case Raised =>
          result := Failed;
          assert table == table[c.key := table[c.key]];
        case Cleared(v) =>
          Drop(c.key.1, c.key.0);
          if !updates {
            return Failed;
          }
          UpdateAddress(addresses, c.key, v, c.row.jobId);
          result := Resolved;
        case Deferred(code, v) =>
          var due := Schedule(c.key.1, c.key.0, c.row.jobId, c.row.attempt + 1, code, policy, now);
          if due.Some? {
            return Retried;
          }
          Drop(c.key.1, c.key.0);
          if !updates {
            return Failed;
          }
          UpdateAddress(addresses, c.key, v, c.row.jobId);
          result := Exhausted;
      }
    }

    /** One sweep. `probe` is the verdict each claimed address comes to (`None`: verifying
        raised), `updates` which address writes go through, and `clock(k)` the time the `k`-th
        retry ends; a failing retry does not stop the others. */
    method RunDueReprobes(limit: nat, lease: real, policy: Policy, now: real, probe: Key -> Option<VerdictData>,
                          updates: Key -> bool, clock: nat -> real, addresses: Addresses.AddressStore)
      returns (tally: Tally, ghost claimed: seq<Claim>)
      requires Valid() && policy.Usable()
      modifies this, addresses
      ensures Valid() && IsClaim(old(table), limit, now, claimed)
      ensures tally.claimed == |claimed| == tally.Settlements()
      ensures tally.resolved == CountOf(claimed, policy, probe, updates, Resolved)
      ensures tally.retried == CountOf(claimed, policy, probe, updates, Retried)
      ensures tally.exhausted == CountOf(claimed, policy, probe, updates, Exhausted)
      ensures tally.failed == CountOf(claimed, policy, probe, updates, Failed)
      ensures tally.failed == Raises(claimed, probe) + Losses(claimed, policy, probe, updates)
      ensures forall k: nat :: k < |claimed| ==>
                Lookup(table, claimed[k].key) == RowFor(policy, claimed[k], probe(claimed[k].key), now + lease, clock(k))
      ensures Swept(old(table), table, claimed, policy, probe, now + lease, clock, |claimed|)
      ensures addresses.table == AfterUpdates(old(addresses.table), claimed, policy, probe, updates)
    {
      hide AfterProbe, Leased, IsClaim, Stored, Swept, ResultOf, EndOf, Removes, AfterUpdate, SweptTo, AfterUpdates, Raises, Losses, CountOf,
        RowFor, ResultFor;
      ghost var before, addressesBefore := table, addresses.table;
      ghost var until := now + lease;
      var rows := ClaimDue(limit, lease, now);
      claimed := rows;
      ClaimedAreStored(before, limit, now, rows, until);
      SweepStart(before, limit, now, rows, policy, probe, until, clock);
      tally := Tally(|rows|, 0, 0, 0, 0);
      NothingSwept(before, addressesBefore, table, rows, policy, probe, updates, until, clock, tally);
      var n: nat := 0;
      while n < |rows|
        invariant n <= |rows| && Valid()
        invariant SweptTo(before, addressesBefore, table, addresses.table, rows, policy, probe, updates, until, clock, n, tally)
      {
        var c := rows[n];
        OneMoreSwept(before, addressesBefore, table, addresses.table, rows, policy, probe, updates, until, clock, n, tally);
        var result := ReprobeOne(c, EndOf(probe(c.key)), updates(c.key), policy, now + lease, clock(n), addresses);
        tally := tally.Add(result);
        n := n + 1;
      }
      AllSwept(before, addressesBefore, table, addresses.table, rows, policy, probe, updates, until, clock, tally);
    }
  }

  /** After the first `n` probes of a sweep: their rows are as the probe left them, the other
      claimed rows are leased, and everything else is as before. */
  ghost predicate Swept(before: Table, t: Table, rows: seq<Claim>, policy: Policy, probe: Key -> Option<VerdictData>,
                        until: real, clock: nat -> real, n: nat)
    requires policy.Usable()
  {
    && (forall k: nat :: k < |rows| ==>
          Lookup(t, rows[k].key) ==
          if k < n then AfterProbe(policy, rows[k], EndOf(probe(rows[k].key)), until, clock(k))
          else Some(rows[k].row.(nextAt := until)))
    && (forall key :: (forall c :: c in rows ==> c.key != key) ==> Lookup(t, key) == Lookup(before, key))
  }

  lemma SweepStart(before: Table, limit: nat, now: real, rows: seq<Claim>, policy: Policy, probe: Key -> Option<VerdictData>,
                   until: real, clock: nat -> real)
    requires policy.Usable() && IsClaim(before, limit, now, rows)
    ensures Swept(before, Leased(before, rows, until), rows, policy, probe, until, clock, 0)
  {
    hide AfterProbe, Leased, IsClaim, EndOf;
    ClaimedAreStored(before, limit, now, rows, until);
    LeasedKeys(before, rows, until);
  }

  lemma SweepStep(before: Table, t: Table, rows: seq<Claim>, policy: Policy, probe: Key -> Option<VerdictData>,
                  until: real, clock: nat -> real, n: nat)
    requires policy.Usable() && n < |rows| && DistinctKeys(rows) && Swept(before, t, rows, policy, probe, until, clock, n)
    ensures Lookup(t, rows[n].key) == Some(rows[n].row.(nextAt := until))
    ensures var after := Stored(t, rows[n].key, AfterProbe(policy, rows[n], EndOf(probe(rows[n].key)), until, clock(n)));
            Swept(before, after, rows, policy, probe, until, clock, n + 1)
  {
    hide AfterProbe, EndOf;
    assert rows[n] in rows;
  }

  function ResultOf(policy: Policy, c: Claim, end: ProbeEnd, updates: bool): Settled
    requires policy.Usable()
  {
    match end
    case Raised => Failed
    case Cleared(_) => if updates then Resolved else Failed
    case Deferred(_, _) => if !Removes(policy, c, end) then Retried else if updates then Exhausted else Failed
  }

  /** The table with what is now under one key. */
  function Stored(t: Table, key: Key, row: Option<Row>): Table {
    if row.Some? then t[key := row.value] else t - {key}
  }

  /** Claims whose verification raised: their rows stay. */
  function Raises(claimed: seq<Claim>, probe: Key -> Option<VerdictData>): nat {
    if claimed == [] then 0
    else Raises(claimed[..|claimed| - 1], probe) + if probe(claimed[|claimed| - 1].key).None? then 1 else 0
  }

  /** The claim drops its row and its address write fails. */
  predicate Loses(policy: Policy, c: Claim, probe: Key -> Option<VerdictData>, updates: Key -> bool)
    requires policy.Usable()
  {
    Removes(policy, c, EndOf(probe(c.key))) && !updates(c.key)
  }

  /** Claims that lost both row and verdict. */
  function Losses(claimed: seq<Claim>, policy: Policy, probe: Key -> Option<VerdictData>, updates: Key -> bool): nat
    requires policy.Usable()
  {
    if claimed == [] then 0
    else
      var n := |claimed| - 1;
      Losses(claimed[..n], policy, probe, updates) + if Loses(policy, claimed[n], probe, updates) then 1 else 0
  }

  function AfterUpdates(t: AddressTable, claimed: seq<Claim>, policy: Policy, probe: Key -> Option<VerdictData>,
                        updates: Key -> bool): AddressTable
    requires policy.Usable()
  {
    if claimed == [] then t
    else
      var n := |claimed| - 1;
      var c := claimed[n];
      AfterUpdate(AfterUpdates(t, claimed[..n], policy, probe, updates), policy, c, EndOf(probe(c.key)), updates(c.key))
  }

  /** Where a sweep stands after its first `n` claims: queue, address table and tally. */
  ghost predicate SweptTo(before: Table, addressesBefore: AddressTable, t: Table, addresses: AddressTable, rows: seq<Claim>,
                          policy: Policy, probe: Key -> Option<VerdictData>, updates: Key -> bool, until: real,
                          clock: nat -> real, n: nat, tally: Tally)
    requires policy.Usable() && n <= |rows|
  {
    && Swept(before, t, rows, policy, probe, until, clock, n)
    && addresses == AfterUpdates(addressesBefore, rows[..n], policy, probe, updates)
    && tally.claimed == |rows| && tally.Settlements() == n
    && tally.failed == Raises(rows[..n], probe) + Losses(rows[..n], policy, probe, updates)
    && tally.resolved == CountOf(rows[..n], policy, probe, updates, Resolved)
    && tally.retried == CountOf(rows[..n], policy, probe, updates, Retried)
    && tally.exhausted == CountOf(rows[..n], policy, probe, updates, Exhausted)
    && tally.failed == CountOf(rows[..n], policy, probe, updates, Failed)
  }

  lemma NothingSwept(before: Table, addresses: AddressTable, t: Table, rows: seq<Claim>, policy: Policy,
                     probe: Key -> Option<VerdictData>, updates: Key -> bool, until: real, clock: nat -> real, tally: Tally)
    requires policy.Usable() && tally == Tally(|rows|, 0, 0, 0, 0)
    requires Swept(before, t, rows, policy, probe, until, clock, 0)
    ensures SweptTo(before, addresses, t, addresses, rows, policy, probe, updates, until, clock, 0, tally)
  {
    hide Swept;
  }

  lemma OneMoreSwept(before: Table, addressesBefore: AddressTable, t: Table, addresses: AddressTable, rows: seq<Claim>,
                     policy: Policy, probe: Key -> Option<VerdictData>, updates: Key -> bool, until: real,
                     clock: nat -> real, n: nat, tally: Tally)
    requires policy.Usable() && n < |rows| && DistinctKeys(rows)
    requires SweptTo(before, addressesBefore, t, addresses, rows, policy, probe, updates, until, clock, n, tally)
    ensures var c := rows[n]; var end := EndOf(probe(c.key));
            && Lookup(t, c.key) == Some(c.row.(nextAt := until))
            && SweptTo(before, addressesBefore, Stored(t, c.key, AfterProbe(policy, c, end, until, clock(n))),
                       AfterUpdate(addresses, policy, c, end, updates(c.key)), rows, policy, probe, updates, until, clock,
                       n + 1, tally.Add(ResultOf(policy, c, end, updates(c.key))))
  {
    hide Swept, AfterProbe, Stored, ResultOf, EndOf, AfterUpdate, AfterUpdates, Raises, Losses, CountOf, ResultFor, RowFor;
    VerdictDecides(policy, rows[n], probe(rows[n].key), updates(rows[n].key), until, clock(n));
    CountGrows(rows, n, policy, probe, updates);
    SweepStep(before, t, rows, policy, probe, until, clock, n);
    CountStep(rows, n, policy, probe, updates);
    UpdatesStep(addressesBefore, rows, n, policy, probe, updates);
  }

  lemma AllSwept(before: Table, addressesBefore: AddressTable, t: Table, addresses: AddressTable, rows: seq<Claim>,
                 policy: Policy, probe: Key -> Option<VerdictData>, updates: Key -> bool, until: real,
                 clock: nat -> real, tally: Tally)
    requires policy.Usable() && SweptTo(before, addressesBefore, t, addresses, rows, policy, probe, updates, until, clock, |rows|, tally)
    ensures Swept(before, t, rows, policy, probe, until, clock, |rows|)
    ensures addresses == AfterUpdates(addressesBefore, rows, policy, probe, updates)
    ensures tally.claimed == |rows| == tally.Settlements()
    ensures tally.failed == Raises(rows, probe) + Losses(rows, policy, probe, updates)
    ensures tally.resolved == CountOf(rows, policy, probe, updates, Resolved)
    ensures tally.retried == CountOf(rows, policy, probe, updates, Retried)
    ensures tally.exhausted == CountOf(rows, policy, probe, updates, Exhausted)
    ensures tally.failed == CountOf(rows, policy, probe, updates, Failed)
    ensures forall k: nat :: k < |rows| ==> Lookup(t, rows[k].key) == RowFor(policy, rows[k], probe(rows[k].key), until, clock(k))
  {
    hide AfterUpdates, Raises, Losses, CountOf, AfterProbe, EndOf, RowFor, ResultOf, ResultFor;
    assert rows[..|rows|] == rows;
    forall k: nat | k < |rows|
      ensures Lookup(t, rows[k].key) == RowFor(policy, rows[k], probe(rows[k].key), until, clock(k))
    {
      VerdictDecides(policy, rows[k], probe(rows[k].key), true, until, clock(k));
    }
  }

  lemma CountGrows(rows: seq<Claim>, n: nat, policy: Policy, probe: Key -> Option<VerdictData>, updates: Key -> bool)
    requires policy.Usable() && n < |rows|
    ensures forall r :: CountOf(rows[..n + 1], policy, probe, updates, r) == CountOf(rows[..n], policy, probe, updates, r) +
              if ResultFor(policy, rows[n], probe(rows[n].key), updates(rows[n].key)) == r then 1 else 0
  {
    hide ResultFor;
    assert rows[..n + 1][..n] == rows[..n];
  }

  lemma CountStep(rows: seq<Claim>, n: nat, policy: Policy, probe: Key -> Option<VerdictData>, updates: Key -> bool)
    requires policy.Usable() && n < |rows|
    ensures var c := rows[n]; var end := EndOf(probe(c.key));
            Raises(rows[..n + 1], probe) + Losses(rows[..n + 1], policy, probe, updates) ==
            Raises(rows[..n], probe) + Losses(rows[..n], policy, probe, updates) +
            if ResultOf(policy, c, end, updates(c.key)) == Failed then 1 else 0
  {
    hide Contains;
    assert rows[..n + 1][..n] == rows[..n];
  }

  lemma UpdatesStep(t: AddressTable, rows: seq<Claim>, n: nat, policy: Policy, probe: Key -> Option<VerdictData>,
                    updates: Key -> bool)
    requires policy.Usable() && n < |rows|
    ensures AfterUpdates(t, rows[..n + 1], policy, probe, updates) ==
            AfterUpdate(AfterUpdates(t, rows[..n], policy, probe, updates), policy, rows[n], EndOf(probe(rows[n].key)), updates(rows[n].key))
  {
    hide AfterUpdate, EndOf;
    assert rows[..n + 1][..n] == rows[..n];
  }

  /** Every verdict is stored under the address it is a verdict on. */
  ghost predicate Canonical(rows: seq<Claim>, probe: Key -> Option<VerdictData>) {
    forall c :: c in rows && probe(c.key).Some? ==> Addresses.FromVerdict(probe(c.key).value, "").email == c.key.1
  }

  lemma OneUpdate(t: AddressTable, policy: Policy, c: Claim, end: ProbeEnd, updates: bool, key: Key)
    requires policy.Usable()
    requires !end.Raised? ==> Addresses.FromVerdict(end.verdict, "").email == c.key.1
    ensures var after := AfterUpdate(t, policy, c, end, updates);
            if c.key == key && Removes(policy, c, end) && updates then Lookup(after, key).Some? && Lookup(after, key).value.verdict == end.verdict
            else Lookup(after, key) == Lookup(t, key)
  {
  }

  /** A claim on `key` removed its row and wrote its verdict. */
  ghost predicate Settles(rows: seq<Claim>, policy: Policy, probe: Key -> Option<VerdictData>, updates: Key -> bool, key: Key)
    requires policy.Usable()
  {
    updates(key) && exists c :: c in rows && c.key == key && Removes(policy, c, EndOf(probe(key)))
  }

  /** What a sweep leaves in the address table: under every claimed key whose row it removed,
      that retry's verdict unless the claim lost it, and everywhere else what was there before. */
  lemma {:induction false} SweepStoresVerdicts(t: AddressTable, rows: seq<Claim>, policy: Policy,
                                               probe: Key -> Option<VerdictData>, updates: Key -> bool, key: Key)
    requires policy.Usable() && DistinctKeys(rows) && Canonical(rows, probe)
    ensures var after := AfterUpdates(t, rows, policy, probe, updates);
            if Settles(rows, policy, probe, updates, key)
            then probe(key).Some? && Lookup(after, key).Some? && Lookup(after, key).value.verdict == probe(key).value
            else Lookup(after, key) == Lookup(t, key)
  {
    hide Removes, AfterUpdate, EndOf, Lookup;
    if rows != [] {
      var n := |rows| - 1;
      assert rows == rows[..n] + [rows[n]];
      SweepStoresVerdicts(t, rows[..n], policy, probe, updates, key);
      assert rows[n] in rows;
      EndIsVerdict(policy, rows[n], probe);
      OneUpdate(AfterUpdates(t, rows[..n], policy, probe, updates), policy, rows[n], EndOf(probe(rows[n].key)), updates(rows[n].key), key);
    }
  }

  lemma EndIsVerdict(policy: Policy, c: Claim, probe: Key -> Option<VerdictData>)
    requires policy.Usable()
    ensures var end := EndOf(probe(c.key));
            if probe(c.key).None? then end.Raised? && !Removes(policy, c, end)
            else !end.Raised? && end.verdict == probe(c.key).value
  {
    hide Contains;
  }

  lemma ClaimedAreStored(t: Table, limit: nat, now: real, claimed: seq<Claim>, until: real)
    requires IsClaim(t, limit, now, claimed)
    ensures DistinctKeys(claimed)
    ensures forall k :: 0 <= k < |claimed| ==> claimed[k].key in t && claimed[k].row == t[claimed[k].key]
    ensures forall k :: 0 <= k < |claimed| ==> Lookup(Leased(t, claimed, until), claimed[k].key) == Some(claimed[k].row.(nextAt := until))
  {
    LeasedKeys(t, claimed, until);
    hide Leased;
    forall k | 0 <= k < |claimed|
      ensures claimed[k].key in t && claimed[k].row == t[claimed[k].key]
      ensures Lookup(Leased(t, claimed, until), claimed[k].key) == Some(claimed[k].row.(nextAt := until))
    {
      assert claimed[k] in claimed;
    }
  }

  lemma StillDue(t: Table, limit: nat, now: real, claimed: seq<Claim>, n: nat, until: real)
    requires IsClaim(t, limit, now, claimed) && n < |claimed|
    ensures var before := Leased(t, claimed[..n], until); var key := claimed[n].key;
            key in before && before[key] == claimed[n].row && before[key].nextAt <= now
  {
    hide Leased;
    LeasedKeys(t, claimed[..n], until);
    assert claimed[n] in claimed;
    assert forall c :: c in claimed[..n] ==> c.key != claimed[n].key;
  }

  lemma LeasedNone(t: Table, until: real)
    ensures forall claimed: seq<Claim> :: claimed == [] ==> Leased(t, claimed, until) == t
  {
  }

  lemma LeaseNext(t: Table, limit: nat, now: real, claimed: seq<Claim>, n: nat, until: real)
    requires IsClaim(t, limit, now, claimed) && n < |claimed|
    ensures var before := Leased(t, claimed[..n], until); var key := claimed[n].key;
            key in before && Leased(t, claimed[..n + 1], until) == before[key := before[key].(nextAt := until)]
  {
    LeasedKeys(t, claimed[..n], until);
    assert claimed[..n + 1][..n] == claimed[..n];
    assert claimed[n] in claimed;
  }

  /** A partly made selection: `left` are the due keys not taken yet. */
  ghost predicate Picking(t: Table, limit: nat, now: real, claimed: seq<Claim>, left: set<Key>) {
    && left <= DueKeys(t, now)
    && (forall c :: c in claimed ==> c.key in DueKeys(t, now) && c.key !in left && c.row == t[c.key])
    && (forall key :: key in DueKeys(t, now) && key !in left ==> exists c :: c in claimed && c.key == key)
    && DistinctKeys(claimed) && |claimed| + |left| == |DueKeys(t, now)| && |claimed| <= limit
    && EarliestFirst(t, claimed, left)
  }

  lemma PickKeepsOrder(t: Table, claimed: seq<Claim>, left: set<Key>, key: Key)
    requires EarliestFirst(t, claimed, left) && left <= t.Keys
    requires key in left && forall o :: o in left ==> t[key].nextAt <= t[o].nextAt
    ensures EarliestFirst(t, claimed + [Claim(key, t[key])], left - {key})
  {
  }

  lemma PickOne(t: Table, limit: nat, now: real, claimed: seq<Claim>, left: set<Key>, key: Key)
    requires Picking(t, limit, now, claimed, left) && |claimed| < limit
    requires key in left && forall o :: o in left ==> t[key].nextAt <= t[o].nextAt
    ensures Picking(t, limit, now, claimed + [Claim(key, t[key])], left - {key})
  {
    hide EarliestFirst;
    PickKeepsOrder(t, claimed, left, key);
    var more := claimed + [Claim(key, t[key])];
    assert forall i :: 0 <= i < |claimed| ==> more[i] in claimed;
    forall k | k in DueKeys(t, now) && k !in left - {key}
      ensures exists c :: c in more && c.key == k
    {
      if k == key {
        assert Claim(key, t[key]) in more;
      } else {
        var c :| c in claimed && c.key == k;
        assert c in more;
      }
    }
  }

  lemma PickedEnough(t: Table, limit: nat, now: real, claimed: seq<Claim>, left: set<Key>)
    requires Picking(t, limit, now, claimed, left) && (|claimed| == limit || left == {})
    ensures IsClaim(t, limit, now, claimed)
  {
    assert (set key | key in DueKeys(t, now) && forall c :: c in claimed ==> c.key != key) == left;
  }

  ghost predicate DistinctKeys(claimed: seq<Claim>) {
    forall i, j :: 0 <= i < j < |claimed| ==> claimed[i].key != claimed[j].key
  }

  ghost predicate EarliestFirst(t: Table, claimed: seq<Claim>, left: set<Key>) {
    && (forall i, j :: 0 <= i < j < |claimed| ==> claimed[i].row.nextAt <= claimed[j].row.nextAt)
    && (forall i, key :: 0 <= i < |claimed| && key in left && key in t ==> claimed[i].row.nextAt <= t[key].nextAt)
  }

  function DueKeys(t: Table, now: real): set<Key> {
    set key | key in t && t[key].nextAt <= now
  }

  /** `claimed` is what a claim at `now` may return: only due rows, each once and as stored,
      as many as the limit allows, none later than a due row left behind. */
  ghost predicate IsClaim(t: Table, limit: nat, now: real, claimed: seq<Claim>)
  {
    && (forall c :: c in claimed ==> c.key in DueKeys(t, now) && c.row == t[c.key])
    && DistinctKeys(claimed)
    && |claimed| == Min(limit, |DueKeys(t, now)|)
    && EarliestFirst(t, claimed, set key | key in DueKeys(t, now) && forall c :: c in claimed ==> c.key != key)
  }

  /** The claimed rows with their next attempt pushed to `until`. */
  function Leased(t: Table, claimed: seq<Claim>, until: real): Table {
    if claimed == [] then t
    else
      var c := claimed[|claimed| - 1];
      var before := Leased(t, claimed[..|claimed| - 1], until);
      if c.key in before then before[c.key := before[c.key].(nextAt := until)] else before
  }

  lemma {:induction false} LeasedAt(t: Table, claimed: seq<Claim>, until: real, key: Key)
    ensures Lookup(Leased(t, claimed, until), key) ==
            if key in t then Some(if exists c :: c in claimed && c.key == key then t[key].(nextAt := until) else t[key]) else None
  {
    if claimed != [] {
      var n := |claimed| - 1;
      LeasedAt(t, claimed[..n], until, key);
      assert claimed == claimed[..n] + [claimed[n]];
      assert claimed[n] in claimed;
    }
  }

  lemma LeasedKeys(t: Table, claimed: seq<Claim>, until: real)
    ensures Leased(t, claimed, until).Keys == t.Keys
    ensures forall key :: key in t && (forall c :: c in claimed ==> c.key != key) ==> Leased(t, claimed, until)[key] == t[key]
    ensures forall c :: c in claimed && c.key in t ==> Leased(t, claimed, until)[c.key] == t[c.key].(nextAt := until)
  {
    hide Leased;
    forall key
      ensures Lookup(Leased(t, claimed, until), key) ==
              if key in t then Some(if exists c :: c in claimed && c.key == key then t[key].(nextAt := until) else t[key]) else None
    {
      LeasedAt(t, claimed, until, key);
    }
    forall key
      ensures key in Leased(t, claimed, until) <==> key in t
    {
      assert Lookup(Leased(t, claimed, until), key).Some? <==> key in t;
    }
    forall c | c in claimed && c.key in t
      ensures Leased(t, claimed, until)[c.key] == t[c.key].(nextAt := until)
    {
      assert Lookup(Leased(t, claimed, until), c.key).Some?;
    }
  }

  lemma {:induction false} EarliestExists(t: Table, keys: set<Key>)
    requires keys != {} && forall key :: key in keys ==> key in t
    ensures exists key :: key in keys && forall o :: o in keys ==> t[key].nextAt <= t[o].nextAt
    decreases |keys|
  {
    var k :| k in keys;
    var rest := keys - {k};
    if rest != {} {
      EarliestExists(t, rest);
      var m :| m in rest && forall o :: o in rest ==> t[m].nextAt <= t[o].nextAt;
      var best := if t[k].nextAt <= t[m].nextAt then k else m;
      assert best in keys && forall o :: o in keys ==> t[best].nextAt <= t[o].nextAt;
    } else {
      assert keys == {k};
    }
  }
}
