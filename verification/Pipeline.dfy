// The bulk run (src/eve/jobs/pipeline.py): a streaming pass that collects the unique
// work, the chunked verify stage, and a second pass that joins the verdicts back onto
// every row by dedupe key.

module Pipeline {
  import opened Common
  import opened Verdicts
  import opened Normalize
  import opened VerifyStage
  import Engine = Engine
  import Addresses = Addresses
  import Mailboxes = Mailboxes

  type Row = map<string, string>

  datatype Mapping = Mapping(email: string, firstName: Option<string>, lastName: Option<string>)

  /** The key and work item of one row. */
  function KeyRow(check: Parser, m: Mapping, row: Row): Keyed {
    DedupeKey(check, Strip(if m.email in row then row[m.email] else ""))
  }

  function KeyedRows(check: Parser, m: Mapping, rows: seq<Row>): (ks: seq<Keyed>)
    ensures |ks| == |rows| && forall i :: 0 <= i < |rows| ==> ks[i] == KeyRow(check, m, rows[i])
  {
    if rows == [] then [] else KeyedRows(check, m, rows[..|rows| - 1]) + [KeyRow(check, m, rows[|rows| - 1])]
  }

  /** No earlier row has the same key. */
  predicate First(ks: seq<Keyed>, i: nat)
    requires i < |ks|
  {
    forall j :: 0 <= j < i ==> ks[j].key != ks[i].key
  }

  /** Keys of the first `n` rows, in order of first appearance. */
  function Firsts(ks: seq<Keyed>, n: nat): seq<string>
    requires n <= |ks|
  {
    if n == 0 then []
    else if First(ks, n - 1) then Firsts(ks, n - 1) + [ks[n - 1].key]
    else Firsts(ks, n - 1)
  }

  lemma FirstsStep(ks: seq<Keyed>, n: nat)
    requires n < |ks|
    ensures Firsts(ks, n + 1) == Firsts(ks, n) + if First(ks, n) then [ks[n].key] else []
  {
    hide First;
  }

  lemma {:induction false} FirstsCoverRows(ks: seq<Keyed>, n: nat, key: string)
    requires n <= |ks|
    ensures key in Firsts(ks, n) <==> exists j :: 0 <= j < n && ks[j].key == key
    ensures |Firsts(ks, n)| <= n
  {
    if n > 0 {
      FirstsCoverRows(ks, n - 1, key);
      FirstsCoverRows(ks, n - 1, ks[n - 1].key);
    }
  }

  lemma {:induction false} FirstsAreDistinct(ks: seq<Keyed>, n: nat)
    requires n <= |ks|
    ensures forall i, j :: 0 <= i < j < |Firsts(ks, n)| ==> Firsts(ks, n)[i] != Firsts(ks, n)[j]
  {
    if n > 0 {
      FirstsAreDistinct(ks, n - 1);
      FirstsCoverRows(ks, n - 1, ks[n - 1].key);
      var before := Firsts(ks, n - 1);
      assert forall i :: 0 <= i < |before| ==> before[i] in before;
    }
  }

  lemma {:induction false} HasFirst(ks: seq<Keyed>, i: nat) returns (j: nat)
    requires i < |ks|
    ensures j <= i && First(ks, j) && ks[j].key == ks[i].key
  {
    if First(ks, i) {
      j := i;
    } else {
      var k :| 0 <= k < i && ks[k].key == ks[i].key;
      j := HasFirst(ks, k);
    }
  }

  // ---------------------------------------------------------------- duplicates, in terms of addressees

  /** The address a row gives: its mapped cell without outer blanks, empty when it has none. */
  function Given(m: Mapping, row: Row): string {
    Strip(if m.email in row then row[m.email] else "")
  }

  /** An earlier row names the same addressee. */
  ghost predicate RepeatsEarlier(check: Parser, m: Mapping, rows: seq<Row>, i: nat)
    requires i < |rows|
  {
    exists j: nat :: j < i && Mailboxes.SameAddressee(check, Given(m, rows[j]), Given(m, rows[i]))
  }

  ghost function Repeats(check: Parser, m: Mapping, rows: seq<Row>): set<int> {
    set i | 0 <= i < |rows| && RepeatsEarlier(check, m, rows, i)
  }

  lemma DuplicateExactlyWhenRepeated(check: Parser, m: Mapping, rows: seq<Row>, i: nat)
    requires Honest(check) && i < |rows|
    ensures !First(KeyedRows(check, m, rows), i) <==> RepeatsEarlier(check, m, rows, i)
  {
    hide Honest, KeyedRows, Mailboxes.SameAddressee, DedupeKey, Strip;
    var ks := KeyedRows(check, m, rows);
    forall j: nat | j < i
      ensures ks[j].key == ks[i].key <==> Mailboxes.SameAddressee(check, Given(m, rows[j]), Given(m, rows[i]))
    {
      Mailboxes.SameKeyExactlyWhenSameAddressee(check, Given(m, rows[j]), Given(m, rows[i]));
    }
  }

  function LaterRows(ks: seq<Keyed>, n: nat): set<int>
    requires n <= |ks|
  {
    set i | 0 <= i < n && !First(ks, i)
  }

  lemma {:induction false} FirstsAndOthers(ks: seq<Keyed>, n: nat)
    requires n <= |ks|
    ensures |Firsts(ks, n)| + |LaterRows(ks, n)| == n
  {
    hide First;
    if n > 0 {
      FirstsAndOthers(ks, n - 1);
      assert LaterRows(ks, n) == LaterRows(ks, n - 1) + if First(ks, n - 1) then {} else {n - 1};
    }
  }

  /** The rows counted as duplicates are those whose addressee an earlier row names. */
  lemma DuplicatesNameEarlierRows(check: Parser, m: Mapping, rows: seq<Row>)
    requires Honest(check)
    ensures |rows| - |Firsts(KeyedRows(check, m, rows), |rows|)| == |Repeats(check, m, rows)|
  {
    hide Honest, KeyedRows, First, Firsts, RepeatsEarlier;
    var ks := KeyedRows(check, m, rows);
    FirstsAndOthers(ks, |rows|);
    forall i | 0 <= i < |rows|
      ensures i in LaterRows(ks, |rows|) <==> i in Repeats(check, m, rows)
    {
      DuplicateExactlyWhenRepeated(check, m, rows, i);
    }
    assert LaterRows(ks, |rows|) == Repeats(check, m, rows);
  }

  // ---------------------------------------------------------------- output rows

  /** An output row: the tidied source cells, the verdict columns (`None` is written as an
      empty invalid address) and the duplicate marker. */
  datatype OutRow = OutRow(cells: Row, verdict: Option<VerdictData>, duplicateOf: string)

  function TidyColumn(row: Row, col: Option<string>): Row {
    if col.Some? && col.value != "" && col.value in row && row[col.value] != ""
    then row[col.value := Title(Strip(row[col.value]))] else row
  }

  function Tidied(m: Mapping, row: Row): Row {
    TidyColumn(TidyColumn(row, m.firstName), m.lastName)
  }

  /** Tidying keeps every column and every cell but the mapped names, which it strips and
      title-cases. */
  lemma TidyTouchesNamesOnly(m: Mapping, row: Row, col: string)
    requires col in row
    ensures Tidied(m, row).Keys == row.Keys
    ensures var named := col != "" && (m.firstName == Some(col) || m.lastName == Some(col));
            Tidied(m, row)[col] == if named && row[col] != "" then Title(Strip(row[col])) else row[col]
  {
    hide Title, Strip;
    TidyTwice(row[col]);
  }

  function TidiedRows(m: Mapping, rows: seq<Row>): (r: seq<Row>)
    ensures |r| == |rows| && forall i :: 0 <= i < |rows| ==> r[i] == Tidied(m, rows[i])
  {
    if rows == [] then [] else TidiedRows(m, rows[..|rows| - 1]) + [Tidied(m, rows[|rows| - 1])]
  }

  /** Everything the second pass joins: keyed rows with their tidied cells, the unique work
      and the verdicts. */
  datatype Join = Join(ks: seq<Keyed>, cells: seq<Row>, unique: map<string, Work>, verdicts: map<string, VerdictData>) {

    ghost predicate Valid() {
      |ks| == |cells|
    }

    function StatusOf(i: nat): Status
      requires i < |ks|
    {
      if ks[i].key in verdicts then verdicts[ks[i].key].status else Invalid
    }

    function Out(i: nat): OutRow
      requires Valid() && i < |ks|
    {
      var key := ks[i].key;
      OutRow(cells[i],
             if key in verdicts then Some(verdicts[key]) else None,
             if !First(ks, i) && key in unique then unique[key].email else "")
    }

    predicate Removed(i: nat)
      requires i < |ks|
    {
      !First(ks, i) || StatusOf(i) in {Invalid, Disposable}
    }

    /** Which of the first `n` rows go to the removed (or to the valid) file, in order. */
    function Sorted(removed: bool, n: nat): (r: seq<nat>)
      requires n <= |ks|
      ensures forall k :: 0 <= k < |r| ==> r[k] < n
    {
      if n == 0 then []
      else if Removed(n - 1) == removed then Sorted(removed, n - 1) + [n - 1]
      else Sorted(removed, n - 1)
    }

    function Outs(indices: seq<nat>): (r: seq<OutRow>)
      requires Valid() && forall k :: 0 <= k < |indices| ==> indices[k] < |ks|
      ensures |r| == |indices| && forall k :: 0 <= k < |r| ==> r[k] == Out(indices[k])
    {
      if indices == [] then []
      else Outs(indices[..|indices| - 1]) + [Out(indices[|indices| - 1])]
    }
  }

  lemma OutsGrow(j: Join, indices: seq<nat>, i: nat)
    requires j.Valid() && i < |j.ks| && forall k :: 0 <= k < |indices| ==> indices[k] < |j.ks|
    ensures j.Outs(indices + [i]) == j.Outs(indices) + [j.Out(i)]
  {
    assert (indices + [i])[..|indices + [i]| - 1] == indices;
  }

  function UpTo(n: nat): (r: seq<nat>)
    ensures |r| == n && forall k :: 0 <= k < n ==> r[k] == k
  {
    if n == 0 then [] else UpTo(n - 1) + [n - 1]
  }

  // ---------------------------------------------------------------- the job

  datatype JobStatus = PendingJob | Processing | Completed | FailedJob

  class Job {
    var status: JobStatus
    var totalRows: nat
    var uniqueEmails: nat
    var duplicates: int
    var counts: Counts
    var processed: nat
    var total: nat
    var domainsTotal: nat

    constructor ()
      ensures Untouched()
    {
      status, totalRows, uniqueEmails, duplicates, counts := PendingJob, 0, 0, 0, NO_COUNTS;
      processed, total, domainsTotal := 0, 0, 0;
    }

    ghost predicate Untouched()
      reads this
    {
      status == PendingJob && counts == NO_COUNTS && processed == 0
    }

    /** First pass: the unique work in file order, and the distinct domains. */
    method Split(check: Parser, m: Mapping, rows: seq<Row>, ghost ks: seq<Keyed>)
      returns (order: seq<string>, unique: map<string, Work>, domains: set<string>)
      requires ks == KeyedRows(check, m, rows)
      modifies this`totalRows, this`uniqueEmails, this`duplicates, this`total, this`domainsTotal
      ensures order == Firsts(ks, |rows|) && FirstWork(ks, |rows|, unique) && domains == DomainsOf(unique)
      ensures totalRows == |rows| && uniqueEmails == total == |order| && domainsTotal == |domains|
      ensures duplicates == totalRows - uniqueEmails
      ensures Honest(check) ==> duplicates == |Repeats(check, m, rows)|
    {
      hide KeyRow, KeyedRows, Collected, Firsts, FirstWork, DomainsOf, Honest, Repeats;
      NothingCollected(ks);
      order, unique, domains := [], map[], {};
      var n := 0;
      while n < |rows|
        invariant n <= |rows| && Collected(ks, n, order, unique, domains)
      {
        var keyed := KeyRow(check, m, rows[n]);
        CollectStep(ks, n, order, unique, domains);
        if keyed.key !in unique {
          order := order + [keyed.key];
          unique := unique[keyed.key := keyed.work];
          if keyed.work.domain != "" {
            domains := domains + {keyed.work.domain};
          }
        }
        n := n + 1;
      }
      CollectedAll(ks, order, unique, domains);
      if Honest(check) {
        DuplicatesNameEarlierRows(check, m, rows);
      }
      totalRows, uniqueEmails, duplicates := |rows|, |order|, |rows| - |order|;
      total, domainsTotal := |order|, |domains|;
    }

    /** Stores one landed verdict: the segment of a verify task after its semaphore. */
    method Land(k: nat, p: Plan, verdicts: map<string, VerdictData>, ghost s: Stage) returns (updated: map<string, VerdictData>)
      requires p.Valid() && Enabled(p, s, Finish(k)) && Mirrors(s, verdicts)
      modifies this`counts, this`processed
      ensures Mirrors(Apply(p, s, Finish(k)), updated)
    {
      var v := p.answers[k].value;
      updated := verdicts[p.keys[k] := v];
      counts := counts.Bump(v.status);
      processed := processed + 1;
    }

    /** The job's live figures and the verdict map are those of the stage. */
    ghost predicate Mirrors(s: Stage, verdicts: map<string, VerdictData>)
      reads this
    {
      s.verdicts == verdicts && s.counts == counts && s.processed == processed
    }

    /** Everything the scheduler holds is what the stage says. */
    ghost predicate Tracks(p: Plan, s: Stage, places: seq<Place>, running: nat, i: nat, verdicts: map<string, VerdictData>)
      requires p.Valid()
      reads this
    {
      Inv(p, s) && Ready(p, s, places, running, i) && Mirrors(s, verdicts)
    }

    /** One chunk under an arbitrary scheduler: each round starts or ends some item. `ok` is
        false when a probe raised. */
    method VerifyChunk(p: Plan, i: nat, places0: seq<Place>, verdicts0: map<string, VerdictData>, ghost s0: Stage)
      returns (places: seq<Place>, verdicts: map<string, VerdictData>, ok: bool, ghost s: Stage)
      requires p.Valid() && i <= |p.keys| == |places0| && Tracks(p, s0, places0, 0, i, verdicts0)
      modifies this`counts, this`processed
      ensures Inv(p, s) && Mirrors(s, verdicts)
      ensures ok ==> |places| == |p.keys| && Tracks(p, s, places, 0, i, verdicts) && AllLandedBelow(places, i)
      ensures !ok ==> exists k :: 0 <= k < |p.keys| && p.answers[k].None?
    {
      hide Inv, Ready, Enabled, Apply, WorkLeft, AllLandedBelow;
      places, verdicts, ok, s := places0, verdicts0, true, s0;
      var running: nat := 0;
      while exists k :: 0 <= k < i && places[k] != Landed
        invariant |places| == |p.keys| && Tracks(p, s, places, running, i, verdicts)
        decreases WorkLeft(p, s)
      {
        SomethingToDo(p, s, places, running, i);
        var k :| 0 <= k < i && (places[k] == Running || (places[k] == Pending && running < p.Permits()));
        StepReady(p, s, places, running, i, k);
        if places[k] == Pending {
          s := Apply(p, s, Start(k));
          places, running := places[k := Running], running + 1;
        } else if p.answers[k].None? {
          return places, verdicts, false, s;
        } else {
          verdicts := Land(k, p, verdicts, s);
          s := Apply(p, s, Finish(k));
          places, running := places[k := Landed], running - 1;
        }
      }
      NobodyRuns(p, s, places, running, i);
    }

    /** Writes one landed chunk into the address table, if there is one. A batch the table
        refuses is dropped silently. */
    static method RecordAddresses(p: Plan, a: nat, b: nat, verdicts: map<string, VerdictData>,
                                  addresses: Addresses.AddressStore?, ws: string, jobId: string)
      returns (accepted: bool)
      requires p.Valid() && a <= b <= |p.keys| && LandedIn(p, b, verdicts)
      modifies addresses
      ensures accepted <==> addresses == null || Addresses.Distinct(RecordsBetween(p, a, b, jobId))
      ensures addresses != null ==> addresses.table == Upserted(old(addresses.table), ws, RecordsBetween(p, a, b, jobId))
    {
      if addresses == null {
        return true;
      }
      hide RecordOf;
      var records: seq<Addresses.Record> := [];
      for k := a to b
        invariant records == RecordsBetween(p, a, k, jobId)
      {
        records := records + RecordOf(Some(verdicts[p.keys[k]]), jobId);
      }
      accepted := addresses.UpsertMany(records, ws);
    }

    /** The whole verify stage, chunk after chunk. `recorded` unique addresses have been
        written to the address table when it ends. */
    method VerifyAll(p: Plan, addresses: Addresses.AddressStore?, ws: string, jobId: string)
      returns (verdicts: map<string, VerdictData>, ok: bool, ghost recorded: nat)
      requires p.Valid() && counts == NO_COUNTS && processed == 0
      modifies this`counts, this`processed, addresses
      ensures processed == |verdicts| == counts.Sum() <= |p.keys|
      ensures ok ==> (forall k :: 0 <= k < |p.keys| ==> p.answers[k].Some?) &&
                     Result(verdicts, counts, processed) == InOrder(p, |p.keys|)
      ensures !ok ==> exists k :: 0 <= k < |p.keys| && p.answers[k].None?
      ensures recorded <= |p.keys| && (ok ==> recorded == |p.keys|)
      ensures addresses != null && Addresses.Distinct(RecordsBetween(p, 0, |p.keys|, jobId)) ==>
                addresses.table == old(addresses.table) + Addresses.AsTable(ws, RecordsBetween(p, 0, recorded, jobId))
    {
      hide Inv, Ready, Enabled, Apply, InOrder, Begin, Finished, AllLandedBelow, RecordsBetween, Upserted, LandedIn;
      ghost var s := Begin(p);
      BeginReady(p);
      BeginInv(p);
      NothingRecorded(p, ws, jobId);
      verdicts, ok := map[], true;
      var places, i := AllAt(Pending, |p.keys|), 0;
      recorded := 0;
      while i < |p.keys|
        invariant i <= |p.keys| == |places| && Tracks(p, s, places, 0, i, verdicts) && AllLandedBelow(places, i)
        invariant recorded == i
        invariant addresses != null && Addresses.Distinct(RecordsBetween(p, 0, |p.keys|, jobId)) ==>
                    addresses.table == old(addresses.table) + Addresses.AsTable(ws, RecordsBetween(p, 0, recorded, jobId))
      {
        OpenReady(p, s, places, 0, i);
        var start := i;
        i, s := p.NextEnd(i), Apply(p, s, OpenChunk);
        places, verdicts, ok, s := VerifyChunk(p, i, places, verdicts, s);
        if !ok {
          CountersAgree(p, s);
          return;
        }
        LandedVerdicts(p, s, places, i, verdicts);
        var _ := RecordAddresses(p, start, i, verdicts, addresses, ws, jobId);
        if addresses != null && Addresses.Distinct(RecordsBetween(p, 0, |p.keys|, jobId)) {
          RecordedNext(old(addresses.table), p, start, i, ws, jobId);
        }
        recorded := i;
      }
      ReadyIsFinished(p, s, places, 0);
      CountersAgree(p, s);
      FinishedEqualsInOrder(p, s);
    }

    /** Second pass: every row to `cleaned`, and each to exactly one of the other two. */
    method Assemble(check: Parser, m: Mapping, rows: seq<Row>, unique: map<string, Work>, verdicts: map<string, VerdictData>, ghost j: Join)
      returns (cleaned: seq<OutRow>, valid: seq<OutRow>, removed: seq<OutRow>)
      requires j == Join(KeyedRows(check, m, rows), TidiedRows(m, rows), unique, verdicts)
      ensures Written(j, |rows|, cleaned, valid, removed)
    {
      hide KeyRow, KeyedRows, Tidied, TidiedRows, First, SeenSoFar, Written;
      NothingRead(j);
      cleaned, valid, removed := [], [], [];
      var seen: set<string> := {};
      var n := 0;
      while n < |rows|
        invariant n <= |rows|
        invariant SeenSoFar(j.ks, n, seen) && Written(j, n, cleaned, valid, removed)
      {
        var key := KeyRow(check, m, rows[n]).key;
        var v := if key in verdicts then Some(verdicts[key]) else None;
        var isDup := key in seen;
        SeenStep(j.ks, n, seen);
        seen := seen + {key};
        var duplicateOf := if isDup && key in unique then unique[key].email else "";
        var out := OutRow(Tidied(m, rows[n]), v, duplicateOf);
        var status := if v.Some? then v.value.status else Invalid;
        assert out == j.Out(n);
        WriteStep(j, n, cleaned, valid, removed);
        cleaned := cleaned + [out];
        if isDup || status in {Invalid, Disposable} {
          removed := removed + [out];
        } else {
          valid := valid + [out];
        }
        n := n + 1;
      }
    }

    /** One bulk run of a fresh job. `probe` is what verifying an address comes to; the job
        completes exactly when it raises for none of the unique addresses. `p` is the work of
        the verify stage, of which the first `recorded` addresses reach the address table. */
    method RunJob(check: Parser, m: Mapping, rows: seq<Row>, probe: string -> Option<VerdictData>, batch: int, limit: int,
                  addresses: Addresses.AddressStore?, ws: string, jobId: string)
      returns (ok: bool, cleaned: seq<OutRow>, valid: seq<OutRow>, removed: seq<OutRow>, ghost j: Join, ghost p: Plan,
               ghost recorded: nat)
      requires Untouched()
      modifies this, addresses
      ensures status == if ok then Completed else FailedJob
      ensures ok <==> NoProbeRaises(KeyedRows(check, m, rows), probe)
      ensures processed == counts.Sum() <= total == uniqueEmails
      ensures totalRows == |rows| && totalRows == uniqueEmails + duplicates
      ensures Honest(check) ==> duplicates == |Repeats(check, m, rows)|
      ensures j.ks == KeyedRows(check, m, rows) && IsWork(p, j.ks, j.unique, probe)
      ensures ok ==> processed == total && Complete(j, check, m, rows) && Written(j, |rows|, cleaned, valid, removed)
      ensures ok ==> forall key :: key in j.verdicts ==> key in j.unique && probe(j.unique[key].email) == Some(j.verdicts[key])
      ensures ok ==> |cleaned| == totalRows && |valid| + |removed| == |cleaned|
      ensures ok ==> |removed| == duplicates + counts.invalid + counts.disposable
      ensures recorded <= |p.keys| && (ok ==> recorded == |p.keys|)
      ensures addresses != null && Honest(check) && Canonical(check, probe) ==>
                addresses.table == old(addresses.table) + Addresses.AsTable(ws, RecordsBetween(p, 0, recorded, jobId))
    {
      hide KeyRow, KeyedRows, TidiedRows, Firsts, FirstWork, Written, InOrder, DomainsOf, Answers, Complete, RecordsBetween,
        NoProbeRaises, IsWork, Canonical, Honest, Repeats;
      status := Processing;
      ghost var ks := KeyedRows(check, m, rows);
      var order, unique, domains := Split(check, m, rows, ks);
      cleaned, valid, removed := [], [], [];
      WorkPerKey(ks, order, unique);
      var plan := Plan(order, Answers(order, unique, probe), batch, limit);
      p := plan;
      PlanIsWork(p, ks, unique, probe);
      if Honest(check) && Canonical(check, probe) {
        ChunkWriteIsAccepted(check, m, rows, unique, probe, p, 0, |p.keys|, jobId);
      }
      var verdicts: map<string, VerdictData>;
      verdicts, ok, recorded := VerifyAll(plan, addresses, ws, jobId);
      j := Join(ks, TidiedRows(m, rows), unique, verdicts);
      if !ok {
        status := FailedJob;
        return;
      }
      cleaned, valid, removed := Assemble(check, m, rows, unique, verdicts, j);
      RunAccounts(j, p, check, m, rows, probe, cleaned, valid, removed);
      status := Completed;
    }
  }

  // ---------------------------------------------------------------- the scheduler's view of the stage

  predicate AllLandedBelow(places: seq<Place>, i: nat)
    requires i <= |places|
  {
    forall k :: 0 <= k < i ==> places[k] == Landed
  }

  /** The scheduler's places, permit count and chunk end are those of the stage, and no
      probe has raised. */
  ghost predicate Ready(p: Plan, s: Stage, places: seq<Place>, running: nat, i: nat) {
    && s.places == places && |places| == |p.keys| && s.handedOut == i
    && running == CountOf(places, Running)
    && forall k :: 0 <= k < |places| ==> places[k] != Raised
  }

  lemma BeginReady(p: Plan)
    requires p.Valid()
    ensures var s := Begin(p); s.verdicts == map[] && s.counts == NO_COUNTS && s.processed == 0
    ensures var places := AllAt(Pending, |p.keys|); Ready(p, Begin(p), places, 0, 0) && AllLandedBelow(places, 0)
  {
    NothingLandedYet(p, |p.keys|, Valid);
  }

  lemma OpenReady(p: Plan, s: Stage, places: seq<Place>, running: nat, i: nat)
    requires p.Valid() && Inv(p, s) && Ready(p, s, places, running, i) && i < |p.keys| == |places| && AllLandedBelow(places, i)
    ensures Enabled(p, s, OpenChunk)
    ensures var next := Apply(p, s, OpenChunk);
            Inv(p, next) && Ready(p, next, places, running, p.NextEnd(i)) && next.verdicts == s.verdicts &&
            next.counts == s.counts && next.processed == s.processed
  {
    EventKeepsInv(p, s, OpenChunk);
  }

  lemma SomethingToDo(p: Plan, s: Stage, places: seq<Place>, running: nat, i: nat)
    requires p.Valid() && Inv(p, s) && Ready(p, s, places, running, i) && i <= |p.keys| == |places|
    requires exists k :: 0 <= k < i && places[k] != Landed
    ensures exists k :: 0 <= k < i && (places[k] == Running || (places[k] == Pending && running < p.Permits()))
  {
    SomewhereOrZero(places, Running);
    var k :| 0 <= k < i && places[k] != Landed;
    if running == 0 {
      assert places[k] == Running || (places[k] == Pending && running < p.Permits());
    } else {
      var m :| 0 <= m < |places| && places[m] == Running;
      assert m < i;
    }
  }

  /** Starting, finishing or failing item `k` is a legal event that uses up work. */
  lemma StepReady(p: Plan, s: Stage, places: seq<Place>, running: nat, i: nat, k: nat)
    requires p.Valid() && Inv(p, s) && Ready(p, s, places, running, i) && k < i <= |p.keys| == |places|
    requires places[k] == Running || (places[k] == Pending && running < p.Permits())
    ensures var e := if places[k] == Pending then Start(k) else if p.answers[k].Some? then Finish(k) else Raise(k);
            && Enabled(p, s, e)
            && var next := Apply(p, s, e);
               && Inv(p, next) && 0 <= WorkLeft(p, next) < WorkLeft(p, s)
               && (e.Start? ==> Ready(p, next, places[k := Running], running + 1, i) && next.verdicts == s.verdicts &&
                                next.counts == s.counts && next.processed == s.processed)
               && (e.Finish? ==> running > 0 && Ready(p, next, places[k := Landed], running - 1, i))
  {
    hide Inv, WorkLeft;
    var e := if places[k] == Pending then Start(k) else if p.answers[k].Some? then Finish(k) else Raise(k);
    EventKeepsInv(p, s, e);
    EventsUseUpWork(p, s, e);
    CountAfterUpdate(places, k, Running, Running);
    CountAfterUpdate(places, k, Landed, Running);
  }

  lemma NobodyRuns(p: Plan, s: Stage, places: seq<Place>, running: nat, i: nat)
    requires p.Valid() && Inv(p, s) && Ready(p, s, places, running, i) && i <= |p.keys| == |places|
    requires forall k :: 0 <= k < i ==> places[k] == Landed
    ensures running == 0 && AllLandedBelow(places, i)
  {
    SomewhereOrZero(places, Running);
  }

  lemma ReadyIsFinished(p: Plan, s: Stage, places: seq<Place>, running: nat)
    requires p.Valid() && Ready(p, s, places, running, |p.keys|) && |places| == |p.keys| && AllLandedBelow(places, |places|)
    ensures Finished(p, s)
  {
  }

  lemma CountersAgree(p: Plan, s: Stage)
    requires p.Valid() && Inv(p, s)
    ensures s.processed == |s.verdicts| == s.counts.Sum() <= |p.keys|
  {
    CountWithinLength(s.places, Landed);
  }

  // ---------------------------------------------------------------- what the first pass collects

  /** `unique` maps each key of the first `n` rows to its first row's work. */
  ghost predicate FirstWork(ks: seq<Keyed>, n: nat, unique: map<string, Work>)
    requires n <= |ks|
  {
    && (forall i :: 0 <= i < n ==> ks[i].key in unique)
    && (forall i :: 0 <= i < n && First(ks, i) ==> unique[ks[i].key] == ks[i].work)
    && (forall key :: key in unique ==> exists i :: 0 <= i < n && ks[i].key == key)
  }

  function DomainsOf(unique: map<string, Work>): set<string> {
    set key | key in unique && unique[key].domain != "" :: unique[key].domain
  }

  lemma NewKeyIsFirst(ks: seq<Keyed>, n: nat, unique: map<string, Work>)
    requires n < |ks| && FirstWork(ks, n, unique)
    ensures First(ks, n) <==> ks[n].key !in unique
  {
    if ks[n].key in unique {
      var i :| 0 <= i < n && ks[i].key == ks[n].key;
    }
  }

  lemma OldKeyStays(ks: seq<Keyed>, n: nat, unique: map<string, Work>)
    requires n < |ks| && FirstWork(ks, n, unique) && ks[n].key in unique && !First(ks, n)
    ensures FirstWork(ks, n + 1, unique)
  {
    hide First;
  }

  lemma NewKeyJoins(ks: seq<Keyed>, n: nat, unique: map<string, Work>)
    requires n < |ks| && FirstWork(ks, n, unique) && ks[n].key !in unique
    ensures FirstWork(ks, n + 1, unique[ks[n].key := ks[n].work])
  {
    hide First;
    var next := unique[ks[n].key := ks[n].work];
    forall key | key in next
      ensures exists i :: 0 <= i < n + 1 && ks[i].key == key
    {
      if key in unique {
        var i :| 0 <= i < n && ks[i].key == key;
      } else {
        assert ks[n].key == key;
      }
    }
  }

  lemma SplitStep(ks: seq<Keyed>, n: nat, unique: map<string, Work>)
    requires n < |ks| && FirstWork(ks, n, unique)
    ensures First(ks, n) <==> ks[n].key !in unique
    ensures FirstWork(ks, n + 1, if First(ks, n) then unique[ks[n].key := ks[n].work] else unique)
  {
    hide First, FirstWork;
    NewKeyIsFirst(ks, n, unique);
    if First(ks, n) {
      NewKeyJoins(ks, n, unique);
    } else {
      OldKeyStays(ks, n, unique);
    }
  }

  /** What the first pass has collected from the first `n` rows. */
  ghost predicate Collected(ks: seq<Keyed>, n: nat, order: seq<string>, unique: map<string, Work>, domains: set<string>)
    requires n <= |ks|
  {
    order == Firsts(ks, n) && FirstWork(ks, n, unique) && domains == DomainsOf(unique)
  }

  lemma NothingCollected(ks: seq<Keyed>)
    ensures Collected(ks, 0, [], map[], {})
  {
  }

  lemma CollectedAll(ks: seq<Keyed>, order: seq<string>, unique: map<string, Work>, domains: set<string>)
    requires Collected(ks, |ks|, order, unique, domains)
    ensures order == Firsts(ks, |ks|) && FirstWork(ks, |ks|, unique) && domains == DomainsOf(unique)
  {
  }

  lemma CollectStep(ks: seq<Keyed>, n: nat, order: seq<string>, unique: map<string, Work>, domains: set<string>)
    requires n < |ks| && Collected(ks, n, order, unique, domains)
    ensures var key, work := ks[n].key, ks[n].work;
            if key in unique then Collected(ks, n + 1, order, unique, domains)
            else if work.domain == "" then Collected(ks, n + 1, order + [key], unique[key := work], domains)
            else Collected(ks, n + 1, order + [key], unique[key := work], domains + {work.domain})
  {
    hide First, Firsts, FirstWork, DomainsOf;
    SplitStep(ks, n, unique);
    FirstsStep(ks, n);
    if ks[n].key !in unique {
      DomainsGrow(unique, ks[n].key, ks[n].work);
    }
  }

  lemma NothingRead(j: Join)
    requires j.Valid()
    ensures SeenSoFar(j.ks, 0, {}) && Written(j, 0, [], [], [])
  {
  }

  lemma DomainsGrow(unique: map<string, Work>, key: string, work: Work)
    requires key !in unique
    ensures DomainsOf(unique[key := work]) == DomainsOf(unique) + if work.domain != "" then {work.domain} else {}
  {
    var now := unique[key := work];
    forall d | d in DomainsOf(unique) || (d == work.domain && d != "")
      ensures d in DomainsOf(now)
    {
      if d in DomainsOf(unique) {
        var k :| k in unique && unique[k].domain != "" && unique[k].domain == d;
        assert k in now && now[k].domain == d;
      } else {
        assert key in now && now[key].domain == d;
      }
    }
  }

  // ---------------------------------------------------------------- what the second pass writes

  ghost predicate Written(j: Join, n: nat, cleaned: seq<OutRow>, valid: seq<OutRow>, removed: seq<OutRow>)
    requires j.Valid() && n <= |j.ks|
  {
    cleaned == j.Outs(UpTo(n)) && valid == j.Outs(j.Sorted(false, n)) && removed == j.Outs(j.Sorted(true, n))
  }

  lemma WriteStep(j: Join, n: nat, cleaned: seq<OutRow>, valid: seq<OutRow>, removed: seq<OutRow>)
    requires j.Valid() && n < |j.ks| && Written(j, n, cleaned, valid, removed)
    ensures j.Removed(n) ==> Written(j, n + 1, cleaned + [j.Out(n)], valid, removed + [j.Out(n)])
    ensures !j.Removed(n) ==> Written(j, n + 1, cleaned + [j.Out(n)], valid + [j.Out(n)], removed)
  {
    hide j.Out, j.Outs, j.Removed;
    OutsGrow(j, UpTo(n), n);
    OutsGrow(j, j.Sorted(j.Removed(n), n), n);
  }

  ghost predicate SeenSoFar(ks: seq<Keyed>, n: nat, seen: set<string>)
    requires n <= |ks|
  {
    forall key :: key in seen <==> exists i :: 0 <= i < n && ks[i].key == key
  }

  lemma SeenStep(ks: seq<Keyed>, n: nat, seen: set<string>)
    requires n < |ks| && SeenSoFar(ks, n, seen)
    ensures ks[n].key in seen <==> !First(ks, n)
    ensures SeenSoFar(ks, n + 1, seen + {ks[n].key})
  {
  }

  // ---------------------------------------------------------------- a completed run

  /** What probing each unique address comes to, in work order. */
  function Answers(order: seq<string>, unique: map<string, Work>, probe: string -> Option<VerdictData>): (r: seq<Option<VerdictData>>)
    requires forall key :: key in order ==> key in unique
    ensures |r| == |order| && forall k :: 0 <= k < |order| ==> r[k] == probe(unique[order[k]].email)
  {
    if order == [] then []
    else Answers(order[..|order| - 1], unique, probe) + [probe(unique[order[|order| - 1]].email)]
  }

  lemma WorkPerKey(ks: seq<Keyed>, order: seq<string>, unique: map<string, Work>)
    requires order == Firsts(ks, |ks|) && FirstWork(ks, |ks|, unique)
    ensures forall key :: key in order <==> key in unique
    ensures forall x, y :: 0 <= x < y < |order| ==> order[x] != order[y]
    ensures |order| <= |ks|
  {
    FirstsAreDistinct(ks, |ks|);
    FirstsCoverRows(ks, |ks|, "");
    forall key
      ensures key in order <==> key in unique
    {
      FirstsCoverRows(ks, |ks|, key);
    }
  }

  ghost predicate AllJudged(j: Join, n: nat)
    requires n <= |j.ks|
  {
    forall i :: 0 <= i < n ==> j.ks[i].key in j.verdicts
  }

  /** The second pass joins exactly what the first pass read. */
  ghost predicate Complete(j: Join, check: Parser, m: Mapping, rows: seq<Row>) {
    && j.ks == KeyedRows(check, m, rows) && j.cells == TidiedRows(m, rows)
    && FirstWork(j.ks, |j.ks|, j.unique) && AllJudged(j, |j.ks|)
  }

  lemma EveryRowHasVerdict(j: Join, n: nat)
    requires j.Valid() && n == |j.ks|
    requires forall key :: key in Firsts(j.ks, n) ==> key in j.verdicts
    ensures AllJudged(j, n)
  {
    forall i | 0 <= i < n
      ensures j.ks[i].key in j.verdicts
    {
      FirstsCoverRows(j.ks, n, j.ks[i].key);
    }
  }

  /** The branch for a row without a verdict is never taken in a completed run. */
  lemma NoVerdictBranchIsUnreachable(j: Join, check: Parser, m: Mapping, rows: seq<Row>, i: nat)
    requires Complete(j, check, m, rows) && i < |rows|
    ensures j.Valid() && j.Out(i).verdict.Some?
  {
  }

  /** `valid` and `removed` are complementary subsequences of the file: both keep file order
      and every row is in exactly one of them. */
  lemma {:induction false} SortedPartition(j: Join, n: nat, removed: bool)
    requires n <= |j.ks|
    ensures forall x: nat :: x in j.Sorted(removed, n) <==> x < n && j.Removed(x) == removed
    ensures forall x, y :: 0 <= x < y < |j.Sorted(removed, n)| ==> j.Sorted(removed, n)[x] < j.Sorted(removed, n)[y]
  {
    hide j.Removed;
    if n > 0 {
      SortedPartition(j, n - 1, removed);
    }
  }

  lemma {:induction false} SortedLengths(j: Join, n: nat)
    requires n <= |j.ks|
    ensures |j.Sorted(true, n)| + |j.Sorted(false, n)| == n
  {
    hide j.Removed;
    if n > 0 {
      SortedLengths(j, n - 1);
    }
  }

  lemma WrittenLengths(j: Join, cleaned: seq<OutRow>, valid: seq<OutRow>, removed: seq<OutRow>)
    requires j.Valid() && Written(j, |j.ks|, cleaned, valid, removed)
    ensures |cleaned| == |j.ks| && |valid| + |removed| == |cleaned|
    ensures |removed| == |j.Sorted(true, |j.ks|)|
    ensures forall i :: 0 <= i < |j.ks| ==> cleaned[i] == j.Out(i)
  {
    SortedLengths(j, |j.ks|);
  }

  /** The valid file holds only first occurrences, so its keys are pairwise distinct. */
  lemma ValidRowsHaveDistinctKeys(j: Join, x: nat, y: nat)
    requires var kept := j.Sorted(false, |j.ks|); x < y < |kept|
    ensures var kept := j.Sorted(false, |j.ks|);
            First(j.ks, kept[x]) && First(j.ks, kept[y]) && j.ks[kept[x]].key != j.ks[kept[y]].key
  {
    SortedPartition(j, |j.ks|, false);
    var kept := j.Sorted(false, |j.ks|);
    assert kept[x] in kept && kept[y] in kept;
  }

  /** A duplicate names the canonical address of its first occurrence; other rows name nothing. */
  lemma DuplicateNamesFirst(j: Join, check: Parser, m: Mapping, rows: seq<Row>, i: nat) returns (first: nat)
    requires Complete(j, check, m, rows) && i < |rows|
    ensures j.Valid() && first <= i && First(j.ks, first) && j.ks[first].key == j.ks[i].key
    ensures j.Out(i).duplicateOf == if first < i then j.ks[first].work.email else ""
  {
    hide KeyedRows, TidiedRows;
    first := HasFirst(j.ks, i);
  }

  // ---------------------------------------------------------------- row accounting

  function StatusCount(keys: seq<string>, verdicts: map<string, VerdictData>, st: Status): nat {
    if keys == [] then 0
    else
      var key := keys[|keys| - 1];
      StatusCount(keys[..|keys| - 1], verdicts, st) + if key in verdicts && verdicts[key].status == st then 1 else 0
  }

  // A finished verify stage judges every row, by its own probe, and the job's counters
  // account for every removed row.
  lemma JudgedByProbe(j: Join, p: Plan, probe: string -> Option<VerdictData>)
    requires j.Valid() && p.Valid() && FirstWork(j.ks, |j.ks|, j.unique) && p.keys == Firsts(j.ks, |j.ks|)
    requires forall key :: key in p.keys ==> key in j.unique
    requires p.answers == Answers(p.keys, j.unique, probe) && forall k :: 0 <= k < |p.keys| ==> p.answers[k].Some?
    requires j.verdicts == InOrder(p, |p.keys|).verdicts
    ensures AllJudged(j, |j.ks|)
    ensures forall key :: key in j.verdicts ==> key in j.unique && probe(j.unique[key].email) == Some(j.verdicts[key])
    ensures InOrder(p, |p.keys|).processed == |p.keys|
    ensures |j.Sorted(true, |j.ks|)| == |j.ks| - |p.keys| + InOrder(p, |p.keys|).counts.invalid + InOrder(p, |p.keys|).counts.disposable
  {
    hide InOrder, Firsts, FirstWork, AllJudged, StatusCount, j.Sorted, Answers;
    var n := |p.keys|;
    InOrderVerdicts(p, n);
    forall key | key in j.verdicts
      ensures key in j.unique && probe(j.unique[key].email) == Some(j.verdicts[key])
    {
      var k :| 0 <= k < n && p.keys[k] == key;
    }
    EveryRowHasVerdict(j, |j.ks|);
    RemovedAccounting(j, |j.ks|);
    InOrderStatusCount(p, n, Invalid);
    InOrderStatusCount(p, n, Disposable);
    assert p.keys[..n] == p.keys;
  }

  // What assembling a finished verify stage's verdicts adds up to.
  lemma RunAccounts(j: Join, p: Plan, check: Parser, m: Mapping, rows: seq<Row>, probe: string -> Option<VerdictData>,
                    cleaned: seq<OutRow>, valid: seq<OutRow>, removed: seq<OutRow>)
    requires p.Valid() && j.ks == KeyedRows(check, m, rows) && j.cells == TidiedRows(m, rows)
    requires FirstWork(j.ks, |j.ks|, j.unique) && p.keys == Firsts(j.ks, |j.ks|)
    requires forall key :: key in p.keys ==> key in j.unique
    requires p.answers == Answers(p.keys, j.unique, probe) && forall k :: 0 <= k < |p.keys| ==> p.answers[k].Some?
    requires j.verdicts == InOrder(p, |p.keys|).verdicts && Written(j, |rows|, cleaned, valid, removed)
    ensures Complete(j, check, m, rows)
    ensures forall key :: key in j.verdicts ==> key in j.unique && probe(j.unique[key].email) == Some(j.verdicts[key])
    ensures InOrder(p, |p.keys|).processed == |p.keys|
    ensures |cleaned| == |rows| && |valid| + |removed| == |cleaned|
    ensures |removed| == |rows| - |p.keys| + InOrder(p, |p.keys|).counts.invalid + InOrder(p, |p.keys|).counts.disposable
  {
    hide KeyedRows, TidiedRows, Firsts, FirstWork, Written, InOrder, Answers, AllJudged;
    JudgedByProbe(j, p, probe);
    WrittenLengths(j, cleaned, valid, removed);
  }

  lemma StatusCountGrows(keys: seq<string>, key: string, verdicts: map<string, VerdictData>, st: Status)
    ensures StatusCount(keys + [key], verdicts, st) ==
            StatusCount(keys, verdicts, st) + if key in verdicts && verdicts[key].status == st then 1 else 0
  {
    assert (keys + [key])[..|keys + [key]| - 1] == keys;
  }

  /** Removed rows are the duplicates and the first occurrences judged invalid or disposable. */
  lemma {:induction false} RemovedAccounting(j: Join, n: nat)
    requires n <= |j.ks| && AllJudged(j, n)
    ensures |j.Sorted(true, n)| ==
            n - |Firsts(j.ks, n)| + StatusCount(Firsts(j.ks, n), j.verdicts, Invalid) +
            StatusCount(Firsts(j.ks, n), j.verdicts, Disposable)
  {
    hide First;
    if n > 0 {
      RemovedAccounting(j, n - 1);
      StatusCountGrows(Firsts(j.ks, n - 1), j.ks[n - 1].key, j.verdicts, Invalid);
      StatusCountGrows(Firsts(j.ks, n - 1), j.ks[n - 1].key, j.verdicts, Disposable);
    }
  }

  lemma NoneCounted(verdicts: map<string, VerdictData>, st: Status)
    ensures StatusCount([], verdicts, st) == 0 == NO_COUNTS.Of(st)
  {
  }

  lemma {:induction false} InOrderStatusCount(p: Plan, n: nat, st: Status)
    requires p.Valid() && n <= |p.keys| && forall k :: 0 <= k < |p.keys| ==> p.answers[k].Some?
    ensures InOrder(p, n).counts.Of(st) == StatusCount(p.keys[..n], InOrder(p, |p.keys|).verdicts, st)
  {
    hide InOrder, StatusCount;
    InOrderVerdicts(p, |p.keys|);
    InOrderStep(p, n);
    var full := InOrder(p, |p.keys|).verdicts;
    if n > 0 {
      InOrderStatusCount(p, n - 1, st);
      assert p.keys[..n] == p.keys[..n - 1] + [p.keys[n - 1]];
      StatusCountGrows(p.keys[..n - 1], p.keys[n - 1], full, st);
    } else {
      assert p.keys[..n] == [];
      NoneCounted(full, st);
    }
  }

  // ---------------------------------------------------------------- when a run completes

  /** Verifying raises for no row that is the first of its key. */
  ghost predicate NoProbeRaises(ks: seq<Keyed>, probe: string -> Option<VerdictData>) {
    forall i: nat :: i < |ks| && First(ks, i) ==> probe(ks[i].work.email).Some?
  }

  /** The plan's items are the unique addresses of the rows, with what probing each comes to. */
  ghost predicate IsWork(p: Plan, ks: seq<Keyed>, unique: map<string, Work>, probe: string -> Option<VerdictData>) {
    && p.Valid() && p.keys == Firsts(ks, |ks|) && FirstWork(ks, |ks|, unique)
    && forall k :: 0 <= k < |p.keys| ==> p.keys[k] in unique && p.answers[k] == probe(unique[p.keys[k]].email)
  }

  lemma RowOfKey(ks: seq<Keyed>, unique: map<string, Work>, key: string) returns (i: nat)
    requires FirstWork(ks, |ks|, unique) && key in Firsts(ks, |ks|)
    ensures i < |ks| && First(ks, i) && ks[i].key == key && key in unique && unique[key] == ks[i].work
  {
    FirstsCoverRows(ks, |ks|, key);
    var r :| 0 <= r < |ks| && ks[r].key == key;
    i := HasFirst(ks, r);
  }

  lemma AllAnsweredExactlyWhenNoProbeRaises(p: Plan, ks: seq<Keyed>, unique: map<string, Work>, probe: string -> Option<VerdictData>)
    requires IsWork(p, ks, unique, probe)
    ensures (forall k :: 0 <= k < |p.keys| ==> p.answers[k].Some?) <==> NoProbeRaises(ks, probe)
  {
    hide First, Firsts;
    forall k | 0 <= k < |p.keys|
      ensures NoProbeRaises(ks, probe) ==> p.answers[k].Some?
    {
      var i := RowOfKey(ks, unique, p.keys[k]);
    }
    forall i: nat | i < |ks| && First(ks, i)
      ensures (forall k :: 0 <= k < |p.keys| ==> p.answers[k].Some?) ==> probe(ks[i].work.email).Some?
    {
      FirstsCoverRows(ks, |ks|, ks[i].key);
      var k :| 0 <= k < |p.keys| && p.keys[k] == ks[i].key;
    }
  }

  lemma PlanIsWork(p: Plan, ks: seq<Keyed>, unique: map<string, Work>, probe: string -> Option<VerdictData>)
    requires p.Valid() && p.keys == Firsts(ks, |ks|) && FirstWork(ks, |ks|, unique)
    requires (forall key :: key in p.keys ==> key in unique) && p.answers == Answers(p.keys, unique, probe)
    ensures IsWork(p, ks, unique, probe)
    ensures (forall k :: 0 <= k < |p.keys| ==> p.answers[k].Some?) <==> NoProbeRaises(ks, probe)
  {
    hide First, Firsts, FirstWork, NoProbeRaises;
    AllAnsweredExactlyWhenNoProbeRaises(p, ks, unique, probe);
  }

  // ---------------------------------------------------------------- the read-model batches

  /** The record of a verdict; one without an address is left out. */
  function RecordOf(v: Option<VerdictData>, jobId: string): seq<Addresses.Record> {
    if v.Some? && Addresses.FromVerdict(v.value, jobId).email != "" then [Addresses.FromVerdict(v.value, jobId)] else []
  }

  /** The records of items `a`, ..., `b - 1`. */
  function RecordsBetween(p: Plan, a: nat, b: nat, jobId: string): seq<Addresses.Record>
    requires a <= b <= |p.answers|
  {
    if a == b then [] else RecordsBetween(p, a, b - 1, jobId) + RecordOf(p.answers[b - 1], jobId)
  }

  ghost function Upserted(t: map<Addresses.RowKey, Addresses.Record>, ws: string, records: seq<Addresses.Record>):
    map<Addresses.RowKey, Addresses.Record>
  {
    if Addresses.Distinct(records) then t + Addresses.AsTable(ws, records) else t
  }

  /** The verdicts of items below `b` are in the map. */
  predicate LandedIn(p: Plan, b: nat, verdicts: map<string, VerdictData>)
    requires b <= |p.keys| == |p.answers|
  {
    forall k :: 0 <= k < b ==> p.keys[k] in verdicts && p.answers[k] == Some(verdicts[p.keys[k]])
  }

  lemma LandedVerdicts(p: Plan, s: Stage, places: seq<Place>, i: nat, verdicts: map<string, VerdictData>)
    requires p.Valid() && Inv(p, s) && s.verdicts == verdicts
    requires i <= |p.keys| == |places| && Ready(p, s, places, 0, i) && AllLandedBelow(places, i)
    ensures LandedIn(p, i, verdicts)
  {
    hide CountOf, Tally;
  }

  lemma NothingRecorded(p: Plan, ws: string, jobId: string)
    ensures RecordsBetween(p, 0, 0, jobId) == [] && Addresses.AsTable(ws, []) == map[]
  {
  }

  lemma {:induction false} RecordsSplit(p: Plan, a: nat, b: nat, c: nat, jobId: string)
    requires a <= b <= c <= |p.answers|
    ensures RecordsBetween(p, a, c, jobId) == RecordsBetween(p, a, b, jobId) + RecordsBetween(p, b, c, jobId)
    decreases c
  {
    hide RecordOf;
    if b < c {
      RecordsSplit(p, a, b, c - 1, jobId);
    }
  }

  lemma {:induction false} AsTableJoins(ws: string, x: seq<Addresses.Record>, y: seq<Addresses.Record>)
    ensures Addresses.AsTable(ws, x + y) == Addresses.AsTable(ws, x) + Addresses.AsTable(ws, y)
  {
    if y == [] {
      assert x + y == x;
    } else {
      var n := |y| - 1;
      AsTableJoins(ws, x, y[..n]);
      assert (x + y)[..|x + y| - 1] == x + y[..n];
    }
  }

  lemma DistinctParts(x: seq<Addresses.Record>, y: seq<Addresses.Record>, z: seq<Addresses.Record>)
    requires Addresses.Distinct(x + y + z)
    ensures Addresses.Distinct(y)
  {
    var all := x + y + z;
    assert forall k :: 0 <= k < |y| ==> y[k] == all[|x| + k];
  }

  // Upserting a chunk onto what the earlier chunks left is upserting both at once.
  lemma RecordedNext(t: map<Addresses.RowKey, Addresses.Record>, p: Plan, a: nat, b: nat, ws: string, jobId: string)
    requires a <= b <= |p.answers| && Addresses.Distinct(RecordsBetween(p, 0, |p.answers|, jobId))
    ensures Upserted(t + Addresses.AsTable(ws, RecordsBetween(p, 0, a, jobId)), ws, RecordsBetween(p, a, b, jobId)) ==
            t + Addresses.AsTable(ws, RecordsBetween(p, 0, b, jobId))
  {
    hide RecordsBetween, Addresses.AsTable, Addresses.Distinct;
    RecordsSplit(p, 0, b, |p.answers|, jobId);
    RecordsSplit(p, 0, a, b, jobId);
    DistinctParts(RecordsBetween(p, 0, a, jobId), RecordsBetween(p, a, b, jobId), RecordsBetween(p, b, |p.answers|, jobId));
    AsTableJoins(ws, RecordsBetween(p, 0, a, jobId), RecordsBetween(p, a, b, jobId));
  }

  /** Every verdict is stored under the canonical address of what was verified. */
  ghost predicate Canonical(check: Parser, probe: string -> Option<VerdictData>) {
    forall email :: probe(email).Some? ==>
      Addresses.FromVerdict(probe(email).value, "").email == StoredAddress(check, email)
  }

  /** The bulk form of the engine is such a probe. */
  lemma VerifiedIsCanonical(l: Engine.Layers, dns: bool, smtp: bool, prober: Engine.Prober)
    ensures Canonical(l.check, email => Some(Engine.Verified(l, email, dns, smtp, prober)))
  {
    hide Engine.Verified, StoredAddress;
    forall email: string
      ensures Addresses.FromVerdict(Engine.Verified(l, email, dns, smtp, prober), "").email == StoredAddress(l.check, email)
    {
      StoredUnderChecked(l, email, dns, smtp, prober);
    }
  }

  lemma StoredUnderChecked(l: Engine.Layers, email: string, dns: bool, smtp: bool, prober: Engine.Prober)
    ensures Addresses.FromVerdict(Engine.Verified(l, email, dns, smtp, prober), "").email == StoredAddress(l.check, email)
  {
    hide Engine.Verified, DedupeKey;
    Engine.ValidScoresHighest(l, email, dns, smtp, prober, true);
    EmptyNeverStored(l, email);
  }

  lemma EmptyNeverStored(l: Engine.Layers, email: string)
    ensures l.check(email).Some? ==> StoredAddress(l.check, email) != ""
  {
    hide Strip, Lower, DropRootDots, BeforePlus, WithoutDots, CanonicalDomain;
  }

  lemma NoneRepeat()
    ensures Addresses.Distinct([])
  {
  }

  lemma DistinctGrows(records: seq<Addresses.Record>, r: Addresses.Record)
    requires Addresses.Distinct(records) && forall x :: x in records ==> x.email != r.email
    ensures Addresses.Distinct(records + [r])
  {
  }

  lemma {:induction false} RecordsNamed(p: Plan, emails: seq<string>, a: nat, b: nat, jobId: string)
    requires a <= b <= |p.answers| == |emails|
    requires forall k :: 0 <= k < |emails| && p.answers[k].Some? ==> Addresses.FromVerdict(p.answers[k].value, jobId).email == emails[k]
    requires forall x, y :: 0 <= x < y < |emails| ==> emails[x] != emails[y]
    ensures Addresses.Distinct(RecordsBetween(p, a, b, jobId))
    ensures forall r :: r in RecordsBetween(p, a, b, jobId) ==> exists k :: a <= k < b && r.email == emails[k]
    decreases b
  {
    hide Addresses.FromVerdict, Addresses.Distinct, RecordOf;
    if a < b {
      RecordsNamed(p, emails, a, b - 1, jobId);
      var before, last := RecordsBetween(p, a, b - 1, jobId), RecordOf(p.answers[b - 1], jobId);
      AtMostOneRecord(p.answers[b - 1], jobId);
      if last == [] {
        assert before + last == before;
      } else {
        assert last == [last[0]] && last[0].email == emails[b - 1];
        DistinctGrows(before, last[0]);
      }
    } else {
      NoneRepeat();
    }
  }

  lemma AtMostOneRecord(v: Option<VerdictData>, jobId: string)
    ensures RecordOf(v, jobId) == [] || (v.Some? && RecordOf(v, jobId) == [Addresses.FromVerdict(v.value, jobId)])
  {
  }

  function EmailsOf(keys: seq<string>, unique: map<string, Work>): (r: seq<string>)
    requires forall k :: 0 <= k < |keys| ==> keys[k] in unique
    ensures |r| == |keys| && forall k :: 0 <= k < |keys| ==> r[k] == unique[keys[k]].email
  {
    seq(|keys|, k requires 0 <= k < |keys| => unique[keys[k]].email)
  }

  lemma CanonicalWork(check: Parser, m: Mapping, rows: seq<Row>, unique: map<string, Work>, key: string) returns (raw: string)
    requires Honest(check) && FirstWork(KeyedRows(check, m, rows), |rows|, unique)
    requires key in Firsts(KeyedRows(check, m, rows), |rows|)
    ensures key in unique && DedupeKey(check, raw) == Keyed(key, unique[key])
    ensures StoredAddress(check, unique[key].email) == unique[key].email
  {
    hide DedupeKey, StoredAddress, First, Firsts, FirstWork;
    var i := RowOfKey(KeyedRows(check, m, rows), unique, key);
    raw := Strip(if m.email in rows[i] then rows[i][m.email] else "");
    WorkIsCanonical(check, raw);
  }

  /** Every batch of a run, indeed any stretch `a..b` of its unique addresses, has distinct
      addresses, so the table accepts it. */
  lemma ChunkWriteIsAccepted(check: Parser, m: Mapping, rows: seq<Row>, unique: map<string, Work>,
                             probe: string -> Option<VerdictData>, p: Plan, a: nat, b: nat, jobId: string)
    requires Honest(check) && Canonical(check, probe)
    requires IsWork(p, KeyedRows(check, m, rows), unique, probe) && a <= b <= |p.keys|
    ensures Addresses.Distinct(RecordsBetween(p, a, b, jobId))
  {
    hide DedupeKey, StoredAddress, First, Firsts, FirstWork, KeyedRows, RecordsBetween, Addresses.Distinct, Honest;
    var emails := EmailsOf(p.keys, unique);
    forall x | 0 <= x < |emails|
      ensures p.answers[x].Some? ==> Addresses.FromVerdict(p.answers[x].value, jobId).email == emails[x]
    {
      var raw := CanonicalWork(check, m, rows, unique, p.keys[x]);
      if p.answers[x].Some? {
        SameUnderAnyJob(p.answers[x].value, jobId);
      }
    }
    forall x, y | 0 <= x < y < |emails|
      ensures emails[x] != emails[y]
    {
      var one := CanonicalWork(check, m, rows, unique, p.keys[x]);
      var other := CanonicalWork(check, m, rows, unique, p.keys[y]);
      DistinctKeysDistinctAddresses(check, one, other);
    }
    RecordsNamed(p, emails, a, b, jobId);
  }

  lemma SameUnderAnyJob(v: VerdictData, jobId: string)
    ensures Addresses.FromVerdict(v, jobId).email == Addresses.FromVerdict(v, "").email
  {
  }

  /** A verdict on a work item's address is stored under that address. */
  lemma StoredUnderWork(l: Engine.Layers, raw: string, dns: bool, smtp: bool, prober: Engine.Prober, jobId: string)
    requires Honest(l.check)
    ensures var email := DedupeKey(l.check, raw).work.email;
            Addresses.FromVerdict(Engine.Verified(l, email, dns, smtp, prober), jobId).email == email
  {
    hide Engine.Verified, DedupeKey;
    var email := DedupeKey(l.check, raw).work.email;
    WorkIsCanonical(l.check, raw);
    StoredUnderChecked(l, email, dns, smtp, prober);
    SameUnderAnyJob(Engine.Verified(l, email, dns, smtp, prober), jobId);
  }

  lemma NormalizedIsLower(p: Parts)
    requires WellFormed(p)
    ensures Lower(NormalizeParts(p).email) == NormalizeParts(p).email
  {
    hide NormalizeParts, WellFormed;
    DomainOf(p);
    LowerTwice(p.local);
    LowerJoins(Lower(p.local) + "@", NormalizeParts(p).domain);
    LowerJoins(Lower(p.local), "@");
    assert Lower("@") == "@" by {
      assert "@"[1..] == "";
    }
  }

  /** A queued address is lower-cased; verifying it again comes to a verdict stored under it. */
  lemma RetryIsStoredUnderItsAddress(l: Engine.Layers, raw: string, dns: bool, smtp: bool, prober: Engine.Prober, jobId: string)
    requires Honest(l.check) && l.check(raw).Some?
    ensures var email := Lower(DedupeKey(l.check, raw).work.email);
            Addresses.FromVerdict(Engine.Verified(l, email, dns, smtp, prober), jobId).email == email
  {
    hide Engine.Verified, NormalizeParts, Lower, WellFormed;
    NormalizedIsLower(l.check(raw).value);
    StoredUnderWork(l, raw, dns, smtp, prober, jobId);
  }
}
