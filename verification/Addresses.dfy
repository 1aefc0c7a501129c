// The workspace read-model's batch write (src/eve/addresses.py): a portable upsert made
// of chunked deletes followed by one insert, inside one transaction.

module Addresses {
  import opened Common
  import opened Verdicts

  const CHUNK := 400

  datatype Record = Record(email: string, verdict: VerdictData, jobId: string)

  function FromVerdict(v: VerdictData, jobId: string): Record {
    Record(if v.normalizedEmail.Some? && v.normalizedEmail.value != "" then v.normalizedEmail.value else v.email, v, jobId)
  }

  type RowKey = (string, string)   // workspace, address

  ghost predicate Distinct(records: seq<Record>) {
    forall i, j :: 0 <= i < j < |records| ==> records[i].email != records[j].email
  }

  /** The batch as a table of its own. */
  function AsTable(ws: string, records: seq<Record>): map<RowKey, Record> {
    if records == [] then map[]
    else
      var n := |records| - 1;
      AsTable(ws, records[..n])[(ws, records[n].email) := records[n]]
  }

  function KeysOf(ws: string, records: seq<Record>): set<RowKey> {
    set r | r in records :: (ws, r.email)
  }

  lemma {:induction false} AsTableKeys(ws: string, records: seq<Record>)
    ensures AsTable(ws, records).Keys == KeysOf(ws, records)
  {
    if records != [] {
      var n := |records| - 1;
      AsTableKeys(ws, records[..n]);
      assert records == records[..n] + [records[n]];
      assert KeysOf(ws, records) == KeysOf(ws, records[..n]) + {(ws, records[n].email)};
    }
  }

  lemma KeyTaken(before: map<RowKey, Record>, ws: string, records: seq<Record>, n: nat)
    requires before.Keys !! KeysOf(ws, records) && n < |records|
    ensures (ws, records[n].email) in before + AsTable(ws, records[..n]) <==>
            exists j :: 0 <= j < n && records[j].email == records[n].email
  {
    AsTableKeys(ws, records[..n]);
    assert (ws, records[n].email) in KeysOf(ws, records);
    if (ws, records[n].email) in KeysOf(ws, records[..n]) {
      var taken :| taken in records[..n] && taken.email == records[n].email;
    }
    assert forall j :: 0 <= j < n ==> records[j] in records[..n];
  }

  class AddressStore {
    var table: map<RowKey, Record>

    constructor ()
      ensures table == map[]
    {
      table := map[];
    }

    /** Deletes the batch's keys, a chunk at a time. */
    method ClearKeys(records: seq<Record>, ws: string)
      modifies this
      ensures table == old(table) - KeysOf(ws, records)
    {
      var i := 0;
      while i < |records|
        invariant 0 <= i
        invariant table == old(table) - KeysOf(ws, records[..Min(i, |records|)])
      {
        var end := Min(i + CHUNK, |records|);
        assert records[..end] == records[..i] + records[i..end];
        table := table - KeysOf(ws, records[i..end]);
        i := i + CHUNK;
      }
      assert records[..|records|] == records;
    }

    /** Inserts row by row; a row whose key is taken violates the primary key. */
    method Insert(records: seq<Record>, ws: string) returns (ok: bool)
      requires table.Keys !! KeysOf(ws, records)
      modifies this
      ensures ok <==> Distinct(records)
      ensures ok ==> table == old(table) + AsTable(ws, records)
    {
      var n := 0;
      while n < |records|
        invariant n <= |records|
        invariant Distinct(records[..n])
        invariant table == old(table) + AsTable(ws, records[..n])
      {
        KeyTaken(old(table), ws, records, n);
        if (ws, records[n].email) in table {
          return false;
        }
        assert records[..n + 1][..n] == records[..n];
        table := table[(ws, records[n].email) := records[n]];
        n := n + 1;
      }
      assert records[..n] == records;
      return true;
    }

    /** `ok` is false when the insert violates the primary key and the transaction rolls back. */
    method UpsertMany(records: seq<Record>, ws: string) returns (ok: bool)
      modifies this
      ensures ok <==> Distinct(records)
      ensures table == if ok then old(table) + AsTable(ws, records) else old(table)
    {
      if records == [] {
        return true;
      }
      var before := table;
      ClearKeys(records, ws);
      ok := Insert(records, ws);
      if ok {
        AsTableKeys(ws, records);
      } else {
        table := before;
      }
    }
  }

  /** A write to one workspace leaves every row of every other workspace as it was. */
  lemma OtherWorkspacesUntouched(table: map<RowKey, Record>, ws: string, records: seq<Record>, key: RowKey)
    requires key.0 != ws
    ensures var after := table + AsTable(ws, records);
            (key in after <==> key in table) && (key in table ==> after[key] == table[key])
  {
    AsTableKeys(ws, records);
  }

  /** Within the workspace the batch's rows are stored as given. */
  lemma {:induction false} BatchIsStored(table: map<RowKey, Record>, ws: string, records: seq<Record>, k: nat)
    requires Distinct(records) && k < |records|
    ensures (ws, records[k].email) in table + AsTable(ws, records)
    ensures (table + AsTable(ws, records))[(ws, records[k].email)] == records[k]
  {
    AsTableKeys(ws, records);
    var n := |records| - 1;
    if k < n {
      BatchIsStored(table, ws, records[..n], k);
    }
  }

  /** Addresses the batch does not name keep their presence and their row. */
  lemma OtherAddressesUntouched(table: map<RowKey, Record>, ws: string, records: seq<Record>, email: string)
    requires forall r :: r in records ==> r.email != email
    ensures var key, after := (ws, email), table + AsTable(ws, records);
            (key in after <==> key in table) && (key in table ==> after[key] == table[key])
  {
    AsTableKeys(ws, records);
  }
}
