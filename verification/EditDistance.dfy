// Optimal string alignment distance, the measure behind domain suggestions
// (src/eve/layers/typo.py).  The distance is given three times: as the cheapest
// edit script, as a recurrence over prefixes, and as the rolling-row loop the
// engine runs.  This file proves that the three agree, with and without a cutoff.

module EditDistance {
  import opened Common

  // ---------------------------------------------------------------- edit scripts

  /** One instruction to a cursor that reads `a` from left to right and writes a new string. */
  datatype Edit = Keep | Delete | Insert(c: char) | Replace(c: char) | Swap

  datatype Cursor = Cursor(read: nat, written: string)

  function Perform(a: string, at: Cursor, e: Edit): Option<Cursor>
  {
    match e
    case Insert(c) => Some(Cursor(at.read, at.written + [c]))
    case Keep =>
      if at.read < |a| then Some(Cursor(at.read + 1, at.written + [a[at.read]])) else None
    case Delete =>
      if at.read < |a| then Some(Cursor(at.read + 1, at.written)) else None
    case Replace(c) =>
      if at.read < |a| then Some(Cursor(at.read + 1, at.written + [c])) else None
    case Swap =>
      if at.read + 1 < |a| then Some(Cursor(at.read + 2, at.written + [a[at.read + 1], a[at.read]])) else None
  }

  /** Runs a script from the start of `a`; `None` when an instruction reads past the end. */
  function Execute(a: string, script: seq<Edit>): Option<Cursor>
  {
    if script == [] then Some(Cursor(0, ""))
    else
      match Execute(a, script[..|script| - 1])
      case None => None
      case Some(at) => Perform(a, at, script[|script| - 1])
  }

  /** Every edit costs one, keeping a character is free. */
  function Cost(script: seq<Edit>): nat
  {
    if script == [] then 0
    else Cost(script[..|script| - 1]) + if script[|script| - 1].Keep? then 0 else 1
  }

  /** The script reads all of `a` and writes exactly `b`. */
  predicate Rewrites(a: string, b: string, script: seq<Edit>)
  {
    Execute(a, script) == Some(Cursor(|a|, b))
  }

  // ---------------------------------------------------------------- the recurrence

  function Mismatch(a: string, b: string, i: nat, j: nat): nat
    requires 0 < i <= |a| && 0 < j <= |b|
  {
    if a[i - 1] == b[j - 1] then 0 else 1
  }

  /** The last two characters of the two prefixes are each other's swap. */
  predicate Transposed(a: string, b: string, i: nat, j: nat)
    requires i <= |a| && j <= |b|
  {
    i > 1 && j > 1 && a[i - 1] == b[j - 2] && a[i - 2] == b[j - 1]
  }

  /** The cheapest way into a cell from the neighbours it may be reached from. */
  function Cell(above: nat, left: nat, diagonal: nat, mismatch: nat, swapped: Option<nat>): (c: nat)
    ensures c <= above + 1 && c <= left + 1 && c <= diagonal + mismatch
    ensures swapped.Some? ==> c <= swapped.value + 1
    ensures c == above + 1 || c == left + 1 || c == diagonal + mismatch || (swapped.Some? && c == swapped.value + 1)
  {
    var plain := Min(Min(above + 1, left + 1), diagonal + mismatch);
    if swapped.Some? then Min(plain, swapped.value + 1) else plain
  }

  /** Distance between the first `i` characters of `a` and the first `j` of `b`. */
  function Osa(a: string, b: string, i: nat, j: nat): nat
    requires i <= |a| && j <= |b|
    decreases i + j
  {
    if i == 0 then j
    else if j == 0 then i
    else
      Cell(Osa(a, b, i - 1, j), Osa(a, b, i, j - 1), Osa(a, b, i - 1, j - 1), Mismatch(a, b, i, j),
           if Transposed(a, b, i, j) then Some(Osa(a, b, i - 2, j - 2)) else None)
  }

  /** One unfolding of the recurrence. */
  lemma OsaCell(a: string, b: string, i: nat, j: nat)
    requires i <= |a| && j <= |b|
    ensures i == 0 ==> Osa(a, b, i, j) == j
    ensures j == 0 ==> Osa(a, b, i, j) == i
    ensures i > 0 && j > 0 && !Transposed(a, b, i, j) ==>
              Osa(a, b, i, j) == Cell(Osa(a, b, i - 1, j), Osa(a, b, i, j - 1), Osa(a, b, i - 1, j - 1),
                                      Mismatch(a, b, i, j), None)
    ensures Transposed(a, b, i, j) ==>
              Osa(a, b, i, j) == Cell(Osa(a, b, i - 1, j), Osa(a, b, i, j - 1), Osa(a, b, i - 1, j - 1),
                                      Mismatch(a, b, i, j), Some(Osa(a, b, i - 2, j - 2)))
  {
  }

  function Distance(a: string, b: string): nat {
    Osa(a, b, |a|, |b|)
  }

  // ---------------------------------------------------------------- recurrence = cheapest script

  // What the written prefix says about the instruction that completed it.
  lemma LastInstruction(a: string, b: string, at: Cursor, e: Edit, i: nat, j: nat)
    requires i <= |a| && j <= |b| && Perform(a, at, e) == Some(Cursor(i, b[..j]))
    ensures |at.written| <= j && at.written == b[..|at.written|]
    ensures |at.written| == j - (if e.Delete? then 0 else if e.Swap? then 2 else 1)
    ensures at.read == i - (if e.Insert? then 0 else if e.Swap? then 2 else 1)
    ensures e.Keep? ==> a[i - 1] == b[j - 1]
    ensures e.Swap? ==> Transposed(a, b, i, j)
  {
    var n := |at.written|;
    assert at.written == b[..j][..n] == b[..n];
    assert forall k :: n <= k < j ==> b[k] == b[..j][k];
  }

  lemma {:induction false} NoScriptIsCheaper(a: string, b: string, script: seq<Edit>, i: nat, j: nat)
    requires i <= |a| && j <= |b|
    requires Execute(a, script) == Some(Cursor(i, b[..j]))
    ensures Osa(a, b, i, j) <= Cost(script)
    decreases |script|
  {
    hide Osa, Cell, Perform;
    OsaCell(a, b, i, j);
    if script == [] {
      assert |b[..j]| == j;
    } else {
      var before, last := script[..|script| - 1], script[|script| - 1];
      var at := Execute(a, before).value;
      LastInstruction(a, b, at, last, i, j);
      NoScriptIsCheaper(a, b, before, at.read, |at.written|);
      OsaCell(a, b, at.read, |at.written|);
    }
  }

  lemma EmptyScript(a: string)
    ensures Cost([]) == 0 && Execute(a, []) == Some(Cursor(0, ""))
  {
  }

  lemma Appended(a: string, script: seq<Edit>, e: Edit)
    ensures Cost(script + [e]) == Cost(script) + if e.Keep? then 0 else 1
    ensures Execute(a, script).Some? ==> Execute(a, script + [e]) == Perform(a, Execute(a, script).value, e)
  {
    assert (script + [e])[..|script + [e]| - 1] == script;
  }

  lemma {:induction false} SomeScriptAttains(a: string, b: string, i: nat, j: nat) returns (script: seq<Edit>)
    requires i <= |a| && j <= |b|
    ensures Execute(a, script) == Some(Cursor(i, b[..j]))
    ensures Cost(script) == Osa(a, b, i, j)
    decreases i + j
  {
    hide Osa, Cell, Execute, Cost;
    OsaCell(a, b, i, j);
    if i == 0 && j == 0 {
      script := [];
      EmptyScript(a);
    } else if i == 0 || (j > 0 && Osa(a, b, i, j) == Osa(a, b, i, j - 1) + 1) {
      script := SomeScriptAttains(a, b, i, j - 1);
      OsaCell(a, b, i, j - 1);
      Appended(a, script, Insert(b[j - 1]));
      assert b[..j] == b[..j - 1] + [b[j - 1]];
      script := script + [Insert(b[j - 1])];
    } else if j == 0 || Osa(a, b, i, j) == Osa(a, b, i - 1, j) + 1 {
      script := SomeScriptAttains(a, b, i - 1, j);
      OsaCell(a, b, i - 1, j);
      Appended(a, script, Delete);
      script := script + [Delete];
    } else if Osa(a, b, i, j) == Osa(a, b, i - 1, j - 1) + Mismatch(a, b, i, j) {
      script := SomeScriptAttains(a, b, i - 1, j - 1);
      var e := if a[i - 1] == b[j - 1] then Keep else Replace(b[j - 1]);
      Appended(a, script, e);
      assert b[..j] == b[..j - 1] + [b[j - 1]];
      script := script + [e];
    } else {
      script := SomeScriptAttains(a, b, i - 2, j - 2);
      Appended(a, script, Swap);
      assert b[..j] == b[..j - 2] + [b[j - 2], b[j - 1]];
      script := script + [Swap];
    }
  }

  /** The distance is the cost of some script that rewrites `a` into `b`, and of no cheaper one. */
  lemma DistanceIsCheapestScript(a: string, b: string)
    ensures exists script :: Rewrites(a, b, script) && Cost(script) == Distance(a, b)
    ensures forall script :: Rewrites(a, b, script) ==> Distance(a, b) <= Cost(script)
  {
    assert b[..|b|] == b;
    var script := SomeScriptAttains(a, b, |a|, |b|);
    assert Rewrites(a, b, script);
    forall s | Rewrites(a, b, s)
      ensures Distance(a, b) <= Cost(s)
    {
      NoScriptIsCheaper(a, b, s, |a|, |b|);
    }
  }

  // ---------------------------------------------------------------- laws the pruning relies on

  lemma {:induction false} AtLeastLengthDifference(a: string, b: string, i: nat, j: nat)
    requires i <= |a| && j <= |b|
    ensures i - j <= Osa(a, b, i, j) && j - i <= Osa(a, b, i, j)
    decreases i + j
  {
    hide Osa, Cell;
    OsaCell(a, b, i, j);
    if i > 0 && j > 0 {
      AtLeastLengthDifference(a, b, i - 1, j);
      AtLeastLengthDifference(a, b, i, j - 1);
      AtLeastLengthDifference(a, b, i - 1, j - 1);
      if Transposed(a, b, i, j) {
        AtLeastLengthDifference(a, b, i - 2, j - 2);
      }
    }
  }

  lemma {:induction false} ZeroMeansEqual(a: string, b: string, i: nat, j: nat)
    requires i <= |a| && j <= |b|
    ensures Osa(a, b, i, j) == 0 <==> a[..i] == b[..j]
    decreases i + j
  {
    hide Osa, Cell;
    OsaCell(a, b, i, j);
    if i > 0 && j > 0 {
      ZeroMeansEqual(a, b, i - 1, j - 1);
      assert a[..i] == a[..i - 1] + [a[i - 1]] && b[..j] == b[..j - 1] + [b[j - 1]];
      assert a[..i] == b[..j] <==> a[..i - 1] == b[..j - 1] && a[i - 1] == b[j - 1] by {
        if a[..i] == b[..j] {
          assert a[..i - 1] == a[..i][..i - 1] && b[..j - 1] == b[..j][..j - 1];
          assert a[..i][i - 1] == b[..j][j - 1];
        }
      }
    } else {
      assert |a[..i]| == i && |b[..j]| == j;
    }
  }

  /** Distance zero is equality, so one edit is the least any two different strings can differ by. */
  lemma ZeroDistance(a: string, b: string)
    ensures Distance(a, b) == 0 <==> a == b
  {
    ZeroMeansEqual(a, b, |a|, |b|);
    assert a[..|a|] == a && b[..|b|] == b;
  }

  lemma {:induction false} Symmetric(a: string, b: string, i: nat, j: nat)
    requires i <= |a| && j <= |b|
    ensures Osa(a, b, i, j) == Osa(b, a, j, i)
    decreases i + j
  {
    hide Osa, Cell;
    OsaCell(a, b, i, j);
    OsaCell(b, a, j, i);
    if i > 0 && j > 0 {
      Symmetric(a, b, i - 1, j);
      Symmetric(a, b, i, j - 1);
      Symmetric(a, b, i - 1, j - 1);
      if Transposed(a, b, i, j) {
        Symmetric(a, b, i - 2, j - 2);
      }
    }
  }

  /** Everything on row `i` of the table costs more than `limit`. */
  predicate RowExceeds(a: string, b: string, i: nat, limit: int)
    requires i <= |a|
  {
    forall j: nat :: j <= |b| ==> Osa(a, b, i, j) > limit
  }

  // A transposition reads row i - 2, but substituting instead shows that row i - 1
  // is already within one of that cell; so one exceeding row is enough.
  lemma {:induction false} ExceedingRowSpreads(a: string, b: string, i: nat, limit: int, j: nat)
    requires i < |a| && j <= |b| && RowExceeds(a, b, i, limit)
    ensures Osa(a, b, i + 1, j) > limit
    decreases j
  {
    hide Osa, Cell;
    OsaCell(a, b, i + 1, j);
    OsaCell(a, b, i, 0);
    assert Osa(a, b, i, 0) > limit;
    if j > 0 {
      ExceedingRowSpreads(a, b, i, limit, j - 1);
      assert Osa(a, b, i, j) > limit && Osa(a, b, i, j - 1) > limit;
      if Transposed(a, b, i + 1, j) {
        OsaCell(a, b, i, j - 1);
        assert Osa(a, b, i, j - 1) <= Osa(a, b, i - 1, j - 2) + 1;
      }
    }
  }

  lemma {:induction false} ExceedingRowIsFinal(a: string, b: string, i: nat, limit: int)
    requires i <= |a| && RowExceeds(a, b, i, limit)
    ensures Distance(a, b) > limit
    decreases |a| - i
  {
    if i < |a| {
      forall j: nat {:trigger Osa(a, b, i + 1, j)} | j <= |b|
        ensures Osa(a, b, i + 1, j) > limit
      {
        ExceedingRowSpreads(a, b, i, limit, j);
      }
      ExceedingRowIsFinal(a, b, i + 1, limit);
    }
  }

  // ---------------------------------------------------------------- the rolling-row loop

  /** The first `n` cells of `row` hold row `i` of the table. */
  ghost predicate HoldsRow(row: array<int>, a: string, b: string, i: nat, n: nat)
    requires i <= |a| && n <= |b| + 1
    reads row
  {
    row.Length == |b| + 1 && forall j: nat :: j < n ==> row[j] == Osa(a, b, i, j)
  }

  method RowMinimum(row: array<int>) returns (m: int)
    requires row.Length > 0
    ensures exists k :: 0 <= k < row.Length && row[k] == m
    ensures forall k :: 0 <= k < row.Length ==> m <= row[k]
  {
    m := row[0];
    for k := 1 to row.Length
      invariant exists x :: 0 <= x < k && row[x] == m
      invariant forall x :: 0 <= x < k ==> m <= row[x]
    {
      if row[k] < m {
        m := row[k];
      }
    }
  }

  method FillRow(a: string, b: string, i: nat, prev2: array<int>, prev: array<int>) returns (cur: array<int>)
    requires 1 <= i <= |a|
    requires HoldsRow(prev, a, b, i - 1, |b| + 1)
    requires i > 1 ==> HoldsRow(prev2, a, b, i - 2, |b| + 1)
    ensures fresh(cur) && HoldsRow(cur, a, b, i, |b| + 1)
  {
    hide Osa;
    cur := new int[|b| + 1](_ => 0);
    cur[0] := i;
    OsaCell(a, b, i, 0);
    for j := 1 to |b| + 1
      invariant HoldsRow(cur, a, b, i, j)
    {
      OsaCell(a, b, i, j);
      var cost := if a[i - 1] == b[j - 1] then 0 else 1;
      var best := Min(Min(prev[j] + 1, cur[j - 1] + 1), prev[j - 1] + cost);
      if i > 1 && j > 1 && a[i - 1] == b[j - 2] && a[i - 2] == b[j - 1] {
        best := Min(best, prev2[j - 2] + 1);
      }
      cur[j] := best;
    }
  }

  /** Exact up to the cutoff, and above the cutoff whenever the true distance is. */
  predicate WithinCutoff(result: int, truth: int, maxDist: Option<int>)
  {
    if maxDist.None? || truth <= maxDist.value then result == truth else result > maxDist.value
  }

  method DamerauLevenshtein(a: string, b: string, maxDist: Option<int>) returns (d: int)
    ensures WithinCutoff(d, Distance(a, b), maxDist)
  {
    hide Osa;
    OsaCell(a, b, |a|, |b|);
    if |a| == 0 {
      return |b|;
    }
    if |b| == 0 {
      return |a|;
    }
    AtLeastLengthDifference(a, b, |a|, |b|);
    if maxDist.Some? && Abs(|a| - |b|) > maxDist.value {
      return maxDist.value + 1;
    }
    var prev2 := new int[0];
    var prev := new int[|b| + 1](k => k);
    forall j: nat | j <= |b|
      ensures Osa(a, b, 0, j) == j
    {
      OsaCell(a, b, 0, j);
    }
    for i := 1 to |a| + 1
      invariant HoldsRow(prev, a, b, i - 1, |b| + 1)
      invariant i > 1 ==> HoldsRow(prev2, a, b, i - 2, |b| + 1)
    {
      var cur := FillRow(a, b, i, prev2, prev);
      if maxDist.Some? {
        var least := RowMinimum(cur);
        if least > maxDist.value {
          assert RowExceeds(a, b, i, maxDist.value);
          ExceedingRowIsFinal(a, b, i, maxDist.value);
          return maxDist.value + 1;
        }
      }
      prev2, prev := prev, cur;
    }
    return prev[|b|];
  }
}
