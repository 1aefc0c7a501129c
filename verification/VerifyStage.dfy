// The chunked, bounded-concurrency verify stage of a bulk run (src/eve/jobs/pipeline.py,
// src/eve/jobs/models.py).  Work items are taken in chunks; inside a chunk any number up
// to the limit are being probed at once and they finish in any order.

module VerifyStage {
  import opened Common
  import opened Verdicts

  // ---------------------------------------------------------------- tallies

  datatype Counts = Counts(valid: nat, invalid: nat, risky: nat, unknown: nat, disposable: nat) {
    function Of(s: Status): nat {
      match s
      case Valid => valid
      case Invalid => invalid
      case Risky => risky
      case Unknown => unknown
      case Disposable => disposable
    }

    function Bump(s: Status): (c: Counts)
      ensures forall t :: c.Of(t) == Of(t) + if s == t then 1 else 0
      ensures c.Sum() == Sum() + 1
    {
      match s
      case Valid => this.(valid := valid + 1)
      case Invalid => this.(invalid := invalid + 1)
      case Risky => this.(risky := risky + 1)
      case Unknown => this.(unknown := unknown + 1)
      case Disposable => this.(disposable := disposable + 1)
    }

    function Sum(): nat {
      valid + invalid + risky + unknown + disposable
    }
  }

  const NO_COUNTS := Counts(0, 0, 0, 0, 0)

  // ---------------------------------------------------------------- the stage

  /** The unique keys in file order, what probing each one comes to (`None`: it raises),
      and the two settings. */
  datatype Plan = Plan(keys: seq<string>, answers: seq<Option<VerdictData>>, batch: int, limit: int) {
    ghost predicate Valid() {
      && |answers| == |keys|
      && forall i, j :: 0 <= i < j < |keys| ==> keys[i] != keys[j]
    }

    function Permits(): int {
      Max(1, limit)
    }

    function NextEnd(from: nat): nat
      requires from <= |keys|
    {
      Min(|keys|, from + Max(1, batch))
    }
  }

  datatype Place = Pending | Running | Landed | Raised

  datatype Stage = Stage(
    handedOut: nat,                        // chunks opened so far cover keys[..handedOut]
    places: seq<Place>,                    // where each item is
    verdicts: map<string, VerdictData>,
    counts: Counts,
    processed: nat,
    probed: seq<nat>                       // every probe started, in order
  )

  function AllAt(x: Place, n: nat): (places: seq<Place>)
    ensures |places| == n && forall k :: 0 <= k < n ==> places[k] == x
  {
    if n == 0 then [] else AllAt(x, n - 1) + [x]
  }

  function Begin(p: Plan): Stage {
    Stage(0, AllAt(Pending, |p.keys|), map[], NO_COUNTS, 0, [])
  }

  function CountOf(places: seq<Place>, x: Place): nat {
    if places == [] then 0
    else CountOf(places[..|places| - 1], x) + if places[|places| - 1] == x then 1 else 0
  }

  datatype Event = OpenChunk | Start(k: nat) | Finish(k: nat) | Raise(k: nat)

  /** `gather` opens the next chunk only when everything before it has landed; an item starts
      when the semaphore has a permit; a started item ends as its probe does. */
  predicate Enabled(p: Plan, s: Stage, e: Event)
  {
    && |s.places| == |p.answers| == |p.keys| && s.handedOut <= |p.keys|
    && match e
       case OpenChunk => s.handedOut < |p.keys| && forall k :: 0 <= k < s.handedOut ==> s.places[k] == Landed
       case Start(k) => k < s.handedOut && s.places[k] == Pending && CountOf(s.places, Running) < p.Permits()
       case Finish(k) => k < |p.keys| && s.places[k] == Running && p.answers[k].Some?
       case Raise(k) => k < |p.keys| && s.places[k] == Running && p.answers[k].None?
  }

  function Apply(p: Plan, s: Stage, e: Event): Stage
    requires Enabled(p, s, e)
  {
    match e
    case OpenChunk => s.(handedOut := p.NextEnd(s.handedOut))
    case Start(k) => s.(places := s.places[k := Running], probed := s.probed + [k])
    case Finish(k) =>
      var v := p.answers[k].value;
      s.(places := s.places[k := Landed], verdicts := s.verdicts[p.keys[k] := v],
         counts := s.counts.Bump(v.status), processed := s.processed + 1)
    case Raise(k) => s.(places := s.places[k := Raised])
  }

  predicate Finished(p: Plan, s: Stage) {
    |s.places| == |p.keys| <= s.handedOut && forall k :: 0 <= k < |s.places| ==> s.places[k] == Landed
  }

  // ---------------------------------------------------------------- invariant

  /** Landed items with a given status. */
  function Tally(p: Plan, places: seq<Place>, st: Status): nat
    requires |places| <= |p.answers|
  {
    if places == [] then 0
    else
      var k := |places| - 1;
      Tally(p, places[..k], st) +
      if places[k] == Landed && p.answers[k].Some? && p.answers[k].value.status == st then 1 else 0
  }

  lemma {:induction false} CountAfterUpdate(places: seq<Place>, k: nat, now: Place, x: Place)
    requires k < |places|
    ensures CountOf(places[k := now], x) + (if places[k] == x then 1 else 0) ==
            CountOf(places, x) + if now == x then 1 else 0
  {
    var n := |places| - 1;
    if k < n {
      CountAfterUpdate(places[..n], k, now, x);
      assert places[k := now][..n] == places[..n][k := now];
    } else {
      assert places[k := now][..n] == places[..n];
    }
  }

  lemma {:induction false} TallyAfterUpdate(p: Plan, places: seq<Place>, k: nat, now: Place, st: Status)
    requires k < |places| <= |p.answers| && places[k] != Landed
    ensures Tally(p, places[k := now], st) == Tally(p, places, st) +
            if now == Landed && p.answers[k].Some? && p.answers[k].value.status == st then 1 else 0
  {
    var n := |places| - 1;
    if k < n {
      TallyAfterUpdate(p, places[..n], k, now, st);
      assert places[k := now][..n] == places[..n][k := now];
    } else {
      assert places[k := now][..n] == places[..n];
    }
  }

  ghost predicate Shaped(p: Plan, s: Stage) {
    && |s.places| == |p.keys| && s.handedOut <= |p.keys|
    && (forall k :: s.handedOut <= k < |s.places| ==> s.places[k] == Pending)
    && CountOf(s.places, Running) <= p.Permits()
  }

  ghost predicate ProbedOnce(s: Stage) {
    && (forall k: nat :: k in s.probed <==> k < |s.places| && s.places[k] != Pending)
    && (forall i, j :: 0 <= i < j < |s.probed| ==> s.probed[i] != s.probed[j])
  }

  ghost predicate Recorded(p: Plan, s: Stage)
    requires p.Valid() && Shaped(p, s)
  {
    && (forall k :: 0 <= k < |s.places| && s.places[k] == Landed ==>
          p.answers[k].Some? && p.keys[k] in s.verdicts && s.verdicts[p.keys[k]] == p.answers[k].value)
    && (forall key :: key in s.verdicts ==> exists k :: 0 <= k < |s.places| && s.places[k] == Landed && p.keys[k] == key)
  }

  ghost predicate Counted(p: Plan, s: Stage)
    requires p.Valid() && Shaped(p, s)
  {
    && s.processed == |s.verdicts| == s.counts.Sum() == CountOf(s.places, Landed)
    && forall st :: s.counts.Of(st) == Tally(p, s.places, st)
  }

  ghost predicate Inv(p: Plan, s: Stage)
    requires p.Valid()
  {
    Shaped(p, s) && ProbedOnce(s) && Recorded(p, s) && Counted(p, s)
  }

  lemma PendingStep(p: Plan, n: nat, st: Status)
    requires n < |p.answers|
    ensures CountOf(AllAt(Pending, n + 1), Running) == CountOf(AllAt(Pending, n), Running)
    ensures CountOf(AllAt(Pending, n + 1), Landed) == CountOf(AllAt(Pending, n), Landed)
    ensures Tally(p, AllAt(Pending, n + 1), st) == Tally(p, AllAt(Pending, n), st)
  {
    assert AllAt(Pending, n + 1)[..n] == AllAt(Pending, n);
  }

  lemma {:induction false} NothingLandedYet(p: Plan, n: nat, st: Status)
    requires p.Valid() && n <= |p.keys|
    ensures CountOf(AllAt(Pending, n), Running) == CountOf(AllAt(Pending, n), Landed) == 0
    ensures Tally(p, AllAt(Pending, n), st) == 0
  {
    if n > 0 {
      NothingLandedYet(p, n - 1, st);
      PendingStep(p, n - 1, st);
    }
  }

  lemma BeginInv(p: Plan)
    requires p.Valid()
    ensures Inv(p, Begin(p))
  {
    forall st
      ensures Tally(p, AllAt(Pending, |p.keys|), st) == 0 == NO_COUNTS.Of(st)
    {
      NothingLandedYet(p, |p.keys|, st);
    }
    NothingLandedYet(p, |p.keys|, Valid);
  }

  lemma EventKeepsShape(p: Plan, s: Stage, e: Event)
    requires p.Valid() && Shaped(p, s) && Enabled(p, s, e)
    ensures Shaped(p, Apply(p, s, e))
  {
    if !e.OpenChunk? {
      CountAfterUpdate(s.places, e.k, Apply(p, s, e).places[e.k], Running);
    }
  }

  lemma EventKeepsProbed(p: Plan, s: Stage, e: Event)
    requires p.Valid() && ProbedOnce(s) && Enabled(p, s, e)
    ensures ProbedOnce(Apply(p, s, e))
  {
  }

  lemma FinishIsFirst(p: Plan, s: Stage, k: nat)
    requires p.Valid() && Shaped(p, s) && Recorded(p, s) && Enabled(p, s, Finish(k))
    ensures p.keys[k] !in s.verdicts
  {
    assert s.places[k] != Landed;
  }

  lemma SameLanded(p: Plan, s: Stage, next: Stage)
    requires p.Valid() && Shaped(p, s) && Shaped(p, next) && Recorded(p, s)
    requires next.verdicts == s.verdicts
    requires forall k :: 0 <= k < |p.keys| ==> (next.places[k] == Landed <==> s.places[k] == Landed)
    ensures Recorded(p, next)
  {
  }

  lemma OneMoreNamed(p: Plan, places: seq<Place>, verdicts: map<string, VerdictData>, k: nat, after: map<string, VerdictData>)
    requires |places| == |p.keys| && k < |p.keys| && after.Keys == verdicts.Keys + {p.keys[k]}
    requires forall key :: key in verdicts ==> exists x :: 0 <= x < |places| && places[x] == Landed && p.keys[x] == key
    ensures forall key :: key in after ==>
              exists x :: 0 <= x < |places| && places[k := Landed][x] == Landed && p.keys[x] == key
  {
    var now := places[k := Landed];
    forall key | key in after
      ensures exists x :: 0 <= x < |places| && now[x] == Landed && p.keys[x] == key
    {
      if key in verdicts {
        var x :| 0 <= x < |places| && places[x] == Landed && p.keys[x] == key;
        assert now[x] == Landed;
      } else {
        assert now[k] == Landed;
      }
    }
  }

  lemma OneMoreLanded(p: Plan, s: Stage, next: Stage, k: nat)
    requires p.Valid() && Shaped(p, s) && Shaped(p, next) && Recorded(p, s)
    requires k < |p.keys| && p.answers[k].Some? && next.places == s.places[k := Landed]
    requires next.verdicts == s.verdicts[p.keys[k] := p.answers[k].value]
    ensures Recorded(p, next)
  {
    hide CountOf;
    OneMoreNamed(p, s.places, s.verdicts, k, next.verdicts);
    forall x | 0 <= x < |next.places| && next.places[x] == Landed
      ensures p.answers[x].Some? && p.keys[x] in next.verdicts && next.verdicts[p.keys[x]] == p.answers[x].value
    {
      assert x != k ==> s.places[x] == Landed && p.keys[x] != p.keys[k];
    }
  }

  lemma EventKeepsRecords(p: Plan, s: Stage, e: Event)
    requires p.Valid() && Shaped(p, s) && Recorded(p, s) && Enabled(p, s, e)
    ensures Shaped(p, Apply(p, s, e)) && Recorded(p, Apply(p, s, e))
  {
    hide Recorded, CountOf;
    EventKeepsShape(p, s, e);
    if e.Finish? {
      OneMoreLanded(p, s, Apply(p, s, e), e.k);
    } else {
      SameLanded(p, s, Apply(p, s, e));
    }
  }

  lemma EventKeepsCounts(p: Plan, s: Stage, e: Event)
    requires p.Valid() && Shaped(p, s) && Recorded(p, s) && Counted(p, s) && Enabled(p, s, e)
    ensures Shaped(p, Apply(p, s, e)) && Counted(p, Apply(p, s, e))
  {
    EventKeepsShape(p, s, e);
    if e.Finish? {
      FinishIsFirst(p, s, e.k);
    }
    hide Recorded, Shaped;
    if !e.OpenChunk? {
      var now := Apply(p, s, e).places[e.k];
      CountAfterUpdate(s.places, e.k, now, Landed);
      forall st
        ensures Apply(p, s, e).counts.Of(st) == Tally(p, s.places[e.k := now], st)
      {
        TallyAfterUpdate(p, s.places, e.k, now, st);
      }
    }
  }

  lemma EventKeepsInv(p: Plan, s: Stage, e: Event)
    requires p.Valid() && Inv(p, s) && Enabled(p, s, e)
    ensures Inv(p, Apply(p, s, e))
  {
    EventKeepsShape(p, s, e);
    EventKeepsProbed(p, s, e);
    EventKeepsRecords(p, s, e);
    EventKeepsCounts(p, s, e);
  }

  // ---------------------------------------------------------------- every run

  ghost predicate IsRun(p: Plan, run: seq<Stage>, events: seq<Event>) {
    && |run| == |events| + 1 && run[0] == Begin(p)
    && forall i :: 0 <= i < |events| ==> Enabled(p, run[i], events[i]) && run[i + 1] == Apply(p, run[i], events[i])
  }

  lemma {:induction false} RunKeepsInv(p: Plan, run: seq<Stage>, events: seq<Event>, i: nat)
    requires p.Valid() && IsRun(p, run, events) && i < |run|
    ensures Inv(p, run[i])
  {
    hide Inv;
    if i == 0 {
      BeginInv(p);
    } else {
      RunKeepsInv(p, run, events, i - 1);
      EventKeepsInv(p, run[i - 1], events[i - 1]);
    }
  }

  lemma {:induction false} CountWithinLength(places: seq<Place>, x: Place)
    ensures CountOf(places, x) <= |places|
  {
    if places != [] {
      CountWithinLength(places[..|places| - 1], x);
    }
  }

  /** Whatever the completion order: never more probes at once than permits, no item probed
      twice, and the progress figures agree with each other at every moment. */
  lemma EveryStepIsAccounted(p: Plan, run: seq<Stage>, events: seq<Event>, i: nat)
    requires p.Valid() && IsRun(p, run, events) && i < |run|
    ensures var s := run[i];
            && CountOf(s.places, Running) <= Max(1, p.limit)
            && s.processed == |s.verdicts| == s.counts.Sum() <= |p.keys|
            && forall x, y :: 0 <= x < y < |s.probed| ==> s.probed[x] != s.probed[y]
  {
    RunKeepsInv(p, run, events, i);
    CountWithinLength(run[i].places, Landed);
  }

  // ---------------------------------------------------------------- chunks

  /** `m` whole chunks, or all there is. */
  ghost predicate WholeChunks(p: Plan, end: nat, m: nat) {
    end == Min(|p.keys|, m * Max(1, p.batch))
  }

  lemma OneChunkMore(p: Plan, end: nat, m: nat)
    requires WholeChunks(p, end, m) && end < |p.keys|
    ensures WholeChunks(p, p.NextEnd(end), m + 1) && end == m * Max(1, p.batch)
  {
    assert (m + 1) * Max(1, p.batch) == m * Max(1, p.batch) + Max(1, p.batch);
  }

  /** Items are handed out in chunks of the batch size, at least one, and nothing of a chunk is
      handed out before everything of the earlier chunks has landed. */
  lemma {:induction false} HandedOutInChunks(p: Plan, run: seq<Stage>, events: seq<Event>, i: nat) returns (m: nat)
    requires p.Valid() && IsRun(p, run, events) && i < |run|
    ensures WholeChunks(p, run[i].handedOut, m)
    ensures |run[i].places| == |p.keys| && forall k :: 0 <= k < Min(|p.keys|, (m - 1) * Max(1, p.batch)) ==> run[i].places[k] == Landed
  {
    hide CountOf, WholeChunks;
    if i == 0 {
      m := 0;
      NoChunkYet(p);
    } else {
      m := HandedOutInChunks(p, run, events, i - 1);
      if events[i - 1].OpenChunk? {
        OneChunkMore(p, run[i - 1].handedOut, m);
        m := m + 1;
      }
    }
  }

  lemma NoChunkYet(p: Plan)
    ensures WholeChunks(p, 0, 0) && (0 - 1) * Max(1, p.batch) <= 0
  {
  }

  // ---------------------------------------------------------------- the result of a finished stage

  datatype Result = Result(verdicts: map<string, VerdictData>, counts: Counts, processed: nat)

  /** Verifying the first `n` unique addresses one after the other. */
  function InOrder(p: Plan, n: nat): Result
    requires n <= |p.keys| == |p.answers| && forall k :: 0 <= k < n ==> p.answers[k].Some?
  {
    if n == 0 then Result(map[], NO_COUNTS, 0)
    else
      var r, v := InOrder(p, n - 1), p.answers[n - 1].value;
      Result(r.verdicts[p.keys[n - 1] := v], r.counts.Bump(v.status), r.processed + 1)
  }

  /** One unfolding of the in-order run. */
  lemma InOrderStep(p: Plan, n: nat)
    requires n <= |p.keys| == |p.answers| && forall k :: 0 <= k < n ==> p.answers[k].Some?
    ensures n == 0 ==> InOrder(p, n) == Result(map[], NO_COUNTS, 0)
    ensures n > 0 ==>
              var r, v := InOrder(p, n - 1), p.answers[n - 1].value;
              InOrder(p, n) == Result(r.verdicts[p.keys[n - 1] := v], r.counts.Bump(v.status), r.processed + 1)
  {
  }

  lemma {:induction false} InOrderVerdicts(p: Plan, n: nat)
    requires p.Valid() && n <= |p.keys| && forall k :: 0 <= k < n ==> p.answers[k].Some?
    ensures InOrder(p, n).processed == n
    ensures forall k :: 0 <= k < n ==> p.keys[k] in InOrder(p, n).verdicts && InOrder(p, n).verdicts[p.keys[k]] == p.answers[k].value
    ensures forall key :: key in InOrder(p, n).verdicts ==> exists k :: 0 <= k < n && p.keys[k] == key
  {
    hide InOrder;
    InOrderStep(p, n);
    if n > 0 {
      InOrderVerdicts(p, n - 1);
      var before, after := InOrder(p, n - 1).verdicts, InOrder(p, n).verdicts;
      forall key | key in after
        ensures exists k :: 0 <= k < n && p.keys[k] == key
      {
        if key in before {
          var k :| 0 <= k < n - 1 && p.keys[k] == key;
        }
      }
    }
  }

  lemma TallyOfNext(p: Plan, n: nat, st: Status)
    requires n < |p.answers|
    ensures Tally(p, AllAt(Landed, n + 1), st) ==
            Tally(p, AllAt(Landed, n), st) + if p.answers[n].Some? && p.answers[n].value.status == st then 1 else 0
  {
    assert AllAt(Landed, n + 1)[..n] == AllAt(Landed, n);
  }

  lemma TallyOfNone(p: Plan, st: Status)
    ensures Tally(p, AllAt(Landed, 0), st) == 0
  {
  }

  lemma {:induction false} InOrderCounts(p: Plan, n: nat, st: Status)
    requires p.Valid() && n <= |p.keys| && forall k :: 0 <= k < n ==> p.answers[k].Some?
    ensures InOrder(p, n).counts.Of(st) == Tally(p, AllAt(Landed, n), st)
  {
    hide InOrder, Tally, AllAt;
    InOrderStep(p, n);
    if n > 0 {
      InOrderCounts(p, n - 1, st);
      TallyOfNext(p, n - 1, st);
    } else {
      TallyOfNone(p, st);
    }
  }

  lemma CountsEqual(c: Counts, d: Counts)
    requires forall st :: c.Of(st) == d.Of(st)
    ensures c == d
  {
    assert c.Of(Valid) == d.Of(Valid) && c.Of(Invalid) == d.Of(Invalid) && c.Of(Risky) == d.Of(Risky);
    assert c.Of(Unknown) == d.Of(Unknown) && c.Of(Disposable) == d.Of(Disposable);
  }

  lemma FinishedVerdicts(p: Plan, s: Stage)
    requires p.Valid() && Shaped(p, s) && Recorded(p, s) && Finished(p, s)
    ensures forall k :: 0 <= k < |p.keys| ==> p.answers[k].Some?
    ensures s.verdicts == InOrder(p, |p.keys|).verdicts
  {
    hide InOrder, CountOf, Tally;
    var r := InOrder(p, |p.keys|).verdicts;
    InOrderVerdicts(p, |p.keys|);
    forall key | key in s.verdicts
      ensures key in r && s.verdicts[key] == r[key]
    {
      var k :| 0 <= k < |s.places| && s.places[k] == Landed && p.keys[k] == key;
    }
    forall key | key in r
      ensures key in s.verdicts
    {
      var k :| 0 <= k < |p.keys| && p.keys[k] == key;
      assert s.places[k] == Landed;
    }
  }

  lemma FinishedEqualsInOrder(p: Plan, s: Stage)
    requires p.Valid() && Inv(p, s) && Finished(p, s)
    ensures forall k :: 0 <= k < |p.keys| ==> p.answers[k].Some?
    ensures Result(s.verdicts, s.counts, s.processed) == InOrder(p, |p.keys|)
    ensures |s.probed| == |p.keys| && forall k: nat :: k < |p.keys| ==> k in s.probed
  {
    hide InOrder, Tally, CountOf;
    FinishedVerdicts(p, s);
    FinishedCounts(p, s);
    assert forall k: nat :: k in s.probed <==> k < |p.keys| by {
      assert forall k :: 0 <= k < |p.keys| ==> s.places[k] == Landed;
    }
    EachOnce(s.probed, |p.keys|);
  }

  lemma SameCounts(p: Plan, c: Counts)
    requires p.Valid() && forall k :: 0 <= k < |p.keys| ==> p.answers[k].Some?
    requires forall st :: c.Of(st) == Tally(p, AllAt(Landed, |p.keys|), st)
    ensures c == InOrder(p, |p.keys|).counts
  {
    hide InOrder, Tally, AllAt;
    var n := |p.keys|;
    forall st
      ensures c.Of(st) == InOrder(p, n).counts.Of(st)
    {
      InOrderCounts(p, n, st);
    }
    CountsEqual(c, InOrder(p, n).counts);
  }

  lemma FinishedCounts(p: Plan, s: Stage)
    requires p.Valid() && Shaped(p, s) && Counted(p, s) && Finished(p, s)
    requires forall k :: 0 <= k < |p.keys| ==> p.answers[k].Some?
    ensures s.counts == InOrder(p, |p.keys|).counts && s.processed == InOrder(p, |p.keys|).processed
  {
    var n := |p.keys|;
    assert s.places == AllAt(Landed, n);
    hide *;
    SameCounts(p, s.counts);
    InOrderVerdicts(p, n);
    AllLanded(n);
  }

  lemma {:induction false} AllLanded(n: nat)
    ensures CountOf(AllAt(Landed, n), Landed) == n
  {
    if n > 0 {
      AllLanded(n - 1);
      assert AllAt(Landed, n)[..n - 1] == AllAt(Landed, n - 1);
    }
  }

  function Below(n: nat): (r: set<nat>)
    ensures |r| == n && forall k: nat :: k in r <==> k < n
  {
    if n == 0 then {} else Below(n - 1) + {n - 1}
  }

  function Elements(xs: seq<nat>): set<nat> {
    set k | k in xs
  }

  lemma {:induction false} DistinctCount(xs: seq<nat>)
    requires forall i, j :: 0 <= i < j < |xs| ==> xs[i] != xs[j]
    ensures |Elements(xs)| == |xs|
  {
    if xs != [] {
      var n := |xs| - 1;
      DistinctCount(xs[..n]);
      assert xs == xs[..n] + [xs[n]];
      assert Elements(xs) == Elements(xs[..n]) + {xs[n]};
      assert xs[n] !in Elements(xs[..n]);
    }
  }

  // A list without repetition of exactly the numbers below n has n entries.
  lemma EachOnce(xs: seq<nat>, n: nat)
    requires forall k: nat :: k in xs <==> k < n
    requires forall i, j :: 0 <= i < j < |xs| ==> xs[i] != xs[j]
    ensures |xs| == n
  {
    DistinctCount(xs);
    assert Elements(xs) == Below(n);
  }

  /** Any batch size, any limit and any completion order end like verifying each unique
      address once, in order. */
  lemma AnyScheduleEqualsInOrder(p: Plan, run: seq<Stage>, events: seq<Event>, i: nat)
    requires p.Valid() && IsRun(p, run, events) && i < |run| && Finished(p, run[i])
    ensures forall k :: 0 <= k < |p.keys| ==> p.answers[k].Some?
    ensures Result(run[i].verdicts, run[i].counts, run[i].processed) == InOrder(p, |p.keys|)
    ensures |run[i].probed| == |p.keys| && forall k: nat :: k < |p.keys| ==> k in run[i].probed
  {
    RunKeepsInv(p, run, events, i);
    FinishedEqualsInOrder(p, run[i]);
  }

  // ---------------------------------------------------------------- progress

  function WorkLeft(p: Plan, s: Stage): int {
    |p.keys| - s.handedOut + 2 * CountOf(s.places, Pending) + CountOf(s.places, Running)
  }

  /** Every event leaves strictly less work, so no run goes on forever. */
  lemma EventsUseUpWork(p: Plan, s: Stage, e: Event)
    requires p.Valid() && Inv(p, s) && Enabled(p, s, e)
    ensures 0 <= WorkLeft(p, Apply(p, s, e)) < WorkLeft(p, s)
  {
    EventKeepsShape(p, s, e);
    if !e.OpenChunk? {
      var now := Apply(p, s, e).places[e.k];
      CountAfterUpdate(s.places, e.k, now, Pending);
      CountAfterUpdate(s.places, e.k, now, Running);
    }
  }

  lemma {:induction false} SomewhereOrZero(places: seq<Place>, x: Place)
    ensures CountOf(places, x) == 0 || exists k :: 0 <= k < |places| && places[k] == x
  {
    if places != [] {
      var n := |places| - 1;
      SomewhereOrZero(places[..n], x);
      if CountOf(places[..n], x) != 0 {
        var k :| 0 <= k < n && places[..n][k] == x;
        assert places[k] == x;
      } else if places[n] == x {
        assert places[n] == x;
      }
    }
  }

  /** Unless a probe raised, an unfinished stage always has a next event. */
  lemma NeverStalls(p: Plan, s: Stage) returns (e: Event)
    requires p.Valid() && Inv(p, s) && !Finished(p, s)
    requires forall k :: 0 <= k < |s.places| ==> s.places[k] != Raised
    ensures Enabled(p, s, e)
  {
    SomewhereOrZero(s.places, Running);
    if k :| 0 <= k < |s.places| && s.places[k] == Running {
      e := if p.answers[k].Some? then Finish(k) else Raise(k);
    } else if k :| 0 <= k < s.handedOut && s.places[k] == Pending {
      e := Start(k);
    } else {
      assert forall k :: 0 <= k < s.handedOut ==> s.places[k] != Running && s.places[k] != Pending;
      e := OpenChunk;
    }
  }
}
