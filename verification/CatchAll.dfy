// Concurrent catch-all detection (src/eve/smtp_infra/service.py).  Coroutines switch
// only at an await, so a run is a sequence of the uninterrupted segments between
// awaits, in any order.  `Service` executes each segment in place; `Apply` is what the
// segment does to the whole state; the theorems are about every run.

module CatchAll {
  type Domain = string
  type Task = nat
  type LockId = nat

  /** Where a call of the catch-all check is suspended. */
  datatype Point =
    | Arriving                   // about to look at the cache
    | WantsLock                  // cache missed, awaiting the guard of the lock table
    | Waiting(lock: LockId)      // has the domain's lock object, awaiting the lock
    | Probing(lock: LockId)      // holds the lock, awaiting the reply to the made-up recipient
    | Answered(answer: bool)
    | Raised

  datatype Call = Call(domain: Domain, at: Point)

  datatype Event =
    | Arrive(t: Task, domain: Domain)
    | Look(t: Task)
    | GetLock(t: Task)
    | Enter(t: Task)
    | Reply(t: Task, code: int)
    | Raise(t: Task)

  datatype State = State(
    cache: map<Domain, bool>,            // answers known so far
    locks: map<Domain, LockId>,          // lock table
    nextLock: LockId,                    // identity of the next lock object
    held: map<LockId, Task>,             // who is inside which lock
    calls: map<Task, Call>,
    recorded: seq<(Domain, bool)>        // every answer ever written, in order
  )

  function Initial(): State {
    State(map[], map[], 0, map[], map[], [])
  }

  function Accepts(code: int): bool {
    code == 250 || code == 251
  }

  predicate Enabled(s: State, e: Event)
  {
    if e.Arrive? then e.t !in s.calls
    else
      && e.t in s.calls
      && var at := s.calls[e.t].at;
         match e
         case Look(_) => at.Arriving?
         case GetLock(_) => at.WantsLock?
         case Enter(_) => at.Waiting? && at.lock !in s.held
         case Reply(_, _) => at.Probing?
         case Raise(_) => at.WantsLock? || at.Waiting? || at.Probing?
         case Arrive(_, _) => false
  }

  function MoveTo(s: State, t: Task, p: Point): State
    requires t in s.calls
  {
    s.(calls := s.calls[t := s.calls[t].(at := p)])
  }

  function Apply(s: State, e: Event): State
    requires Enabled(s, e)
  {
    if e.Arrive? then s.(calls := s.calls[e.t := Call(e.domain, Arriving)])
    else
      var t := e.t;
      var c := s.calls[t];
      var d := c.domain;
      match e
      case Look(_) =>
        MoveTo(s, t, if d in s.cache then Answered(s.cache[d]) else WantsLock)
      case GetLock(_) =>
        if d in s.locks then MoveTo(s, t, Waiting(s.locks[d]))
        else MoveTo(s.(locks := s.locks[d := s.nextLock], nextLock := s.nextLock + 1), t, Waiting(s.nextLock))
      case Enter(_) =>
        if d in s.cache then MoveTo(s, t, Answered(s.cache[d]))
        else MoveTo(s.(held := s.held[c.at.lock := t]), t, Probing(c.at.lock))
      case Reply(_, code) =>
        var isCatchAll := Accepts(code);
        MoveTo(s.(cache := s.cache[d := isCatchAll], recorded := s.recorded + [(d, isCatchAll)],
                  held := s.held - {c.at.lock}), t, Answered(isCatchAll))
      case Raise(_) =>
        MoveTo(if c.at.Probing? then s.(held := s.held - {c.at.lock}) else s, t, Raised)
      case Arrive(_, _) => s
  }

  // ---------------------------------------------------------------- the service, segment by segment

  class Service {
    var catchAll: map<Domain, bool>
    var domainLocks: map<Domain, LockId>
    var nextLock: LockId
    var held: map<LockId, Task>
    var calls: map<Task, Call>
    ghost var recorded: seq<(Domain, bool)>

    constructor ()
      ensures View() == Initial()
    {
      catchAll, domainLocks, nextLock, held, calls, recorded := map[], map[], 0, map[], map[], [];
    }

    ghost function View(): State
      reads this
    {
      State(catchAll, domainLocks, nextLock, held, calls, recorded)
    }

    method Begin(t: Task, domain: Domain)
      requires Enabled(View(), Arrive(t, domain))
      modifies this`calls
      ensures View() == Apply(old(View()), Arrive(t, domain))
    {
      calls := calls[t := Call(domain, Arriving)];
    }

    method Resume(t: Task, at: Point)
      requires t in calls
      modifies this`calls
      ensures calls == old(calls)[t := old(calls)[t].(at := at)]
    {
      calls := calls[t := calls[t].(at := at)];
    }

    method LookUp(t: Task)
      requires Enabled(View(), Look(t))
      modifies this`calls
      ensures View() == Apply(old(View()), Look(t))
      ensures calls[t].domain in catchAll ==> calls[t].at == Answered(catchAll[calls[t].domain])
    {
      var domain := calls[t].domain;
      if domain in catchAll {
        Resume(t, Answered(catchAll[domain]));
      } else {
        Resume(t, WantsLock);
      }
    }

    method FetchLock(t: Task)
      requires Enabled(View(), GetLock(t))
      modifies this
      ensures View() == Apply(old(View()), GetLock(t))
    {
      var domain := calls[t].domain;
      if domain !in domainLocks {
        domainLocks := domainLocks[domain := nextLock];
        nextLock := nextLock + 1;
      }
      Resume(t, Waiting(domainLocks[domain]));
    }

    method EnterLock(t: Task)
      requires Enabled(View(), Enter(t))
      modifies this
      ensures View() == Apply(old(View()), Enter(t))
    {
      var domain, lock := calls[t].domain, calls[t].at.lock;
      if domain in catchAll {
        Resume(t, Answered(catchAll[domain]));
      } else {
        held := held[lock := t];
        Resume(t, Probing(lock));
      }
    }

    method Record(t: Task, code: int)
      requires Enabled(View(), Reply(t, code))
      modifies this
      ensures View() == Apply(old(View()), Reply(t, code))
      ensures catchAll == old(catchAll)[old(calls)[t].domain := code in {250, 251}]
      ensures calls[t].at == Answered(code in {250, 251})
    {
      var domain, lock := calls[t].domain, calls[t].at.lock;
      var isCatchAll := code == 250 || code == 251;
      catchAll := catchAll[domain := isCatchAll];
      recorded := recorded + [(domain, isCatchAll)];
      held := held - {lock};
      Resume(t, Answered(isCatchAll));
    }

    method Abandon(t: Task)
      requires Enabled(View(), Raise(t))
      modifies this
      ensures View() == Apply(old(View()), Raise(t))
    {
      if calls[t].at.Probing? {
        held := held - {calls[t].at.lock};
      }
      Resume(t, Raised);
    }
  }

  // ---------------------------------------------------------------- invariant

  ghost predicate LocksAreDistinct(s: State) {
    && (forall d :: d in s.locks ==> s.locks[d] < s.nextLock)
    && (forall d, e :: d in s.locks && e in s.locks && s.locks[d] == s.locks[e] ==> d == e)
  }

  ghost predicate CallsUseTheirLock(s: State) {
    forall t :: t in s.calls && (s.calls[t].at.Waiting? || s.calls[t].at.Probing?) ==>
      s.calls[t].domain in s.locks && s.locks[s.calls[t].domain] == s.calls[t].at.lock
  }

  ghost predicate HoldersProbe(s: State) {
    forall l :: l in s.held ==> s.held[l] in s.calls && s.calls[s.held[l]].at == Probing(l)
  }

  ghost predicate ProbersHold(s: State) {
    forall t :: t in s.calls && s.calls[t].at.Probing? ==>
      s.calls[t].at.lock in s.held && s.held[s.calls[t].at.lock] == t && s.calls[t].domain !in s.cache
  }

  ghost predicate AnswersComeFromCache(s: State) {
    forall t :: t in s.calls && s.calls[t].at.Answered? ==>
      s.calls[t].domain in s.cache && s.cache[s.calls[t].domain] == s.calls[t].at.answer
  }

  ghost predicate RecordedOnce(s: State) {
    && (forall i :: 0 <= i < |s.recorded| ==> s.recorded[i].0 in s.cache && s.cache[s.recorded[i].0] == s.recorded[i].1)
    && (forall i, j :: 0 <= i < j < |s.recorded| ==> s.recorded[i].0 != s.recorded[j].0)
  }

  ghost predicate Inv(s: State) {
    LocksAreDistinct(s) && CallsUseTheirLock(s) && HoldersProbe(s) && ProbersHold(s) && AnswersComeFromCache(s) && RecordedOnce(s)
  }

  lemma SegmentKeepsLocks(s: State, e: Event)
    requires LocksAreDistinct(s) && Enabled(s, e)
    ensures LocksAreDistinct(Apply(s, e))
  {
  }

  lemma SegmentKeepsLockUse(s: State, e: Event)
    requires CallsUseTheirLock(s) && Enabled(s, e)
    ensures CallsUseTheirLock(Apply(s, e))
  {
    var next := Apply(s, e);
    forall t | t in next.calls && (next.calls[t].at.Waiting? || next.calls[t].at.Probing?)
      ensures next.calls[t].domain in next.locks && next.locks[next.calls[t].domain] == next.calls[t].at.lock
    {
      assert t in s.calls;
    }
  }

  lemma SegmentKeepsHolders(s: State, e: Event)
    requires ProbersHold(s) && HoldersProbe(s) && Enabled(s, e)
    ensures HoldersProbe(Apply(s, e))
  {
    var next := Apply(s, e);
    forall l | l in next.held
      ensures next.held[l] in next.calls && next.calls[next.held[l]].at == Probing(l)
    {
      if l in s.held {
        assert s.calls[s.held[l]].at == Probing(l);
      }
    }
  }

  lemma SegmentKeepsProbers(s: State, e: Event)
    requires LocksAreDistinct(s) && CallsUseTheirLock(s) && ProbersHold(s) && Enabled(s, e)
    ensures ProbersHold(Apply(s, e))
  {
    var next := Apply(s, e);
    forall t | t in next.calls && next.calls[t].at.Probing?
      ensures next.calls[t].at.lock in next.held && next.held[next.calls[t].at.lock] == t
      ensures next.calls[t].domain !in next.cache
    {
      assert t in s.calls;
      // The call that recorded was the only one probing its domain.
      assert e.Reply? && t != e.t ==> next.calls[t].domain != s.calls[e.t].domain;
    }
  }

  lemma SegmentKeepsAnswers(s: State, e: Event)
    requires ProbersHold(s) && AnswersComeFromCache(s) && Enabled(s, e)
    ensures AnswersComeFromCache(Apply(s, e))
  {
  }

  lemma SegmentKeepsRecord(s: State, e: Event)
    requires ProbersHold(s) && RecordedOnce(s) && Enabled(s, e)
    ensures RecordedOnce(Apply(s, e))
  {
  }

  lemma SegmentKeepsInv(s: State, e: Event)
    requires Inv(s) && Enabled(s, e)
    ensures Inv(Apply(s, e))
  {
    hide Apply, Enabled, LocksAreDistinct, CallsUseTheirLock, HoldersProbe, ProbersHold, AnswersComeFromCache, RecordedOnce;
    SegmentKeepsLocks(s, e);
    SegmentKeepsLockUse(s, e);
    SegmentKeepsHolders(s, e);
    SegmentKeepsProbers(s, e);
    SegmentKeepsAnswers(s, e);
    SegmentKeepsRecord(s, e);
  }

  /** Lock objects and answers, once present, never change. */
  ghost predicate Extends(s: State, later: State) {
    && (forall d :: d in s.locks ==> d in later.locks && later.locks[d] == s.locks[d])
    && (forall d :: d in s.cache ==> d in later.cache && later.cache[d] == s.cache[d])
    && s.recorded <= later.recorded
  }

  lemma SegmentExtends(s: State, e: Event)
    requires Inv(s) && Enabled(s, e)
    ensures Extends(s, Apply(s, e))
  {
  }

  // ---------------------------------------------------------------- every run

  ghost predicate IsRun(run: seq<State>, events: seq<Event>) {
    && |run| == |events| + 1 && run[0] == Initial()
    && forall i :: 0 <= i < |events| ==> Enabled(run[i], events[i]) && run[i + 1] == Apply(run[i], events[i])
  }

  lemma {:induction false} RunKeepsInv(run: seq<State>, events: seq<Event>, i: nat)
    requires IsRun(run, events) && i < |run|
    ensures Inv(run[i])
  {
    if i > 0 {
      RunKeepsInv(run, events, i - 1);
      SegmentKeepsInv(run[i - 1], events[i - 1]);
    }
  }

  lemma {:induction false} RunExtends(run: seq<State>, events: seq<Event>, i: nat, j: nat)
    requires IsRun(run, events) && i <= j < |run|
    ensures Extends(run[i], run[j])
    decreases j
  {
    hide Inv, Apply, Enabled;
    if i < j {
      RunExtends(run, events, i, j - 1);
      RunKeepsInv(run, events, j - 1);
      SegmentExtends(run[j - 1], events[j - 1]);
    }
  }

  /** A domain has one lock forever. */
  lemma OneLockPerDomain(run: seq<State>, events: seq<Event>, i: nat, j: nat, d: Domain)
    requires IsRun(run, events) && i < |run| && j < |run| && d in run[i].locks && d in run[j].locks
    ensures run[i].locks[d] == run[j].locks[d]
  {
    if i <= j { RunExtends(run, events, i, j); } else { RunExtends(run, events, j, i); }
  }

  /** Never two calls inside the catch-all RCPT of one domain. */
  lemma OneProbeAtATime(run: seq<State>, events: seq<Event>, i: nat, t: Task, u: Task)
    requires IsRun(run, events) && i < |run| && t in run[i].calls && u in run[i].calls
    requires run[i].calls[t].at.Probing? && run[i].calls[u].at.Probing? && run[i].calls[t].domain == run[i].calls[u].domain
    ensures t == u
  {
    RunKeepsInv(run, events, i);
  }

  /** However many probes of a domain there were, at most one answer is ever written. */
  lemma OneAnswerRecorded(run: seq<State>, events: seq<Event>, i: nat, x: nat, y: nat)
    requires IsRun(run, events) && i < |run| && x < |run[i].recorded| && y < |run[i].recorded|
    requires run[i].recorded[x].0 == run[i].recorded[y].0
    ensures x == y
  {
    RunKeepsInv(run, events, i);
  }

  /** Every call that returns for a domain, at whatever moments, returns the same answer. */
  lemma CallersAgree(run: seq<State>, events: seq<Event>, i: nat, j: nat, t: Task, u: Task)
    requires IsRun(run, events) && i < |run| && j < |run| && t in run[i].calls && u in run[j].calls
    requires run[i].calls[t].at.Answered? && run[j].calls[u].at.Answered?
    requires run[i].calls[t].domain == run[j].calls[u].domain
    ensures run[i].calls[t].at.answer == run[j].calls[u].at.answer
  {
    RunKeepsInv(run, events, i);
    RunKeepsInv(run, events, j);
    if i <= j { RunExtends(run, events, i, j); } else { RunExtends(run, events, j, i); }
  }

  /** Event `k` is the server's reply to the made-up recipient of `d`. */
  ghost predicate RepliesFor(run: seq<State>, events: seq<Event>, k: nat, d: Domain) {
    k < |events| && k < |run| && events[k].Reply? && events[k].t in run[k].calls && run[k].calls[events[k].t].domain == d
  }

  lemma ReplyComesBeforeAnswer(s: State, e: Event, d: Domain)
    requires Inv(s) && Enabled(s, e)
    ensures e.Reply? ==> e.t in s.calls
    ensures d in Apply(s, e).cache && d !in s.cache ==> e.Reply? && s.calls[e.t].domain == d && Apply(s, e).cache[d] == (e.code in {250, 251})
    ensures e.Reply? && s.calls[e.t].domain == d ==> d !in s.cache && d in Apply(s, e).cache
    ensures d in s.cache ==> d in Apply(s, e).cache && Apply(s, e).cache[d] == s.cache[d]
  {
  }

  /** The answer for a domain rests on a single reply, the only one its made-up recipient
      ever got; it is negative for every code but 250 and 251, so the answer is a refusal by
      the server exactly when that reply is. */
  lemma {:induction false} AnswerRestsOnOneReply(run: seq<State>, events: seq<Event>, i: nat, d: Domain) returns (k: nat)
    requires IsRun(run, events) && i < |run| && d in run[i].cache
    ensures k < i && RepliesFor(run, events, k, d) && (run[i].cache[d] <==> events[k].code in {250, 251})
    ensures forall other: nat :: other < i && RepliesFor(run, events, other, d) ==> other == k
  {
    hide Inv, Apply, Enabled, Accepts;
    if i > 0 {
      RunKeepsInv(run, events, i - 1);
      ReplyComesBeforeAnswer(run[i - 1], events[i - 1], d);
      if d in run[i - 1].cache {
        k := AnswerRestsOnOneReply(run, events, i - 1, d);
      } else {
        k := i - 1;
        NoReplyBeforeAnswer(run, events, i - 1, d);
      }
    }
  }

  lemma {:induction false} NoReplyBeforeAnswer(run: seq<State>, events: seq<Event>, i: nat, d: Domain)
    requires IsRun(run, events) && i < |run| && d !in run[i].cache
    ensures forall k: nat :: k < i ==> !RepliesFor(run, events, k, d)
  {
    hide Inv, Apply, Enabled, Accepts;
    if i > 0 {
      RunKeepsInv(run, events, i - 1);
      ReplyComesBeforeAnswer(run[i - 1], events[i - 1], d);
      NoReplyBeforeAnswer(run, events, i - 1, d);
    }
  }

  /** Any code but 250 and 251 records a negative answer, a deferral or a failed connection
      included: the run in which one call asks and gets it. */
  lemma AnyOtherCodeRecordsNegative(d: Domain, code: int) returns (run: seq<State>, events: seq<Event>)
    requires code !in {250, 251}
    ensures IsRun(run, events) && |events| == 5 && events[4] == Reply(0, code)
    ensures var last := run[|events|];
            d in last.cache && !last.cache[d] && 0 in last.calls && last.calls[0] == Call(d, Answered(false))
  {
    events := [Arrive(0, d), Look(0), GetLock(0), Enter(0), Reply(0, code)];
    var s1 := Apply(Initial(), events[0]);
    var s2 := Apply(s1, events[1]);
    var s3 := Apply(s2, events[2]);
    var s4 := Apply(s3, events[3]);
    run := [Initial(), s1, s2, s3, s4, Apply(s4, events[4])];
  }

  /** Segments of the protocol itself, as opposed to a failure striking a call. */
  predicate Proceeds(e: Event) {
    !e.Arrive? && !e.Raise?
  }

  /** A raising probe strands nobody: an unfinished call can always go on, or the call
      holding its lock can. */
  lemma NeverStuck(run: seq<State>, events: seq<Event>, i: nat, t: Task) returns (next: Event)
    requires IsRun(run, events) && i < |run| && t in run[i].calls
    requires !run[i].calls[t].at.Answered? && !run[i].calls[t].at.Raised?
    ensures Proceeds(next) && Enabled(run[i], next)
    ensures run[i].calls[next.t].domain == run[i].calls[t].domain
  {
    RunKeepsInv(run, events, i);
    var s := run[i];
    match s.calls[t].at
    case Arriving => next := Look(t);
    case WantsLock => next := GetLock(t);
    case Probing(_) => next := Reply(t, 0);
    case Waiting(l) =>
      if l in s.held {
        assert s.calls[s.held[l]].at == Probing(l);
        next := Reply(s.held[l], 0);
      } else {
        next := Enter(t);
      }
  }
}
