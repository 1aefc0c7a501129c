// The egress IP pool (src/eve/smtp_infra/ip_pool.py): round-robin rotation over healthy
// addresses with cooldowns, a daily cap while warming up, and a day roll done on read.

module IpPool {
  import opened Common

  // ---------------------------------------------------------------- the pool as a value

  datatype Entry = Entry(ip: string, dailyCount: nat, cooldownUntil: real, reputation: real, stage: nat)

  datatype Pool = Pool(entries: seq<Entry>, cursor: nat, cap: int, cooldown: real, day: int)

  datatype Outcome = Ok | Tempfail | Block

  datatype Event =
    | Acquire(now: real, today: int)
    | Report(ip: Option<string>, outcome: Outcome, now: real)
    | Cool(address: string, seconds: Option<real>, now: real)

  predicate Eligible(e: Entry, cap: int, now: real) {
    !(e.cooldownUntil > now) && !(e.stage == 0 && e.dailyCount >= cap)
  }

  /** The warm-up tick of one entry. */
  function Promoted(e: Entry): Entry {
    e.(stage := if e.reputation >= 0.8 then e.stage + 1 else e.stage, dailyCount := 0)
  }

  function PromotedAll(es: seq<Entry>): (r: seq<Entry>)
    ensures |r| == |es| && forall k :: 0 <= k < |es| ==> r[k] == Promoted(es[k])
  {
    if es == [] then [] else PromotedAll(es[..|es| - 1]) + [Promoted(es[|es| - 1])]
  }

  function Rolled(p: Pool, today: int): Pool {
    if today == p.day then p else p.(day := today, entries := PromotedAll(p.entries))
  }

  /** The entry under position `x` of the never-ending rotation. */
  function Slot(p: Pool, x: nat): nat
    requires p.entries != []
  {
    x % |p.entries|
  }

  /** First eligible position among `from`, ..., `end - 1`, else `end`. */
  function FirstEligible(p: Pool, now: real, from: nat, end: nat): (x: nat)
    requires p.entries != [] && from <= end
    ensures from <= x <= end
    ensures x < end ==> Eligible(p.entries[Slot(p, x)], p.cap, now)
    ensures forall y :: from <= y < x ==> !Eligible(p.entries[Slot(p, y)], p.cap, now)
    decreases end - from
  {
    if from == end || Eligible(p.entries[Slot(p, from)], p.cap, now) then from else FirstEligible(p, now, from + 1, end)
  }

  datatype Taken = Taken(pool: Pool, index: Option<nat>)

  /** Hands out the first eligible entry of one turn of the rotation. */
  function Scanned(r: Pool, now: real): Taken
    requires r.entries != []
  {
    var end := r.cursor + |r.entries|;
    var x := FirstEligible(r, now, r.cursor, end);
    if x == end then Taken(r.(cursor := end), None)
    else
      var k := Slot(r, x);
      Taken(r.(cursor := x + 1, entries := r.entries[k := r.entries[k].(dailyCount := r.entries[k].dailyCount + 1)]), Some(k))
  }

  function Take(p: Pool, now: real, today: int): Taken {
    if p.entries == [] then Taken(p, None) else Scanned(Rolled(p, today), now)
  }

  /** First entry with this address, or the number of entries. */
  function Find(es: seq<Entry>, ip: string): (k: nat)
    ensures k <= |es| && (k < |es| ==> es[k].ip == ip) && forall j :: 0 <= j < k ==> es[j].ip != ip
  {
    if es == [] || es[0].ip == ip then 0 else 1 + Find(es[1..], ip)
  }

  function Penalised(e: Entry, o: Outcome, now: real, cooldown: real): Entry {
    match o
    case Block => e.(reputation := MaxReal(0.0, e.reputation - 0.5), cooldownUntil := now + cooldown)
    case Tempfail => e.(reputation := MaxReal(0.0, e.reputation - 0.05))
    case Ok => e.(reputation := MinReal(1.0, e.reputation + 0.01))
  }

  function CoolLength(p: Pool, seconds: Option<real>): real {
    if seconds.Some? && seconds.value != 0.0 then seconds.value else p.cooldown
  }

  function Step(p: Pool, e: Event): Pool {
    match e
    case Acquire(now, today) => Take(p, now, today).pool
    case Report(ip, o, now) =>
      if ip.None? || ip.value == "" then p
      else
        var k := Find(p.entries, ip.value);
        if k == |p.entries| then p else p.(entries := p.entries[k := Penalised(p.entries[k], o, now, p.cooldown)])
    case Cool(ip, seconds, now) =>
      var k := Find(p.entries, ip);
      if k == |p.entries| then p
      else p.(entries := p.entries[k := p.entries[k].(cooldownUntil := now + CoolLength(p, seconds))])
  }

  predicate NotBlank(s: string) {
    Strip(s) != ""
  }

  /** A new pool keeps the non-blank addresses, in order. */
  function Listed(ips: seq<string>): seq<Entry> {
    if ips == [] then []
    else
      var last := ips[|ips| - 1];
      Listed(ips[..|ips| - 1]) + if NotBlank(last) then [Entry(last, 0, 0.0, 1.0, 0)] else []
  }

  lemma ListedNone()
    ensures forall ips: seq<string> :: ips == [] ==> Listed(ips) == []
  {
  }

  lemma ListedStep(ips: seq<string>, n: nat)
    requires n < |ips|
    ensures Listed(ips[..n + 1]) == Listed(ips[..n]) + if NotBlank(ips[n]) then [Entry(ips[n], 0, 0.0, 1.0, 0)] else []
  {
    hide NotBlank;
    assert ips[..n + 1][..n] == ips[..n];
  }

  function NewPool(ips: seq<string>, cap: int, cooldown: real, day: int): Pool {
    Pool(Listed(ips), 0, cap, cooldown, day)
  }

  // ---------------------------------------------------------------- the pool, updated in place

  class IpState {
    var ip: string
    var dailyCount: nat
    var cooldownUntil: real
    var reputation: real
    var stage: nat

    constructor (ip: string)
      ensures Value() == Entry(ip, 0, 0.0, 1.0, 0)
    {
      this.ip, dailyCount, cooldownUntil, reputation, stage := ip, 0, 0.0, 1.0, 0;
    }

    function Value(): Entry
      reads this
    {
      Entry(ip, dailyCount, cooldownUntil, reputation, stage)
    }

    method Promote()
      modifies this
      ensures Value() == Promoted(old(Value()))
    {
      if reputation >= 0.8 {
        stage := stage + 1;
      }
      dailyCount := 0;
    }

    method Count()
      modifies this
      ensures Value() == old(Value()).(dailyCount := old(dailyCount) + 1)
    {
      dailyCount := dailyCount + 1;
    }

    method CoolUntil(until: real)
      modifies this
      ensures Value() == old(Value()).(cooldownUntil := until)
    {
      cooldownUntil := until;
    }

    method Penalise(o: Outcome, now: real, cooldown: real)
      modifies this
      ensures Value() == Penalised(old(Value()), o, now, cooldown)
    {
      match o {
        case Block =>
          reputation := MaxReal(0.0, reputation - 0.5);
          cooldownUntil := now + cooldown;
        case Tempfail =>
          reputation := MaxReal(0.0, reputation - 0.05);
        case Ok =>
          reputation := MinReal(1.0, reputation + 0.01);
      }
    }
  }

  method NewStates(ips: seq<string>) returns (states: seq<IpState>)
    ensures fresh(states) && Values(states) == Listed(ips)
    ensures forall i, j :: 0 <= i < j < |states| ==> states[i] != states[j]
  {
    hide NotBlank, Listed, Values;
    states := [];
    ListedNone();
    ValuesNone();
    for n := 0 to |ips|
      invariant fresh(states) && Values(states) == Listed(ips[..n])
      invariant forall i, j :: 0 <= i < j < |states| ==> states[i] != states[j]
    {
      ListedStep(ips, n);
      if NotBlank(ips[n]) {
        var st := new IpState(ips[n]);
        ValuesGrow(states, st);
        states := states + [st];
      }
    }
    assert ips[..|ips|] == ips;
  }

  ghost function Values(states: seq<IpState>): (r: seq<Entry>)
    reads states
    ensures |r| == |states| && forall k :: 0 <= k < |states| ==> r[k] == states[k].Value()
  {
    if states == [] then [] else Values(states[..|states| - 1]) + [states[|states| - 1].Value()]
  }

  class EgressPool {
    var states: seq<IpState>
    var cursor: nat
    var cap: int
    var cooldown: real
    var day: int

    ghost predicate Valid()
      reads this
    {
      forall i, j :: 0 <= i < j < |states| ==> states[i] != states[j]
    }

    ghost function View(): Pool
      reads this, states
    {
      Pool(Values(states), cursor, cap, cooldown, day)
    }

    constructor (ips: seq<string>, cap: int, cooldown: real, today: int)
      ensures Valid() && fresh(states) && View() == NewPool(ips, cap, cooldown, today)
    {
      this.cap, this.cooldown, day, cursor := cap, cooldown, today, 0;
      var list := NewStates(ips);
      states := list;
    }

    method FindState(ip: string) returns (k: nat)
      ensures k == Find(Values(states), ip)
    {
      k := 0;
      while k < |states| && states[k].ip != ip
        invariant k <= |states|
        invariant forall j :: 0 <= j < k ==> Values(states)[j].ip != ip
      {
        k := k + 1;
      }
      FindIsFirst(Values(states), ip, k);
    }

    method PromoteWarmup()
      requires Valid()
      modifies states
      ensures Values(states) == PromotedAll(old(Values(states)))
    {
      ghost var was := Values(states);
      for k := 0 to |states|
        invariant forall j :: 0 <= j < k ==> states[j].Value() == Promoted(was[j])
        invariant forall j :: k <= j < |states| ==> states[j].Value() == was[j]
      {
        states[k].Promote();
      }
    }

    method RollDay(today: int)
      requires Valid()
      modifies this`day, states
      ensures Valid() && View() == Rolled(old(View()), today)
    {
      hide Values, PromotedAll;
      if today == day {
        return;
      }
      day := today;
      PromoteWarmup();
    }

    /** Walks the rotation to just past the first eligible entry, or once around. */
    method Scan(now: real) returns (found: bool)
      requires states != []
      modifies this`cursor
      ensures var from, end := old(cursor), old(cursor) + |states|;
              var x := FirstEligible(old(View()), now, from, end);
              (found <==> x < end) && cursor == if found then x + 1 else end
    {
      ghost var p := View();
      var n := |states|;
      var tried := 0;
      while tried < n
        invariant tried <= n && cursor == p.cursor + tried
        invariant forall y :: p.cursor <= y < cursor ==> !Eligible(p.entries[Slot(p, y)], p.cap, now)
      {
        var st := states[cursor % n];
        assert st.Value() == p.entries[Slot(p, cursor)];
        cursor := cursor + 1;
        tried := tried + 1;
        if st.cooldownUntil > now {
          continue;
        }
        if st.stage == 0 && st.dailyCount >= cap {
          continue;
        }
        FirstEligibleIs(p, now, p.cursor, p.cursor + n, cursor - 1);
        return true;
      }
      FirstEligibleIs(p, now, p.cursor, p.cursor + n, cursor);
      return false;
    }

    method CountState(k: nat) returns (ip: Option<string>)
      requires Valid() && k < |states|
      modifies states[k]
      ensures Values(states) == old(Values(states))[k := old(Values(states))[k].(dailyCount := old(Values(states))[k].dailyCount + 1)]
      ensures ip == Some(Values(states)[k].ip)
    {
      ghost var was := Values(states);
      states[k].Count();
      OneChanged(was, states, k);
      ip := Some(states[k].ip);
    }

    /** Scans once around and counts the hand-out. */
    method TakeScanned(now: real) returns (ip: Option<string>, ghost index: Option<nat>)
      requires Valid() && states != []
      modifies this`cursor, states
      ensures Valid() && Taken(View(), index) == Scanned(old(View()), now)
      ensures ip == if index.Some? && index.value < |states| then Some(View().entries[index.value].ip) else None
    {
      hide FirstEligible, Values;
      ghost var before := View();
      var found := Scan(now);
      if !found {
        return None, None;
      }
      var k := (cursor - 1) % |states|;
      index := Some(k);
      ip := CountState(k);
      assert View() == before.(cursor := cursor, entries := Values(states));
    }

    method TakeNext(now: real, today: int) returns (ip: Option<string>, ghost index: Option<nat>)
      requires Valid()
      modifies this`cursor, this`day, states
      ensures Valid() && Taken(View(), index) == Take(old(View()), now, today)
      ensures ip == if index.Some? && index.value < |states| then Some(View().entries[index.value].ip) else None
    {
      hide Rolled, Scanned, Values;
      if states == [] {
        return None, None;
      }
      RollDay(today);
      ip, index := TakeScanned(now);
    }

    method ReportOutcome(ip: Option<string>, o: Outcome, now: real)
      requires Valid()
      modifies states
      ensures Valid() && View() == Step(old(View()), Report(ip, o, now))
    {
      if ip.None? || ip.value == "" {
        return;
      }
      ghost var was := Values(states);
      var k := FindState(ip.value);
      if k == |states| {
        return;
      }
      states[k].Penalise(o, now, cooldown);
      OneChanged(was, states, k);
    }

    method CoolDown(ip: string, seconds: Option<real>, now: real)
      requires Valid()
      modifies states
      ensures Valid() && View() == Step(old(View()), Cool(ip, seconds, now))
    {
      hide Find, Values;
      ghost var was := Values(states);
      var k := FindState(ip);
      if k < |states| {
        states[k].CoolUntil(now + if seconds.Some? && seconds.value != 0.0 then seconds.value else cooldown);
        OneChanged(was, states, k);
      }
    }
  }

  // The two ways a scan of a non-empty pool can end.
  lemma TakeCases(p: Pool, now: real, today: int)
    requires p.entries != []
    ensures var r := Rolled(p, today); var end := r.cursor + |r.entries|;
            |r.entries| == |p.entries| &&
            var x := FirstEligible(r, now, r.cursor, end);
            && (x == end ==> Take(p, now, today) == Taken(r.(cursor := end), None))
            && (x < end ==>
                  var k := x % |r.entries|;
                  Take(p, now, today) ==
                  Taken(r.(cursor := x + 1, entries := r.entries[k := r.entries[k].(dailyCount := r.entries[k].dailyCount + 1)]), Some(k)))
  {
    hide FirstEligible;
  }

  lemma FindIsFirst(es: seq<Entry>, ip: string, k: nat)
    requires k <= |es| && (k < |es| ==> es[k].ip == ip) && forall j :: 0 <= j < k ==> es[j].ip != ip
    ensures k == Find(es, ip)
  {
  }

  lemma {:induction false} FirstEligibleIs(p: Pool, now: real, from: nat, end: nat, x: nat)
    requires p.entries != [] && from <= x <= end
    requires x < end ==> Eligible(p.entries[Slot(p, x)], p.cap, now)
    requires forall y :: from <= y < x ==> !Eligible(p.entries[Slot(p, y)], p.cap, now)
    ensures FirstEligible(p, now, from, end) == x
    decreases x - from
  {
    hide Eligible, Slot;
    if from < x {
      FirstEligibleIs(p, now, from + 1, end, x);
    }
  }

  lemma ValuesNone()
    ensures Values([]) == []
  {
  }

  lemma ValuesGrow(states: seq<IpState>, st: IpState)
    ensures Values(states + [st]) == Values(states) + [st.Value()]
  {
    assert (states + [st])[..|states + [st]| - 1] == states;
  }

  lemma OneChanged(was: seq<Entry>, states: seq<IpState>, k: nat)
    requires |was| == |states| && k < |states|
    requires forall j :: 0 <= j < |states| && j != k ==> states[j].Value() == was[j]
    ensures Values(states) == was[k := states[k].Value()]
  {
  }
}
