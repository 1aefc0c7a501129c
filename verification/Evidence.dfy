// From an SMTP reply to a verdict (src/eve/smtp_infra/service.py, providers.py,
// greylist.py): what a VALID verdict rests on, end to end.

module Evidence {
  import opened Common
  import opened Verdicts
  import opened Normalize
  import opened Engine
  import CatchAll = CatchAll

  // ---------------------------------------------------------------- provider strategies

  datatype Strategy = Strategy(name: string, trustRcpt: bool, supportsCatchAllProbe: bool)

  const GENERIC := Strategy("generic", true, true)

  const TABLE: seq<(string, Strategy)> := [
    ("google.com", Strategy("google", false, false)),
    ("googlemail.com", Strategy("google", false, false)),
    ("outlook.com", Strategy("microsoft", false, false)),
    ("protection.outlook.com", Strategy("microsoft", false, false)),
    ("hotmail.com", Strategy("microsoft", false, false)),
    ("yahoodns.net", Strategy("yahoo", false, false)),
    ("yahoo.com", Strategy("yahoo", false, false)),
    ("icloud.com", Strategy("apple", false, false)),
    ("me.com", Strategy("apple", false, false)),
    ("pphosted.com", Strategy("proofpoint", false, true)),
    ("mimecast.com", Strategy("mimecast", false, true))
  ]

  function FirstMatch(table: seq<(string, Strategy)>, hay: string): Strategy {
    if table == [] then GENERIC
    else if Contains(hay, table[0].0) then table[0].1
    else FirstMatch(table[1..], hay)
  }

  function Joined(hosts: seq<string>): string {
    if hosts == [] then ""
    else if |hosts| == 1 then hosts[0]
    else hosts[0] + " " + Joined(hosts[1..])
  }

  function StrategyFor(hosts: seq<string>, domain: string): Strategy {
    FirstMatch(TABLE, Lower(Joined(hosts) + " " + domain))
  }

  lemma {:induction false} MatchIsGenericOrListed(table: seq<(string, Strategy)>, hay: string)
    requires forall row :: row in table ==> !row.1.trustRcpt
    ensures FirstMatch(table, hay).trustRcpt ==> FirstMatch(table, hay) == GENERIC
  {
    if table != [] {
      assert table[0] in table;
      assert forall row :: row in table[1..] ==> row in table;
      MatchIsGenericOrListed(table[1..], hay);
    }
  }

  /** Only the generic strategy trusts a positive RCPT reply, and it requires the catch-all check. */
  lemma TrustRequiresCatchAllCheck(hosts: seq<string>, domain: string)
    ensures StrategyFor(hosts, domain).trustRcpt ==> StrategyFor(hosts, domain).supportsCatchAllProbe
  {
    hide FirstMatch, Contains, Lower, Joined;
    MatchIsGenericOrListed(TABLE, Lower(Joined(hosts) + " " + domain));
  }

  /** The needle stands in the domain or in one of the hosts, whatever their case. */
  ghost predicate Named(hosts: seq<string>, domain: string, needle: string) {
    Contains(Lower(domain), needle) || exists h :: h in hosts && Contains(Lower(h), needle)
  }

  lemma NotAcross(s: string, needle: string, i: nat, blank: nat)
    requires OccursAt(s, needle, i) && blank < |s| && s[blank] !in needle
    ensures i + |needle| <= blank || blank < i
  {
    assert forall k :: 0 <= k < |needle| ==> s[i..i + |needle|][k] == s[i + k] == needle[k];
  }

  // A needle without blanks stands on one side of a blank or on the other.
  lemma AcrossBlank(x: string, y: string, needle: string)
    requires needle != "" && ' ' !in needle
    ensures Contains(x + " " + y, needle) <==> Contains(x, needle) || Contains(y, needle)
  {
    hide Contains, OccursAt;
    var s := x + " " + y;
    assert s == x + (" " + y);
    ContainsIsSubstring(s, needle);
    ContainsIsSubstring(x, needle);
    ContainsIsSubstring(y, needle);
    forall i: nat | OccursAt(s, needle, i)
      ensures OccursAt(x, needle, i) || (i > |x| && OccursAt(y, needle, i - |x| - 1))
    {
      NotAcross(s, needle, i, |x|);
      if i + |needle| <= |x| {
        OccursLeft(x, " " + y, needle, i);
      } else {
        OccursRight(x + " ", y, needle, i - |x| - 1);
      }
    }
    forall i: nat | OccursAt(x, needle, i)
      ensures OccursAt(s, needle, i)
    {
      WithinLength(x, needle, i);
      OccursLeft(x, " " + y, needle, i);
    }
    forall i: nat | OccursAt(y, needle, i)
      ensures OccursAt(s, needle, |x| + 1 + i)
    {
      OccursRight(x + " ", y, needle, i);
    }
  }

  lemma WithinLength(s: string, needle: string, i: nat)
    requires OccursAt(s, needle, i)
    ensures i + |needle| <= |s|
  {
  }

  lemma LowerBlank()
    ensures Lower(" ") == " "
  {
    assert " "[1..] == "";
  }

  lemma {:induction false} NeedleInJoined(hosts: seq<string>, needle: string)
    requires needle != "" && ' ' !in needle
    ensures Contains(Lower(Joined(hosts)), needle) <==> exists h :: h in hosts && Contains(Lower(h), needle)
  {
    hide Contains, Lower;
    if |hosts| == 0 {
      NothingInNothing(needle);
    } else if |hosts| > 1 {
      NeedleInJoined(hosts[1..], needle);
      LowerBlank();
      LowerJoins(hosts[0] + " ", Joined(hosts[1..]));
      LowerJoins(hosts[0], " ");
      AcrossBlank(Lower(hosts[0]), Lower(Joined(hosts[1..])), needle);
      assert hosts == [hosts[0]] + hosts[1..];
    }
  }

  lemma NothingInNothing(needle: string)
    requires needle != ""
    ensures !Contains(Lower(""), needle)
  {
  }

  lemma NeedleInHay(hosts: seq<string>, domain: string, needle: string)
    requires needle != "" && ' ' !in needle
    ensures Contains(Lower(Joined(hosts) + " " + domain), needle) <==> Named(hosts, domain, needle)
  {
    hide Contains, Lower, Joined;
    LowerBlank();
    LowerJoins(Joined(hosts) + " ", domain);
    LowerJoins(Joined(hosts), " ");
    AcrossBlank(Lower(Joined(hosts)), Lower(domain), needle);
    NeedleInJoined(hosts, needle);
  }

  lemma {:induction false} FirstMatchIsFirst(table: seq<(string, Strategy)>, hay: string) returns (k: nat)
    ensures k <= |table| && forall j :: 0 <= j < k ==> !Contains(hay, table[j].0)
    ensures FirstMatch(table, hay) == if k < |table| then table[k].1 else GENERIC
    ensures k < |table| ==> Contains(hay, table[k].0)
  {
    hide Contains;
    if table == [] || Contains(hay, table[0].0) {
      k := 0;
    } else {
      var rest := FirstMatchIsFirst(table[1..], hay);
      k := rest + 1;
      assert forall j :: 0 < j < |table| ==> table[j] == table[1..][j - 1];
    }
  }

  lemma ListedNeedles()
    ensures forall k :: 0 <= k < |TABLE| ==> TABLE[k].0 != "" && ' ' !in TABLE[k].0 && !TABLE[k].1.trustRcpt
  {
  }

  /** The first listed provider that a host or the domain names gives its row; a destination
      that names none is generic. Replies are trusted exactly when no listed provider is named. */
  lemma ListedProvidersAreRecognised(hosts: seq<string>, domain: string, k: nat)
    requires k < |TABLE|
    ensures Named(hosts, domain, TABLE[k].0) && (forall j :: 0 <= j < k ==> !Named(hosts, domain, TABLE[j].0)) ==>
              StrategyFor(hosts, domain) == TABLE[k].1
    ensures StrategyFor(hosts, domain).trustRcpt <==> forall j :: 0 <= j < |TABLE| ==> !Named(hosts, domain, TABLE[j].0)
  {
    hide Named, Contains, Lower, Joined, FirstMatch;
    ListedNeedles();
    forall j | 0 <= j < |TABLE|
      ensures Contains(Lower(Joined(hosts) + " " + domain), TABLE[j].0) <==> Named(hosts, domain, TABLE[j].0)
    {
      NeedleInHay(hosts, domain, TABLE[j].0);
    }
    var first := FirstMatchIsFirst(TABLE, Lower(Joined(hosts) + " " + domain));
  }

  // ---------------------------------------------------------------- reading a reply

  datatype Reply = Reply(code: int, message: string)

  const PERMANENT_REJECT := {550, 551, 553, 554, 521, 501, 502}

  const TEMP_HINTS := ["greylist", "grey list", "graylist", "try again", "deferred", "temporarily", "later"]

  predicate IsTemporary(r: Reply) {
    400 <= r.code < 500 || exists h :: h in TEMP_HINTS && Contains(Lower(r.message), h)
  }

  function Clip(s: string): (r: string)
    ensures r <= s && |r| == Min(|s|, 160)
  {
    if |s| > 160 then s[..160] else s
  }

  predicate LooksLikeAntispam(low: string) {
    Contains(low, "block") || Contains(low, "spam") || Contains(low, "blacklist") || Contains(low, "policy")
  }

  function MapReply(r: Reply, strat: Strategy): ProbeResult
  {
    var msg := Clip(r.message);
    if r.code in {250, 251} then
      if strat.trustRcpt then ProbeResult(Confirmed, false, r.code, msg)
      else ProbeResult(Inconclusive, false, r.code, "provider_unreliable")
    else if r.code in PERMANENT_REJECT then
      if LooksLikeAntispam(Lower(msg)) then ProbeResult(Inconclusive, false, r.code, "antispam_block")
      else ProbeResult(Rejected, false, r.code, msg)
    else if IsTemporary(r) then ProbeResult(Inconclusive, false, r.code, "greylisted")
    else ProbeResult(Inconclusive, false, r.code, if msg != "" then msg else "unknown")
  }

  /** One probe, given what the catch-all check returned for the domain and what the
      server replied to the recipient. */
  function ServiceProbe(hosts: seq<string>, domain: string, isCatchAll: bool, reply: Reply): ProbeResult
  {
    if hosts == [] then ProbeResult(Inconclusive, false, 0, "no_mx_hosts")
    else
      var strat := StrategyFor(hosts, domain);
      if strat.supportsCatchAllProbe && isCatchAll then ProbeResult(CatchAllDomain, true, 250, "catch_all")
      else MapReply(reply, strat)
  }

  // ---------------------------------------------------------------- end to end

  function ServiceVerdict(l: Layers, email: string, dns: bool, smtp: bool, domain: string, isCatchAll: bool, reply: Reply): VerdictData {
    Verified(l, email, dns, smtp, (e, hosts) => ServiceProbe(hosts, domain, isCatchAll, reply))
  }

  function HostsProbed(l: Layers, dns: bool, domain: string): seq<string> {
    if dns then l.resolve(domain).hosts else [domain]
  }

  /** The cheaper layers left something to probe. */
  predicate ReachesProbe(l: Layers, p: Parts, dns: bool, smtp: bool) {
    smtp && DropRootDots(Strip(Lower(p.domain))) !in l.disposable && (dns ==> l.resolve(p.domain).found)
  }

  lemma ReplyOutcome(reply: Reply, strat: Strategy)
    ensures var r := MapReply(reply, strat);
            && !r.isCatchAll && r.outcome != CatchAllDomain
            && (r.outcome == Confirmed <==> reply.code in {250, 251} && strat.trustRcpt)
            && (r.outcome == Rejected <==> reply.code in PERMANENT_REJECT && !LooksLikeAntispam(Lower(Clip(reply.message))))
  {
    hide Contains, IsTemporary, LooksLikeAntispam, Lower;
  }

  // What folding the service's answer into an unprobed verdict concludes.
  lemma OverwriteByService(d: VerdictData, hosts: seq<string>, domain: string, isCatchAll: bool, reply: Reply)
    requires d.status in {Risky, Unknown}
    ensures var v := Overwritten(d, ServiceProbe(hosts, domain, isCatchAll, reply));
            && v.isRole == d.isRole && v.smtp.Some?
            && (v.status == Valid <==>
                  hosts != [] && reply.code in {250, 251} && StrategyFor(hosts, domain).trustRcpt && !isCatchAll && !d.isRole)
            && (v.status == Invalid ==> reply.code in PERMANENT_REJECT)
  {
    hide Contains, StrategyFor, Scored, MapReply;
    TrustRequiresCatchAllCheck(hosts, domain);
    ReplyOutcome(reply, StrategyFor(hosts, domain));
  }

  lemma BeforeProbe(l: Layers, email: string, p: Parts, dns: bool, prober: Prober)
    requires l.check(email) == Some(p)
    ensures var d := Validated(l, email, dns, false, prober);
            && d.domain == Some(p.domain) && d.smtp.None? && d.isRole == (Strip(Lower(p.local)) in l.roles)
            && d.status != Valid
            && (ReachesProbe(l, p, dns, true) ==> d.status in {Risky, Unknown} && (dns ==> d.mxFound))
            && (!ReachesProbe(l, p, dns, true) ==> d.status in {Invalid, Disposable} || (dns && !d.mxFound))
  {
    hide Lower, Strip, DropRootDots, NormalizeParts, Scored;
  }

  /** VALID means: a 250 or 251 reply to the recipient, a provider whose acceptance is
      trusted, a negative catch-all answer recorded for the domain, and a person's mailbox;
      and those together, when the cheaper layers let the probe happen, mean VALID. */
  lemma ValidExactlyOnEvidence(l: Layers, email: string, p: Parts, dns: bool, smtp: bool, answer: bool, reply: Reply,
                               run: seq<CatchAll.State>, events: seq<CatchAll.Event>, i: nat, t: CatchAll.Task)
    requires l.check(email) == Some(p)
    requires CatchAll.IsRun(run, events) && i < |run|
    requires ReachesProbe(l, p, dns, smtp) && HostsProbed(l, dns, p.domain) != [] &&
             StrategyFor(HostsProbed(l, dns, p.domain), p.domain).supportsCatchAllProbe ==>
               t in run[i].calls && run[i].calls[t] == CatchAll.Call(p.domain, CatchAll.Answered(answer))
    ensures var v := ServiceVerdict(l, email, dns, smtp, p.domain, answer, reply);
            var hosts := HostsProbed(l, dns, p.domain);
            v.status == Valid <==>
              && ReachesProbe(l, p, dns, smtp) && hosts != []
              && reply.code in {250, 251} && StrategyFor(hosts, p.domain).trustRcpt
              && p.domain in run[i].cache && !run[i].cache[p.domain]
              && !v.isRole
  {
    hide Validated, Overwritten, ReachesProbe, StrategyFor, Strip, Lower, DropRootDots;
    CatchAll.RunKeepsInv(run, events, i);
    var hosts := HostsProbed(l, dns, p.domain);
    TrustRequiresCatchAllCheck(hosts, p.domain);
    var prober: Prober := (e, hosts) => ServiceProbe(hosts, p.domain, answer, reply);
    BeforeProbe(l, email, p, dns, prober);
    ReachingNeedsSmtp(l, p, dns, smtp);
    var d := Validated(l, email, dns, false, prober);
    if d.status in {Risky, Unknown} {
      OverwriteByService(d, hosts, p.domain, answer, reply);
    }
  }

  lemma ReachingNeedsSmtp(l: Layers, p: Parts, dns: bool, smtp: bool)
    ensures ReachesProbe(l, p, dns, smtp) <==> smtp && ReachesProbe(l, p, dns, true)
  {
  }

  /** A 4xx reply to the recipient never settles the address either way. */
  lemma TemporaryReplyNeverSettles(l: Layers, email: string, p: Parts, dns: bool, smtp: bool, isCatchAll: bool, reply: Reply)
    requires l.check(email) == Some(p) && 400 <= reply.code < 500
    requires ServiceVerdict(l, email, dns, smtp, p.domain, isCatchAll, reply).smtp.Some?
    ensures ServiceVerdict(l, email, dns, smtp, p.domain, isCatchAll, reply).status !in {Valid, Invalid}
  {
    hide Validated, Overwritten, ReachesProbe, StrategyFor, Strip, Lower, DropRootDots;
    var prober: Prober := (e, hosts) => ServiceProbe(hosts, p.domain, isCatchAll, reply);
    BeforeProbe(l, email, p, dns, prober);
    var d := Validated(l, email, dns, false, prober);
    if d.status in {Risky, Unknown} {
      OverwriteByService(d, HostsProbed(l, dns, p.domain), p.domain, isCatchAll, reply);
    }
  }

  lemma TemporaryReply(reply: Reply, strat: Strategy)
    requires 400 <= reply.code < 500
    ensures MapReply(reply, strat) == ProbeResult(Inconclusive, false, reply.code, "greylisted")
    ensures Contains("greylisted", "greylist")
  {
    hide Lower, LooksLikeAntispam;
    assert "greylist" <= "greylisted";
  }

  lemma DeferralIsNamed(d: VerdictData, probe: ProbeResult)
    requires probe.outcome == Inconclusive && !probe.isCatchAll && Contains(probe.detail, "greylist")
    ensures Overwritten(d, probe) == d.(smtp := Some(probe), sub := Greylisted)
  {
    hide Contains, Scored;
  }

  /** A 4xx reply that is consulted at all keeps the status of the cheaper layers and names
      greylisting, which is what marks the address for a deferred re-probe. */
  lemma TemporaryReplyIsDeferred(l: Layers, email: string, p: Parts, dns: bool, isCatchAll: bool, reply: Reply)
    requires l.check(email) == Some(p) && 400 <= reply.code < 500 && ReachesProbe(l, p, dns, true)
    requires var hosts := HostsProbed(l, dns, p.domain);
             hosts != [] && !(isCatchAll && StrategyFor(hosts, p.domain).supportsCatchAllProbe)
    ensures var v := ServiceVerdict(l, email, dns, true, p.domain, isCatchAll, reply);
            v.status in {Risky, Unknown} && v.sub == Greylisted && v.smtp.Some? && v.smtp.value.detail == "greylisted"
  {
    hide Validated, Overwritten, ReachesProbe, StrategyFor, Strip, Lower, DropRootDots, MapReply, Contains;
    var prober: Prober := (e, hosts) => ServiceProbe(hosts, p.domain, isCatchAll, reply);
    BeforeProbe(l, email, p, dns, prober);
    var hosts := HostsProbed(l, dns, p.domain);
    TemporaryReply(reply, StrategyFor(hosts, p.domain));
    DeferralIsNamed(Validated(l, email, dns, false, prober), ServiceProbe(hosts, p.domain, isCatchAll, reply));
  }

  /** A negative answer need not be a refusal. When the server merely defers the made-up
      recipient, the domain counts as not catch-all from then on, and an accepted reply to any
      real recipient of a trusted provider is VALID. */
  lemma ValidAfterDeferredCheck(l: Layers, email: string, p: Parts, dns: bool, code: int, reply: Reply)
    returns (run: seq<CatchAll.State>, events: seq<CatchAll.Event>)
    requires l.check(email) == Some(p) && 400 <= code < 500 && reply.code in {250, 251}
    requires ReachesProbe(l, p, dns, true) && HostsProbed(l, dns, p.domain) != []
    requires StrategyFor(HostsProbed(l, dns, p.domain), p.domain).trustRcpt && Strip(Lower(p.local)) !in l.roles
    ensures CatchAll.IsRun(run, events) && |events| == 5 && events[4] == CatchAll.Reply(0, code)
    ensures 0 in run[5].calls && run[5].calls[0] == CatchAll.Call(p.domain, CatchAll.Answered(false))
    ensures ServiceVerdict(l, email, dns, true, p.domain, false, reply).status == Valid
  {
    hide Validated, Overwritten, ReachesProbe, StrategyFor, Strip, Lower, DropRootDots, CatchAll.IsRun, CatchAll.Apply;
    run, events := CatchAll.AnyOtherCodeRecordsNegative(p.domain, code);
    var hosts := HostsProbed(l, dns, p.domain);
    var prober: Prober := (e, hosts) => ServiceProbe(hosts, p.domain, false, reply);
    BeforeProbe(l, email, p, dns, prober);
    OverwriteByService(Validated(l, email, dns, false, prober), hosts, p.domain, false, reply);
  }

  /** Once the made-up recipient was accepted with 250 or 251, every address of the domain that
      is probed under a strategy with the check is RISKY for catch-all, whatever its own
      mailbox would have answered. */
  lemma AcceptedMadeUpRecipientIsRisky(l: Layers, email: string, p: Parts, dns: bool, answer: bool, reply: Reply,
                                       run: seq<CatchAll.State>, events: seq<CatchAll.Event>, k: nat, i: nat, t: CatchAll.Task)
    requires l.check(email) == Some(p) && ReachesProbe(l, p, dns, true) && HostsProbed(l, dns, p.domain) != []
    requires StrategyFor(HostsProbed(l, dns, p.domain), p.domain).supportsCatchAllProbe
    requires CatchAll.IsRun(run, events) && k < i < |run|
    requires CatchAll.RepliesFor(run, events, k, p.domain) && events[k].code in {250, 251}
    requires t in run[i].calls && run[i].calls[t] == CatchAll.Call(p.domain, CatchAll.Answered(answer))
    ensures answer
    ensures var v := ServiceVerdict(l, email, dns, true, p.domain, answer, reply);
            v.status == Risky && v.sub == SubStatus.CatchAll && v.isCatchAll && v.smtp == Some(ProbeResult(CatchAllDomain, true, 250, "catch_all"))
  {
    hide Validated, ReachesProbe, StrategyFor, Strip, Lower, DropRootDots, Contains, Scored, MapReply;
    CatchAll.RunKeepsInv(run, events, i);
    var only := CatchAll.AnswerRestsOnOneReply(run, events, i, p.domain);
    var prober: Prober := (e, hosts) => ServiceProbe(hosts, p.domain, answer, reply);
    BeforeProbe(l, email, p, dns, prober);
  }
}
