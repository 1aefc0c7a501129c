// What a verdict says, in terms of what the layers and the mail server said: the decisions
// of src/eve/engine.py and src/eve/jobs/pipeline.py as laws over the inputs of both forms.

module Outcomes {
  import opened Common
  import opened Verdicts
  import opened Normalize
  import opened Engine
  import opened Evidence
  import Reprobe = Reprobe

  /** The verdict of either form. */
  function Outcome(l: Layers, email: string, dns: bool, smtp: bool, prober: Prober, bulk: bool): VerdictData {
    if bulk then Verified(l, email, dns, smtp, prober) else Validated(l, email, dns, smtp, prober)
  }

  /** The domain as the lists spell it. */
  function Cleaned(domain: string): string {
    DropRootDots(Strip(Lower(domain)))
  }

  // ---------------------------------------------------------------- what every step keeps

  predicate SameFlags(d: VerdictData, e: VerdictData) {
    && d.email == e.email && d.normalizedEmail == e.normalizedEmail && d.domain == e.domain
    && d.suggestion == e.suggestion && d.isDisposable == e.isDisposable && d.isRole == e.isRole && d.isFree == e.isFree
  }

  /** Points taken off for soft signals. */
  function Nudges(v: VerdictData): nat {
    (if v.suggestion.Some? then 10 else 0) + (if v.isFree then 2 else 0) +
    (if v.isRole && v.status !in {Invalid, Disposable} then 5 else 0)
  }

  /** The score is that of the conclusion, less the soft signals and never below zero. */
  predicate ScoreMatches(v: VerdictData) {
    match v.status
    case Valid => v.sub == Ok && v.score == 95 - Nudges(v)
    case Disposable => v.sub == DisposableDomain && v.score == 15 - Nudges(v)
    case Invalid =>
      (v.sub == NoMx && v.score == Max(0, 3 - Nudges(v))) || (v.sub == MailboxNotFound && v.score == Max(0, 5 - Nudges(v)))
    case Unknown =>
      (v.sub in {Timeout, DnsError} && v.score == 40 - Nudges(v)) || (v.sub in {Ok, Greylisted} && v.score == 70 - Nudges(v))
    case Risky =>
      (v.sub == SubStatus.CatchAll && v.score == 50 - Nudges(v)) || (v.sub in {RoleAccount, Greylisted} && v.score == 55 - Nudges(v))
  }

  lemma SettleScores(d: VerdictData, status: Status, sub: SubStatus, base: nat)
    requires base <= 100
    ensures var v := Settle(d, status, sub, base);
            && SameFlags(d, v) && v.status == status && v.sub == sub && v.score == Max(0, base - Nudges(v))
            && v.isCatchAll == d.isCatchAll && v.mxFound == d.mxFound && v.smtp == d.smtp
  {
  }

  lemma NudgesAreSmall(v: VerdictData)
    ensures Nudges(v) <= 17 && (v.status in {Invalid, Disposable} || !v.isRole ==> Nudges(v) <= 12)
  {
  }

  lemma DisposableScores(d: VerdictData)
    ensures var v := Settle(d, Disposable, DisposableDomain, 15); ScoreMatches(v) && SameFlags(d, v)
  {
    hide Settle, Nudges, SameFlags;
    SettleScores(d, Disposable, DisposableDomain, 15);
    NudgesAreSmall(Settle(d, Disposable, DisposableDomain, 15));
  }

  lemma FinalizedScores(d: VerdictData)
    ensures var v := Finalized(d);
            && ScoreMatches(v) && SameFlags(d, v) && v.status == (if d.isRole then Risky else Unknown)
            && v.sub == (if d.isRole then RoleAccount else Ok) && v.mxFound == d.mxFound && v.smtp == d.smtp && v.isCatchAll == d.isCatchAll
  {
    hide Settle, Nudges, SameFlags;
    SettleScores(d, Risky, RoleAccount, 55);
    SettleScores(d, Unknown, Ok, 70);
    NudgesAreSmall(Finalized(d));
  }

  lemma UnreachableScores(d: VerdictData, error: MxError)
    ensures var v := Unreachable(d, error);
            ScoreMatches(v) && SameFlags(d, v) && v.smtp == d.smtp && v.mxFound == d.mxFound && v.status != Disposable
  {
    hide Settle, Nudges, SameFlags;
    SettleScores(d, Unknown, Timeout, 40);
    SettleScores(d, Unknown, DnsError, 40);
    SettleScores(d, Invalid, NoMx, 3);
    NudgesAreSmall(Unreachable(d, error));
  }

  lemma FoldedScores(d: VerdictData, probe: ProbeResult)
    requires Settles(probe)
    ensures var v := Folded(d, probe);
            && ScoreMatches(v) && SameFlags(d, v) && v.smtp == d.smtp && v.mxFound == d.mxFound
            && v.sub !in {NoMx, Timeout, DnsError, Greylisted}
            && v.status == (if probe.isCatchAll || probe.outcome == CatchAllDomain then Risky
                            else if probe.outcome == Rejected then Invalid
                            else if d.isRole then Risky else Valid)
            && (v.sub == SubStatus.CatchAll <==> probe.isCatchAll || probe.outcome == CatchAllDomain)
            && (v.isCatchAll <==> d.isCatchAll || probe.isCatchAll || probe.outcome == CatchAllDomain)
  {
    hide Settle, Nudges, Contains;
    SettleScores(d.(isCatchAll := true), Risky, SubStatus.CatchAll, 50);
    SettleScores(d, Risky, RoleAccount, 55);
    SettleScores(d, Valid, Ok, 95);
    SettleScores(d, Invalid, MailboxNotFound, 5);
    NudgesAreSmall(Folded(d, probe));
  }

  lemma ProbedScores(d: VerdictData, probe: ProbeResult)
    ensures ScoreMatches(Probed(d, probe)) && SameFlags(d, Probed(d, probe)) && Probed(d, probe).smtp == Some(probe)
    ensures Probed(d, probe).sub !in {NoMx, Timeout, DnsError}
  {
    hide Folded, Finalized, ScoreMatches, Settles;
    var r := d.(smtp := Some(probe));
    if Settles(probe) {
      FoldedScores(r, probe);
    } else {
      FinalizedScores(r);
    }
  }

  lemma OverwrittenScores(d: VerdictData, probe: ProbeResult)
    requires ScoreMatches(d) && d.status in {Risky, Unknown} && d.sub in {Ok, RoleAccount}
    ensures var v := Overwritten(d, probe);
            ScoreMatches(v) && SameFlags(d, v) && v.smtp == Some(probe) && v.sub !in {NoMx, Timeout, DnsError}
  {
    hide Folded, Contains, Settles;
    if Settles(probe) {
      FoldedScores(d.(smtp := Some(probe)), probe);
    }
  }

  // ---------------------------------------------------------------- the layers' word

  /** What the resolver's answer says about a domain's mail service. */
  predicate NoMailService(a: MxAnswer) {
    (a.Records? && forall h :: h in a.hosts ==> h == "") || a == NoRecord(false)
  }

  lemma ResolvedError(domain: string, a: MxAnswer)
    ensures var r := ResolveUncached(domain, a);
            && (!r.found ==> r.error in {LookupTimeout, DnsFailure, NullMxRecord, NoMailServer})
            && (r.found <==> !NoMailService(a) && !a.TimedOut? && !a.Failed?)
            && (r.error == LookupTimeout <==> a.TimedOut?) && (r.error == DnsFailure <==> a.Failed?)
  {
    if a.Records? {
      assert DropEmpty(a.hosts) != [] ==> DropEmpty(a.hosts)[0] in DropEmpty(a.hosts);
    }
  }

  lemma UnreachableByError(d: VerdictData, error: MxError)
    requires error in {LookupTimeout, DnsFailure, NullMxRecord, NoMailServer}
    ensures var v := Unreachable(d, error);
            && (v.status == Invalid && v.sub == NoMx <==> error in {NullMxRecord, NoMailServer})
            && (v.status == Unknown && v.sub == Timeout <==> error == LookupTimeout)
            && (v.status == Unknown && v.sub == DnsError <==> error == DnsFailure)
  {
    hide Scored;
  }

  /** What the cheap layers make of a parsed address, before any probe. */
  lemma CheapLayers(l: Layers, email: string, p: Parts, dns: bool, smtp: bool, prober: Prober)
    requires l.check(email) == Some(p)
    ensures var d := Classified(l, email, p); var v := Validated(l, email, dns, smtp, prober);
            var r := if dns then d.(mxFound := true) else d; var mx := l.resolve(p.domain);
            && SameFlags(d, v) && ScoreMatches(v)
            && (d.isDisposable ==> v == Settle(d, Disposable, DisposableDomain, 15))
            && (!d.isDisposable && dns && !mx.found ==> v == Unreachable(d, mx.error))
            && (!d.isDisposable && (dns ==> mx.found) ==>
                  v == if smtp && dns && mx.hosts != [] then Probed(r, prober(NormalizeParts(p).email, mx.hosts)) else Finalized(r))
  {
    hide Classified, Settle, Unreachable, Probed, Finalized, ScoreMatches, NormalizeParts;
    var d := Classified(l, email, p);
    var r := if dns then d.(mxFound := true) else d;
    var mx := l.resolve(p.domain);
    DisposableScores(d);
    UnreachableScores(d, mx.error);
    FinalizedScores(r);
    ProbedScores(r, prober(NormalizeParts(p).email, mx.hosts));
  }

  // The bulk form probes exactly what the cheap layers leave open.
  lemma BulkForm(l: Layers, email: string, p: Parts, dns: bool, smtp: bool, prober: Prober)
    requires l.check(email) == Some(p)
    ensures var d := Classified(l, email, p); var cheap := Validated(l, email, dns, false, prober);
            var open := !d.isDisposable && (dns ==> l.resolve(p.domain).found);
            && (open ==> cheap.status in {Risky, Unknown} && cheap.sub in {Ok, RoleAccount} && cheap.isRole == d.isRole)
            && Verified(l, email, dns, smtp, prober) ==
               if smtp && open
               then Overwritten(cheap, prober(email, if dns then l.resolve(p.domain).hosts else [p.domain]))
               else cheap
  {
    hide Settle, Unreachable, Finalized, Overwritten, ScoreMatches, Validated, Classified, SameFlags;
    CheapLayers(l, email, p, dns, false, prober);
    var d := Classified(l, email, p);
    var r := if dns then d.(mxFound := true) else d;
    ClassifiedParts(l, email, p);
    FinalizedScores(r);
    SettledFields(d, Disposable, DisposableDomain, 15);
    UnreachableFields(d, l.resolve(p.domain).error);
    CheapFields(l, email, p, dns, prober);
  }

  lemma CheapFields(l: Layers, email: string, p: Parts, dns: bool, prober: Prober)
    requires l.check(email) == Some(p)
    ensures var d := Classified(l, email, p); var v := Validated(l, email, dns, false, prober);
            && v.domain == Some(p.domain) && (d.isDisposable ==> v.status == Disposable)
            && (!d.isDisposable && dns ==> v.mxFound == l.resolve(p.domain).found) && (!d.isDisposable ==> v.isRole == d.isRole)
  {
    hide Scored, Strip, Lower, DropRootDots, NormalizeParts;
  }

  // ---------------------------------------------------------------- verdicts over the inputs

  /** What does not parse is INVALID with score zero and is never probed. */
  lemma UnparsableIsInvalid(l: Layers, email: string, dns: bool, smtp: bool, prober: Prober, bulk: bool)
    requires l.check(email).None?
    ensures var v := Outcome(l, email, dns, smtp, prober, bulk);
            v.status == Invalid && v.sub == InvalidSyntax && v.score == 0 && v.smtp.None? && v.normalizedEmail.None?
  {
  }

  /** Whatever happens later, the flags of a parsed address are what the lists say of its parts,
      its suggestion is the layer's unless empty or the domain itself, and its score follows
      from its conclusion and these flags. */
  lemma FlagsComeFromTheLists(l: Layers, email: string, p: Parts, dns: bool, smtp: bool, prober: Prober, bulk: bool)
    requires l.check(email) == Some(p)
    ensures var v := Outcome(l, email, dns, smtp, prober, bulk); var s := l.suggest(p.domain);
            && (v.isDisposable <==> Cleaned(p.domain) in l.disposable)
            && (v.isFree <==> Cleaned(p.domain) in l.free)
            && (v.isRole <==> Strip(Lower(p.local)) in l.roles)
            && v.domain == Some(p.domain) && v.email == email && v.normalizedEmail == Some(NormalizeParts(p).email)
            && v.suggestion == (if s.None? || s.value == "" || s.value == p.domain then None else Some(p.local + "@" + s.value))
            && ScoreMatches(v)
  {
    hide Settle, Unreachable, Finalized, Probed, Overwritten, ScoreMatches, NormalizeParts, Strip, Lower, DropRootDots, Validated, Verified;
    CheapLayers(l, email, p, dns, smtp, prober);
    CheapLayers(l, email, p, dns, false, prober);
    BulkForm(l, email, p, dns, smtp, prober);
    var cheap := Validated(l, email, dns, false, prober);
    var probe := prober(email, if dns then l.resolve(p.domain).hosts else [p.domain]);
    if ScoreMatches(cheap) && cheap.status in {Risky, Unknown} && cheap.sub in {Ok, RoleAccount} {
      OverwrittenScores(cheap, probe);
    }
  }

  lemma OnlyListsSayDisposable(d: VerdictData, error: MxError, probe: ProbeResult)
    ensures Unreachable(d, error).status != Disposable && Finalized(d).status != Disposable
    ensures Probed(d, probe).status != Disposable
    ensures d.status != Disposable ==> Overwritten(d, probe).status != Disposable
  {
    hide Settle, Unreachable, Finalized, Folded, Settles, Contains, ScoreMatches, SameFlags;
    var e := d.(smtp := Some(probe));
    UnreachableScores(d, error);
    FinalizedScores(d);
    FinalizedScores(e);
    if Settles(probe) {
      FoldedScores(e, probe);
    }
  }

  /** A disposable domain settles the address before the network is asked. */
  lemma DisposableExactlyWhenListed(l: Layers, email: string, p: Parts, dns: bool, smtp: bool, prober: Prober, bulk: bool)
    requires l.check(email) == Some(p)
    ensures var v := Outcome(l, email, dns, smtp, prober, bulk);
            && (v.status == Disposable <==> Cleaned(p.domain) in l.disposable)
            && (v.status == Disposable ==> v.sub == DisposableDomain && v.smtp.None? && !v.mxFound)
  {
    hide ScoreMatches, NormalizeParts, Strip, Lower, DropRootDots, Settle, Unreachable, Finalized, Probed, Overwritten, Validated, Verified,
      SameFlags, Nudges;
    CheapLayers(l, email, p, dns, smtp, prober);
    CheapLayers(l, email, p, dns, false, prober);
    BulkForm(l, email, p, dns, smtp, prober);
    var d := Classified(l, email, p);
    var r := if dns then d.(mxFound := true) else d;
    var mx := l.resolve(p.domain);
    SettleScores(d, Disposable, DisposableDomain, 15);
    OnlyListsSayDisposable(d, mx.error, prober(NormalizeParts(p).email, mx.hosts));
    OnlyListsSayDisposable(r, mx.error, prober(NormalizeParts(p).email, mx.hosts));
    OnlyListsSayDisposable(Finalized(r), mx.error, prober(email, if dns then mx.hosts else [p.domain]));
  }

  /** With DNS on, in either form: no mail service means INVALID, a lookup that timed out or
      failed means UNKNOWN with that reason, and nothing else ends with these reasons. */
  lemma ResolverDecides(l: Layers, email: string, p: Parts, smtp: bool, prober: Prober, bulk: bool, a: MxAnswer)
    requires l.check(email) == Some(p) && Cleaned(p.domain) !in l.disposable
    requires l.resolve(p.domain) == ResolveUncached(p.domain, a)
    ensures var v := Outcome(l, email, true, smtp, prober, bulk);
            && (v.status == Invalid && v.sub == NoMx <==> (a.Records? && forall h :: h in a.hosts ==> h == "") || a == NoRecord(false))
            && (v.status == Unknown && v.sub == Timeout <==> a.TimedOut?)
            && (v.status == Unknown && v.sub == DnsError <==> a.Failed?)
  {
    hide Settle, Unreachable, Finalized, Probed, Overwritten, ScoreMatches, NormalizeParts, Strip, Lower, DropRootDots, Validated,
      Verified, ResolveUncached;
    ResolvedError(p.domain, a);
    CheapLayers(l, email, p, true, smtp, prober);
    CheapLayers(l, email, p, true, false, prober);
    BulkForm(l, email, p, true, smtp, prober);
    var d := Classified(l, email, p).(mxFound := true);
    var mx := l.resolve(p.domain);
    FinalizedScores(d);
    ProbedScores(d, prober(NormalizeParts(p).email, mx.hosts));
    if mx.found {
      OverwrittenScores(Finalized(d), prober(email, mx.hosts));
    } else {
      UnreachableByError(Classified(l, email, p), mx.error);
    }
  }

  /** An address probed with any outcome, in either form: the catch-all flag or outcome means
      RISKY, a rejection INVALID, a confirmation VALID for a person, and a role mailbox is RISKY
      unless rejected; what is left is UNKNOWN. */
  lemma ProbeDecides(l: Layers, email: string, p: Parts, dns: bool, prober: Prober, bulk: bool)
    requires l.check(email) == Some(p) && Cleaned(p.domain) !in l.disposable
    requires if bulk then (dns ==> l.resolve(p.domain).found) else dns && l.resolve(p.domain).found && l.resolve(p.domain).hosts != []
    ensures var v := Outcome(l, email, dns, true, prober, bulk);
            v.smtp.Some? &&
            var probe := v.smtp.value;
            var caught := probe.isCatchAll || probe.outcome == CatchAllDomain;
            && (v.sub == SubStatus.CatchAll <==> caught) && (v.isCatchAll <==> caught) && (v.mxFound <==> dns)
            && (v.status == Invalid <==> !caught && probe.outcome == Rejected)
            && (v.status == Valid <==> !caught && probe.outcome == Confirmed && !v.isRole)
            && (v.status == Risky <==> caught || (v.isRole && probe.outcome != Rejected))
            && v.status != Disposable
            && probe == if bulk then prober(email, if dns then l.resolve(p.domain).hosts else [p.domain])
                        else prober(NormalizeParts(p).email, l.resolve(p.domain).hosts)
  {
    hide Settle, Unreachable, Finalized, ScoreMatches, NormalizeParts, Strip, Lower, DropRootDots, Validated, Verified, Folded, Contains;
    CheapLayers(l, email, p, dns, true, prober);
    CheapLayers(l, email, p, dns, false, prober);
    BulkForm(l, email, p, dns, true, prober);
    var d := Classified(l, email, p);
    var r := if dns then d.(mxFound := true) else d;
    FinalizedScores(r);
    var cheap := Finalized(r);
    var probe := prober(email, if dns then l.resolve(p.domain).hosts else [p.domain]);
    OverwrittenScores(cheap, probe);
    if Settles(probe) {
      FoldedScores(cheap.(smtp := Some(probe)), probe);
    }
    var direct := prober(NormalizeParts(p).email, l.resolve(p.domain).hosts);
    ProbedScores(r, direct);
    if Settles(direct) {
      FoldedScores(r.(smtp := Some(direct)), direct);
    } else {
      FinalizedScores(r.(smtp := Some(direct)));
    }
  }

  // ---------------------------------------------------------------- verdicts over the server's reply

  lemma ClipKeepsCharacters(s: string, needle: string)
    requires Contains(Clip(s), needle)
    ensures Contains(s, needle)
  {
    ContainsIsSubstring(Clip(s), needle);
    ContainsIsSubstring(s, needle);
    var i: nat :| OccursAt(Clip(s), needle, i);
    assert OccursAt(s, needle, i);
  }

  lemma LowerKeepsOccurrence(s: string, needle: string)
    requires Contains(s, needle) && Lower(needle) == needle
    ensures Contains(Lower(s), needle)
  {
    hide Lower, LowerChar;
    ContainsIsSubstring(s, needle);
    ContainsIsSubstring(Lower(s), needle);
    var i: nat :| OccursAt(s, needle, i);
    var part := Lower(s)[i..i + |needle|];
    forall k | 0 <= k < |needle|
      ensures part[k] == needle[k]
    {
      assert s[i..i + |needle|][k] == s[i + k] == needle[k];
      assert Lower(needle)[k] == needle[k];
    }
    assert OccursAt(Lower(s), needle, i);
  }

  const GREYLIST := "greylist"

  lemma NoGreylist(s: string)
    requires 'g' !in s
    ensures !Contains(s, GREYLIST)
  {
    hide Contains;
    if Contains(s, GREYLIST) {
      assert GREYLIST[0] == 'g';
      ContainsItsCharacters(s, GREYLIST, 'g');
    }
  }

  lemma GreylistIsLower()
    ensures Lower(GREYLIST) == GREYLIST
  {
    hide Lower;
    forall k | 0 <= k < |GREYLIST|
      ensures Lower(GREYLIST)[k] == GREYLIST[k]
    {
    }
  }

  lemma GreylistIsHint()
    ensures GREYLIST in TEMP_HINTS && Contains("greylisted", GREYLIST)
  {
    hide Lower;
    assert TEMP_HINTS[0] == GREYLIST;
    assert GREYLIST <= "greylisted";
  }

  /** The server defers: a 4xx code, or another code that is neither an acceptance nor a
      permanent refusal and whose text hints at a temporary failure. */
  predicate Defers(r: Reply) {
    400 <= r.code < 500 ||
    (r.code !in {250, 251, 550, 551, 553, 554, 521, 501, 502} && exists h :: h in TEMP_HINTS && Contains(Lower(r.message), h))
  }

  /** A refusal for good, unless its text speaks of blocking. */
  predicate Refuses(r: Reply) {
    r.code in {550, 551, 553, 554, 521, 501, 502} &&
    !exists w :: w in {"block", "spam", "blacklist", "policy"} && Contains(Lower(Clip(r.message)), w)
  }

  lemma ReplyClasses(r: Reply)
    ensures Refuses(r) <==> r.code in PERMANENT_REJECT && !LooksLikeAntispam(Lower(Clip(r.message)))
    ensures Defers(r) <==> r.code !in {250, 251} && r.code !in PERMANENT_REJECT && IsTemporary(r)
  {
    hide Contains, Lower, Clip;
  }

  lemma GreylistTextIsTemporary(r: Reply)
    requires Contains(Clip(r.message), GREYLIST)
    ensures IsTemporary(r)
  {
    hide Contains, Lower;
    GreylistIsLower();
    GreylistIsHint();
    ClipKeepsCharacters(r.message, GREYLIST);
    LowerKeepsOccurrence(r.message, GREYLIST);
  }

  lemma FixedDetails()
    ensures !Contains("provider_unreliable", GREYLIST) && !Contains("antispam_block", GREYLIST)
    ensures !Contains("unknown", GREYLIST) && Contains("greylisted", GREYLIST)
  {
    hide Contains;
    NoGreylist("provider_unreliable");
    NoGreylist("antispam_block");
    NoGreylist("unknown");
    GreylistIsHint();
  }

  lemma ReplyMeaning(r: Reply, strat: Strategy)
    ensures var probe := MapReply(r, strat);
            && !probe.isCatchAll && probe.outcome != CatchAllDomain && probe.code == r.code
            && (probe.outcome == Confirmed <==> r.code in {250, 251} && strat.trustRcpt)
            && (probe.outcome == Rejected <==> Refuses(r))
            && (probe.outcome == Inconclusive ==> (Contains(probe.detail, "greylist") <==> Defers(r)))
            && (probe.outcome != Inconclusive ==> probe.detail == Clip(r.message))
            && (r.code in {250, 251} && !strat.trustRcpt ==> probe.detail == "provider_unreliable")
            && (r.code in {550, 551, 553, 554, 521, 501, 502} && !Refuses(r) ==> probe.detail == "antispam_block")
            && (Defers(r) ==> probe.outcome == Inconclusive && probe.detail == "greylisted")
  {
    hide Contains, Lower, Refuses, Defers, IsTemporary, LooksLikeAntispam, Clip;
    ReplyClasses(r);
    FixedDetails();
    if Contains(Clip(r.message), GREYLIST) {
      GreylistTextIsTemporary(r);
    }
  }

  /** The bulk form's verdict on an address it probes through the service, over what the
      catch-all check returned and what the server replied. */
  lemma ServiceDecides(l: Layers, email: string, p: Parts, dns: bool, isCatchAll: bool, reply: Reply)
    requires l.check(email) == Some(p) && ReachesProbe(l, p, dns, true) && HostsProbed(l, dns, p.domain) != []
    ensures var v := ServiceVerdict(l, email, dns, true, p.domain, isCatchAll, reply);
            var strat := StrategyFor(HostsProbed(l, dns, p.domain), p.domain);
            var caught := isCatchAll && strat.supportsCatchAllProbe;
            && (v.status == Valid <==> !caught && reply.code in {250, 251} && strat.trustRcpt && !v.isRole)
            && (v.status == Invalid <==> !caught && Refuses(reply))
            && (v.status == Risky <==> caught || (v.isRole && !Refuses(reply)))
            && (v.sub == SubStatus.CatchAll <==> caught)
            && (v.sub == Greylisted <==> !caught && Defers(reply))
            && v.status != Disposable && ScoreMatches(v)
  {
    hide Settle, Unreachable, Finalized, ScoreMatches, NormalizeParts, Strip, Lower, DropRootDots, Validated, Verified, Folded, Contains,
      StrategyFor, MapReply, Refuses, Defers;
    var hosts := HostsProbed(l, dns, p.domain);
    var prober: Prober := (e, hosts) => ServiceProbe(hosts, p.domain, isCatchAll, reply);
    CheapLayers(l, email, p, dns, false, prober);
    BulkForm(l, email, p, dns, true, prober);
    var d := Classified(l, email, p);
    var cheap := Validated(l, email, dns, false, prober);
    FinalizedScores(if dns then d.(mxFound := true) else d);
    ReplyMeaning(reply, StrategyFor(hosts, p.domain));
    var probe := ServiceProbe(hosts, p.domain, isCatchAll, reply);
    OverwrittenScores(cheap, probe);
    if Settles(probe) {
      FoldedScores(cheap.(smtp := Some(probe)), probe);
    }
  }

  // ---------------------------------------------------------------- what a retry's reply does to the queue

  lemma LongerNeedle(s: string)
    requires Contains(s, "greylisted")
    ensures Contains(s, "greylist")
  {
    hide Contains;
    ContainsIsSubstring(s, "greylisted");
    ContainsIsSubstring(s, "greylist");
    var i: nat :| OccursAt(s, "greylisted", i);
    assert s[i..i + 8] == s[i..i + 10][..8] == "greylisted"[..8] == "greylist";
    assert OccursAt(s, "greylist", i);
  }

  lemma CatchAllDetail()
    ensures !Contains("catch_all", "greylisted") && Contains("greylisted", "greylisted")
  {
    if Contains("catch_all", "greylisted") {
      LongerNeedle("catch_all");
      NoGreylist("catch_all");
    }
    assert "greylisted" <= "greylisted";
  }

  /** A retry is taken for deferred when the server defers it, and also when it answers it with
      a text that says `greylisted`: the queue reads the text, not the outcome. */
  lemma RetryReadsTheText(l: Layers, email: string, p: Parts, dns: bool, isCatchAll: bool, reply: Reply)
    requires l.check(email) == Some(p) && ReachesProbe(l, p, dns, true) && HostsProbed(l, dns, p.domain) != []
    ensures var v := ServiceVerdict(l, email, dns, true, p.domain, isCatchAll, reply);
            var strat := StrategyFor(HostsProbed(l, dns, p.domain), p.domain);
            var caught := isCatchAll && strat.supportsCatchAllProbe;
            && v.smtp.Some? && (!caught ==> v.smtp.value.code == reply.code)
            && (Reprobe.StillGreylisted(Some(v)) <==>
                  !caught && (Defers(reply) ||
                              ((Refuses(reply) || (reply.code in {250, 251} && strat.trustRcpt)) && Contains(Clip(reply.message), "greylisted"))))
  {
    hide Settle, Unreachable, Finalized, ScoreMatches, NormalizeParts, Strip, Lower, DropRootDots, Validated, Verified, Folded, Contains,
      StrategyFor, MapReply, Refuses, Defers, Settles;
    var hosts := HostsProbed(l, dns, p.domain);
    var strat := StrategyFor(hosts, p.domain);
    var prober: Prober := (e, hosts) => ServiceProbe(hosts, p.domain, isCatchAll, reply);
    CheapLayers(l, email, p, dns, false, prober);
    BulkForm(l, email, p, dns, true, prober);
    var d := Classified(l, email, p);
    FinalizedScores(if dns then d.(mxFound := true) else d);
    ReplyMeaning(reply, strat);
    CatchAllDetail();
    var probe := ServiceProbe(hosts, p.domain, isCatchAll, reply);
    OverwrittenScores(Validated(l, email, dns, false, prober), probe);
    if Contains(probe.detail, "greylisted") {
      LongerNeedle(probe.detail);
    }
  }

  /** Deferred again with an attempt left: the row stays for the next attempt, due after that
      attempt's delay. Deferred on the last one, or answered: the row goes. */
  lemma DeferredAgainIsRetried(l: Layers, email: string, p: Parts, dns: bool, isCatchAll: bool, reply: Reply,
                               policy: Reprobe.Policy, c: Reprobe.Claim, leasedUntil: real, now: real)
    requires l.check(email) == Some(p) && ReachesProbe(l, p, dns, true) && 400 <= reply.code < 500 && policy.Usable()
    requires var hosts := HostsProbed(l, dns, p.domain);
             hosts != [] && !(isCatchAll && StrategyFor(hosts, p.domain).supportsCatchAllProbe)
    ensures var v := Some(ServiceVerdict(l, email, dns, true, p.domain, isCatchAll, reply));
            var next := c.row.attempt + 1; var delay := policy.delays[Min(next, |policy.delays| - 1)];
            if next < policy.maxAttempts && delay >= 0
            then Reprobe.RowFor(policy, c, v, leasedUntil, now) == Some(Reprobe.Row(c.row.jobId, next, now + delay as real, now, reply.code)) &&
                 Reprobe.ResultFor(policy, c, v, true) == Reprobe.Retried
            else Reprobe.RowFor(policy, c, v, leasedUntil, now) == None && Reprobe.ResultFor(policy, c, v, true) == Reprobe.Exhausted
  {
    hide ServiceVerdict, ReachesProbe, StrategyFor, HostsProbed, Refuses, Contains, Reprobe.StillGreylisted;
    RetryReadsTheText(l, email, p, dns, isCatchAll, reply);
  }
}
