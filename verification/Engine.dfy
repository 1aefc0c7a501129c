// The per-address pipeline (src/eve/engine.py) and its asynchronous counterpart in the
// bulk run (src/eve/jobs/pipeline.py): cheap layers first, then the probe outcome.

module Engine {
  import opened Common
  import opened Verdicts
  import opened Normalize

  // ---------------------------------------------------------------- layers below the engine

  datatype MxError = NoError | LookupTimeout | DnsFailure | NullMxRecord | NoMailServer

  datatype MxResult = MxResult(found: bool, hosts: seq<string>, error: MxError)

  /** What the resolver said: MX hosts in preference order, or no MX record and whether an
      A or AAAA record exists, or a failure. */
  datatype MxAnswer = Records(hosts: seq<string>) | NoRecord(hasAddress: bool) | TimedOut | Failed

  function DropEmpty(hosts: seq<string>): (r: seq<string>)
    ensures forall h :: h in r <==> h in hosts && h != ""
    ensures r != [] ==> exists k :: 0 <= k < |hosts| && hosts[k] == r[0] && forall j :: 0 <= j < k ==> hosts[j] == ""
  {
    if hosts == [] then []
    else (if hosts[0] == "" then [] else [hosts[0]]) + DropEmpty(hosts[1..])
  }

  /** MX lookup with the implicit-MX fallback of section 5.1 of RFC 5321. */
  function ResolveUncached(domain: string, answer: MxAnswer): (r: MxResult)
    ensures r.found ==> r.hosts != []
    ensures answer.Records? && r.found ==>
              exists k :: 0 <= k < |answer.hosts| && answer.hosts[k] == r.hosts[0] && forall j :: 0 <= j < k ==> answer.hosts[j] == ""
    ensures answer == NoRecord(true) ==> r.hosts == [domain]
    ensures r.found <==> (answer.Records? && exists h :: h in answer.hosts && h != "") || (answer.NoRecord? && answer.hasAddress)
  {
    match answer
    case Records(hosts) =>
      var kept := DropEmpty(hosts);
      if kept != [] then (assert kept[0] in kept; MxResult(true, kept, NoError)) else MxResult(false, [], NullMxRecord)
    case NoRecord(hasAddress) =>
      if hasAddress then MxResult(true, [domain], NoError) else MxResult(false, [], NoMailServer)
    case TimedOut => MxResult(false, [], LookupTimeout)
    case Failed => MxResult(false, [], DnsFailure)
  }

  /** The layers the engine calls, with the data files as arbitrary sets and the network as
      a function of the domain. */
  datatype Layers = Layers(
    check: Parser,
    suggest: string -> Option<string>,
    disposable: set<string>,
    roles: set<string>,
    free: set<string>,
    resolve: string -> MxResult
  )

  type Prober = (string, seq<string>) -> ProbeResult

  // ---------------------------------------------------------------- scoring and aggregation, as values

  function Scored(d: VerdictData, base: int): int {
    var typo := if d.suggestion.Some? then 10 else 0;
    var role := if d.isRole && d.status != Invalid && d.status != Disposable then 5 else 0;
    var free := if d.isFree then 2 else 0;
    Max(0, Min(100, base - typo - role - free))
  }

  function Settle(d: VerdictData, status: Status, sub: SubStatus, base: int): VerdictData {
    var e := d.(status := status, sub := sub);
    e.(score := Scored(e, base))
  }

  function Finalized(d: VerdictData): VerdictData {
    if d.isRole then Settle(d, Risky, RoleAccount, 55) else Settle(d, Unknown, Ok, 70)
  }

  function Folded(d: VerdictData, probe: ProbeResult): VerdictData {
    if probe.isCatchAll || probe.outcome == CatchAllDomain then Settle(d.(isCatchAll := true), Risky, CatchAll, 50)
    else match probe.outcome
      case Confirmed => if d.isRole then Settle(d, Risky, RoleAccount, 55) else Settle(d, Valid, Ok, 95)
      case Rejected => Settle(d, Invalid, MailboxNotFound, 5)
      case _ =>
        var sub :=
          if Contains(probe.detail, "greylist") then Greylisted
          else if Contains(probe.detail, "antispam") || Contains(probe.detail, "block") then AntispamBlock
          else Unsettled;
        if d.isRole then Settle(d, Risky, sub, 55) else Settle(d, Unknown, sub, 60)
  }

  /** The probe answered the question, so its outcome replaces the cheaper conclusion. */
  predicate Settles(probe: ProbeResult) {
    probe.isCatchAll || probe.outcome != Inconclusive
  }

  function Fresh(email: string): VerdictData {
    VerdictData(email, Unknown, Unsettled, 0, None, None, None, false, false, false, false, false, None)
  }

  /** Layers 1, 2, 3 and 5: parsing, normalisation, typo suggestion, classification. */
  function Classified(l: Layers, email: string, p: Parts): VerdictData {
    var s := l.suggest(p.domain);
    var domain := DropRootDots(Strip(Lower(p.domain)));
    Fresh(email).(
      domain := Some(p.domain),
      normalizedEmail := Some(NormalizeParts(p).email),
      suggestion := if s.Some? && s.value != "" && s.value != p.domain then Some(p.local + "@" + s.value) else None,
      isDisposable := domain in l.disposable,
      isRole := Strip(Lower(p.local)) in l.roles,
      isFree := domain in l.free)
  }

  function Unreachable(d: VerdictData, error: MxError): VerdictData {
    if error == LookupTimeout then Settle(d, Unknown, Timeout, 40)
    else if error == NoError || error == DnsFailure then Settle(d, Unknown, DnsError, 40)
    else Settle(d, Invalid, NoMx, 3)
  }

  function Validated(l: Layers, email: string, enableDns: bool, enableSmtp: bool, prober: Prober): VerdictData
  {
    match l.check(email)
    case None => Fresh(email).(status := Invalid, sub := InvalidSyntax)
    case Some(p) =>
      var d := Classified(l, email, p);
      var mx := l.resolve(p.domain);
      if d.isDisposable then Settle(d, Disposable, DisposableDomain, 15)
      else if enableDns && !mx.found then Unreachable(d, mx.error)
      else
        var r := if enableDns then d.(mxFound := true) else d;
        if enableSmtp && enableDns && mx.hosts != [] then Probed(r, prober(NormalizeParts(p).email, mx.hosts))
        else Finalized(r)
  }

  /** An inconclusive probe falls through to the aggregation without SMTP. */
  function Probed(d: VerdictData, probe: ProbeResult): VerdictData {
    var r := d.(smtp := Some(probe));
    if Settles(probe) then Folded(r, probe) else Finalized(r)
  }

  /** The bulk run's form: finalise without SMTP first, then overwrite. */
  function Verified(l: Layers, email: string, enableDns: bool, enableSmtp: bool, prober: Prober): VerdictData
  {
    var d := Validated(l, email, enableDns, false, prober);
    if !enableSmtp || d.status == Invalid || d.status == Disposable || (enableDns && !d.mxFound) then d
    else
      var domain := if d.domain.Some? then d.domain.value else "";
      Overwritten(d, prober(email, if enableDns then l.resolve(domain).hosts else [domain]))
  }

  function Overwritten(d: VerdictData, probe: ProbeResult): VerdictData {
    var r := d.(smtp := Some(probe));
    if Settles(probe) then Folded(r, probe)
    else if Contains(probe.detail, "greylist") then r.(sub := Greylisted)
    else r
  }

  // ---------------------------------------------------------------- the engine, assigning fields

  class Verdict {
    var email: string
    var status: Status
    var sub: SubStatus
    var score: int
    var normalizedEmail: Option<string>
    var domain: Option<string>
    var suggestion: Option<string>
    var isDisposable: bool
    var isRole: bool
    var isFree: bool
    var isCatchAll: bool
    var mxFound: bool
    var smtp: Option<ProbeResult>
    ghost var foldedUnknown: bool   // the last branch of `ApplyProbeOutcome` ran

    constructor (email: string)
      ensures Data() == Fresh(email) && !foldedUnknown
    {
      this.email := email;
      status, sub, score := Unknown, Unsettled, 0;
      normalizedEmail, domain, suggestion, smtp := None, None, None, None;
      isDisposable, isRole, isFree, isCatchAll, mxFound := false, false, false, false, false;
      foldedUnknown := false;
    }

    ghost function Data(): VerdictData
      reads this
    {
      VerdictData(email, status, sub, score, normalizedEmail, domain, suggestion,
                  isDisposable, isRole, isFree, isCatchAll, mxFound, smtp)
    }

    method Score(base: int) returns (s: int)
      ensures s == Scored(Data(), base)
    {
      s := base;
      if suggestion.Some? {
        s := s - 10;
      }
      if isRole && status != Invalid && status != Disposable {
        s := s - 5;
      }
      if isFree {
        s := s - 2;
      }
      s := Max(0, Min(100, s));
    }

    method Conclude(status: Status, sub: SubStatus, base: int)
      modifies this
      ensures Data() == Settle(old(Data()), status, sub, base) && foldedUnknown == old(foldedUnknown)
    {
      hide Scored;
      this.status, this.sub := status, sub;
      score := Score(base);
    }

    method FinalizeWithoutSmtp()
      modifies this
      ensures Data() == Finalized(old(Data())) && foldedUnknown == old(foldedUnknown)
    {
      hide Settle;
      if isRole {
        Conclude(Risky, RoleAccount, 55);
      } else {
        Conclude(Unknown, Ok, 70);
      }
    }

    method ApplyProbeOutcome(probe: ProbeResult)
      modifies this
      ensures Data() == Folded(old(Data()), probe)
      ensures foldedUnknown == (old(foldedUnknown) || !Settles(probe))
    {
      hide Contains, Settle;
      if probe.isCatchAll || probe.outcome == CatchAllDomain {
        isCatchAll := true;
        Conclude(Risky, CatchAll, 50);
      } else if probe.outcome == Confirmed {
        if isRole {
          Conclude(Risky, RoleAccount, 55);
        } else {
          Conclude(Valid, Ok, 95);
        }
      } else if probe.outcome == Rejected {
        Conclude(Invalid, MailboxNotFound, 5);
      } else {
        foldedUnknown := true;
        var reason := Unsettled;
        if Contains(probe.detail, "greylist") {
          reason := Greylisted;
        } else if Contains(probe.detail, "antispam") || Contains(probe.detail, "block") {
          reason := AntispamBlock;
        }
        Conclude(if isRole then Risky else Unknown, reason, if isRole then 55 else 60);
      }
    }

    /** Layers 2, 3 and 5. */
    method Classify(l: Layers, p: Parts)
      requires Data() == Fresh(email)
      modifies this
      ensures Data() == Classified(l, old(email), p) && foldedUnknown == old(foldedUnknown)
    {
      hide Lower, Strip, DropRootDots, NormalizeParts, LowerChar, Blank;
      domain := Some(p.domain);
      normalizedEmail := Some(NormalizeParts(p).email);
      var s := l.suggest(p.domain);
      if s.Some? && s.value != "" && s.value != p.domain {
        suggestion := Some(p.local + "@" + s.value);
      }
      var clean := DropRootDots(Strip(Lower(p.domain)));
      isDisposable := clean in l.disposable;
      isRole := Strip(Lower(p.local)) in l.roles;
      isFree := clean in l.free;
    }

    /** No mail server was found, or the lookup itself failed. */
    method RejectUnreachable(error: MxError)
      modifies this
      ensures Data() == Unreachable(old(Data()), error) && foldedUnknown == old(foldedUnknown)
    {
      hide Settle;
      if error in {LookupTimeout, NoError, DnsFailure} {
        Conclude(Unknown, if error == LookupTimeout then Timeout else DnsError, 40);
      } else {
        Conclude(Invalid, NoMx, 3);
      }
    }

    method UseProbe(probe: ProbeResult)
      modifies this
      ensures Data() == Probed(old(Data()), probe) && foldedUnknown == old(foldedUnknown)
    {
      hide Folded, Finalized;
      smtp := Some(probe);
      if probe.isCatchAll || probe.outcome in {Confirmed, Rejected, CatchAllDomain} {
        ApplyProbeOutcome(probe);
      } else {
        FinalizeWithoutSmtp();
      }
    }

    /** A 4xx defers rather than answers: the status stays, the sub-status names the reason. */
    method Overwrite(probe: ProbeResult)
      modifies this
      ensures Data() == Overwritten(old(Data()), probe) && foldedUnknown == old(foldedUnknown)
    {
      hide Contains, Folded;
      smtp := Some(probe);
      if probe.isCatchAll || probe.outcome in {Confirmed, Rejected, CatchAllDomain} {
        ApplyProbeOutcome(probe);
      } else if Contains(probe.detail, "greylist") {
        sub := Greylisted;
      }
    }
  }

  /** Synchronous validation; the unknown branch of `ApplyProbeOutcome` is not reached. */
  method Validate(l: Layers, email: string, enableDns: bool, enableSmtp: bool, prober: Prober) returns (v: Verdict)
    ensures fresh(v) && v.Data() == Validated(l, email, enableDns, enableSmtp, prober) && !v.foldedUnknown
  {
    hide NormalizeParts, Settle, Finalized, Probed, Unreachable;
    v := new Verdict(email);
    var syn := l.check(email);
    if syn.None? {
      v.status, v.sub, v.score := Invalid, InvalidSyntax, 0;
      return;
    }
    var p := syn.value;
    v.Classify(l, p);
    if v.isDisposable {
      v.Conclude(Disposable, DisposableDomain, 15);
      return;
    }
    var hosts: seq<string> := [];
    if enableDns {
      var mx := l.resolve(p.domain);
      v.mxFound := mx.found;
      hosts := mx.hosts;
      if !mx.found {
        v.RejectUnreachable(mx.error);
        return;
      }
    }
    if enableSmtp && hosts != [] {
      v.UseProbe(prober(v.normalizedEmail.value, hosts));
    } else {
      v.FinalizeWithoutSmtp();
    }
  }

  /** The bulk run's verification; it does not reach the unknown branch either. */
  method VerifyEmail(l: Layers, email: string, enableDns: bool, enableSmtp: bool, prober: Prober) returns (v: Verdict)
    ensures fresh(v) && v.Data() == Verified(l, email, enableDns, enableSmtp, prober) && !v.foldedUnknown
  {
    hide Overwritten, Validated;
    v := Validate(l, email, enableDns, false, prober);
    if !enableSmtp || v.status in {Invalid, Disposable} {
      return;
    }
    var domain := if v.domain.Some? then v.domain.value else "";
    var hosts := [domain];
    if enableDns {
      if !v.mxFound {
        return;
      }
      hosts := l.resolve(domain).hosts;
    }
    v.Overwrite(prober(email, hosts));
  }

  // ---------------------------------------------------------------- properties

  /** A resolver that reports mail service names a host for it. */
  ghost predicate Resolves(l: Layers) {
    forall domain :: l.resolve(domain).found ==> l.resolve(domain).hosts != []
  }

  /** On normalised addresses with DNS on and the same probe result, the two forms agree on
      everything except a sub-status that the bulk form uses to name greylisting. */
  lemma BothFormsAgree(l: Layers, email: string, enableSmtp: bool, prober: Prober)
    requires Resolves(l)
    requires l.check(email).Some? ==> NormalizeParts(l.check(email).value).email == email
    ensures var sync := Validated(l, email, true, enableSmtp, prober);
            var bulk := Verified(l, email, true, enableSmtp, prober);
            && bulk == sync.(sub := bulk.sub)
            && (bulk.sub != sync.sub ==>
                  bulk.sub == Greylisted && bulk.smtp.Some? && !Settles(bulk.smtp.value) && sync.sub in {Ok, RoleAccount})
  {
    hide NormalizeParts, Settle, Finalized, Probed, Overwritten, Unreachable, Classified;
    if l.check(email).Some? {
      var p := l.check(email).value;
      var d := Classified(l, email, p);
      ClassifiedParts(l, email, p);
      SettledFields(d, Disposable, DisposableDomain, 15);
      UnreachableFields(d, l.resolve(p.domain).error);
      var r := d.(mxFound := true);
      FinalizedFields(r);
      OverwriteAgrees(r, prober(email, l.resolve(p.domain).hosts));
    }
  }

  lemma ClassifiedParts(l: Layers, email: string, p: Parts)
    ensures Classified(l, email, p).domain == Some(p.domain) && !Classified(l, email, p).mxFound
  {
  }

  lemma SettledFields(d: VerdictData, status: Status, sub: SubStatus, base: int)
    ensures var e := Settle(d, status, sub, base);
            e == d.(status := status, sub := sub, score := e.score)
  {
  }

  lemma UnreachableFields(d: VerdictData, error: MxError)
    ensures Unreachable(d, error).mxFound == d.mxFound
  {
  }

  lemma FinalizedFields(d: VerdictData)
    ensures var e := Finalized(d);
            e == d.(status := e.status, sub := e.sub, score := e.score) && e.status in {Risky, Unknown} && e.sub in {RoleAccount, Ok}
  {
  }

  lemma SettleForgets(d: VerdictData, e: VerdictData, status: Status, sub: SubStatus, base: int)
    requires e == d.(status := e.status, sub := e.sub, score := e.score)
    ensures Settle(d, status, sub, base) == Settle(e, status, sub, base)
  {
  }

  // Folding a settling outcome forgets whatever had been concluded before.
  lemma FoldForgets(d: VerdictData, e: VerdictData, probe: ProbeResult)
    requires e == d.(status := e.status, sub := e.sub, score := e.score) && Settles(probe)
    ensures Folded(d, probe) == Folded(e, probe)
  {
    hide Settle;
    SettleForgets(d.(isCatchAll := true), e.(isCatchAll := true), Risky, CatchAll, 50);
    SettleForgets(d, e, Risky, RoleAccount, 55);
    SettleForgets(d, e, Valid, Ok, 95);
    SettleForgets(d, e, Invalid, MailboxNotFound, 5);
  }

  // Finalising before or after recording the probe is the same.
  lemma FinalizeCommutes(d: VerdictData, probe: ProbeResult)
    ensures Finalized(d).(smtp := Some(probe)) == Finalized(d.(smtp := Some(probe)))
  {
  }

  lemma OverwriteAgrees(d: VerdictData, probe: ProbeResult)
    ensures var sync, bulk := Probed(d, probe), Overwritten(Finalized(d), probe);
            && bulk == sync.(sub := bulk.sub)
            && (bulk.sub != sync.sub ==>
                  bulk.sub == Greylisted && bulk.smtp == Some(probe) && !Settles(probe) && sync.sub in {Ok, RoleAccount})
  {
    var f := Finalized(d);
    FinalizedFields(d);
    FinalizedFields(d.(smtp := Some(probe)));
    FinalizeCommutes(d, probe);
    hide Folded, Settle, Contains;
    if Settles(probe) {
      FoldForgets(d.(smtp := Some(probe)), f.(smtp := Some(probe)), probe);
    }
  }

  lemma SettledRange(d: VerdictData, status: Status, sub: SubStatus, base: nat)
    requires base <= 100
    ensures var v := Settle(d, status, sub, base);
            && v.status == status && v.email == d.email && v.normalizedEmail == d.normalizedEmail
            && 0 <= v.score <= base
            && (!d.isRole && base >= 12 ==> v.score >= base - 12)
  {
  }

  lemma FoldedScore(d: VerdictData, probe: ProbeResult)
    ensures var v := Folded(d, probe);
            && (if v.status == Valid then 83 <= v.score <= 95 else 0 <= v.score <= 60)
            && v.email == d.email && v.normalizedEmail == d.normalizedEmail
  {
    hide Settle;
    SettledRange(d.(isCatchAll := true), Risky, CatchAll, 50);
    SettledRange(d, Risky, RoleAccount, 55);
    SettledRange(d, Valid, Ok, 95);
    SettledRange(d, Invalid, MailboxNotFound, 5);
    var reason := if Contains(probe.detail, "greylist") then Greylisted
                  else if Contains(probe.detail, "antispam") || Contains(probe.detail, "block") then AntispamBlock
                  else Unsettled;
    SettledRange(d, Risky, reason, 55);
    SettledRange(d, Unknown, reason, 60);
    hide Contains;
  }

  lemma OverwrittenScore(d: VerdictData, probe: ProbeResult)
    requires d.status != Valid && 0 <= d.score <= 70
    ensures var v := Overwritten(d, probe);
            && (if v.status == Valid then 83 <= v.score <= 95 else 0 <= v.score <= 70)
            && v.email == d.email && v.normalizedEmail == d.normalizedEmail
  {
    hide Folded, Contains;
    FoldedScore(d.(smtp := Some(probe)), probe);
  }

  lemma FinalizedScore(d: VerdictData)
    ensures var v := Finalized(d); v.status != Valid && 0 <= v.score <= 70 && v.normalizedEmail == d.normalizedEmail && v.email == d.email
  {
  }

  lemma UnreachableScore(d: VerdictData, error: MxError)
    ensures var v := Unreachable(d, error);
            v.status != Valid && 0 <= v.score <= 70 && v.normalizedEmail == d.normalizedEmail && v.email == d.email
  {
  }

  lemma ValidatedScore(l: Layers, email: string, dns: bool, smtp: bool, prober: Prober)
    ensures var v := Validated(l, email, dns, smtp, prober);
            && (if v.status == Valid then 83 <= v.score <= 95 else 0 <= v.score <= 70)
            && (if v.normalizedEmail.Some? then v.normalizedEmail.value else v.email) == StoredAddress(l.check, email)
            && v.email == email && (v.normalizedEmail.Some? ==> l.check(email).Some?)
            && (v.status == Valid ==> smtp)
  {
    hide Lower, Strip, DropRootDots, NormalizeParts, Folded, Scored;
    if l.check(email).Some? {
      var p := l.check(email).value;
      var d := Classified(l, email, p);
      var r := if dns then d.(mxFound := true) else d;
      var probe := prober(NormalizeParts(p).email, l.resolve(p.domain).hosts);
      var q := r.(smtp := Some(probe));
      FoldedScore(q, probe);
      SettledRange(d, Disposable, DisposableDomain, 15);
      FinalizedScore(r);
      FinalizedScore(q);
      UnreachableScore(d, l.resolve(p.domain).error);
      hide Finalized, Unreachable;
    }
  }

  /** VALID scores lie strictly above all others, whatever the layers and whoever probed,
      and a verdict is stored under the canonical address of its cell. */
  lemma ValidScoresHighest(l: Layers, email: string, dns: bool, smtp: bool, prober: Prober, bulk: bool)
    ensures var v := if bulk then Verified(l, email, dns, smtp, prober) else Validated(l, email, dns, smtp, prober);
            && (if v.status == Valid then 83 <= v.score <= 95 else 0 <= v.score <= 70)
            && (if v.normalizedEmail.Some? then v.normalizedEmail.value else v.email) == StoredAddress(l.check, email)
            && v.email == email && (v.normalizedEmail.Some? ==> l.check(email).Some?)
  {
    hide Overwritten, Validated, StoredAddress;
    ValidatedScore(l, email, dns, smtp, prober);
    ValidatedScore(l, email, dns, false, prober);
    var d := Validated(l, email, dns, false, prober);
    var domain := if d.domain.Some? then d.domain.value else "";
    OverwrittenScore(d, prober(email, if dns then l.resolve(domain).hosts else [domain]));
  }
}
