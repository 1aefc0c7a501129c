// Display address and dedupe key (src/eve/layers/normalize.py), and the key the bulk
// pipeline joins its two passes on (src/eve/jobs/pipeline.py).

module Normalize {
  import opened Common

  const PLUS_ALIAS_DOMAINS := {
    "gmail.com", "googlemail.com", "outlook.com", "hotmail.com", "live.com",
    "fastmail.com", "protonmail.com", "proton.me", "yahoo.com", "icloud.com"
  }

  const DOT_INSENSITIVE_DOMAINS := {"gmail.com", "googlemail.com"}

  function CanonicalDomain(domain: string): string {
    if domain == "googlemail.com" then "gmail.com" else domain
  }

  function BeforePlus(s: string): string {
    if s == "" || s[0] == '+' then "" else [s[0]] + BeforePlus(s[1..])
  }

  function WithoutDots(s: string): string {
    if s == "" then ""
    else if s[0] == '.' then WithoutDots(s[1..])
    else [s[0]] + WithoutDots(s[1..])
  }

  /** A syntactically valid address, split by the parser. */
  datatype Parts = Parts(local: string, domain: string)

  datatype Normalized = Normalized(email: string, key: string, domain: string)

  function NormalizeParts(p: Parts): Normalized
  {
    var local := Strip(p.local);
    var domain := DropRootDots(Lower(Strip(p.domain)));
    var canon := CanonicalDomain(domain);
    var tagless := if canon in PLUS_ALIAS_DOMAINS then BeforePlus(Lower(local)) else Lower(local);
    var keyLocal := if canon in DOT_INSENSITIVE_DOMAINS then WithoutDots(tagless) else tagless;
    Normalized(Lower(local) + "@" + domain, keyLocal + "@" + canon, domain)
  }

  // ---------------------------------------------------------------- string laws

  predicate NoBlanks(s: string) {
    forall i :: 0 <= i < |s| ==> !Blank(s[i])
  }

  lemma {:induction false} StripOfNoBlanks(s: string)
    requires NoBlanks(s)
    ensures Strip(s) == s
  {
  }

  lemma {:induction false} LowerKeepsBlanks(s: string)
    ensures NoBlanks(Lower(s)) <==> NoBlanks(s)
  {
    assert forall i :: 0 <= i < |s| ==> (Blank(Lower(s)[i]) <==> Blank(s[i]));
  }

  lemma {:induction false} LowerOfPrefix(s: string, t: string)
    requires t <= s && Lower(s) == s
    ensures Lower(t) == t
  {
    if t != "" {
      assert s[0] == t[0] && Lower(s)[0] == s[0];
      assert Lower(s)[1..] == Lower(s[1..]);
      LowerOfPrefix(s[1..], t[1..]);
    }
  }

  lemma AtSignSplitsOnce(x: string, d: string, y: string, e: string)
    requires x + "@" + d == y + "@" + e && '@' !in d && '@' !in e
    ensures x == y && d == e
  {
    LastIndexAfter(x, '@', d);
    LastIndexAfter(y, '@', e);
    var s := x + "@" + d;
    assert x == s[..|x|] && y == s[..|y|];
    assert d == s[|x| + 1..] && e == s[|y| + 1..];
  }

  // ---------------------------------------------------------------- laws of normalisation

  /** What the parser guarantees about the parts of an address. */
  predicate WellFormed(p: Parts) {
    NoBlanks(p.local) && NoBlanks(p.domain) && '@' !in p.domain
  }

  lemma NothingLeftToDrop(s: string)
    requires s != "" ==> s[|s| - 1] != '.'
    ensures DropRootDots(s) == s
  {
  }

  lemma DomainOf(p: Parts)
    requires WellFormed(p)
    ensures var d := NormalizeParts(p).domain;
            NoBlanks(d) && '@' !in d && Lower(d) == d && DropRootDots(d) == d
    ensures NormalizeParts(p).email == Lower(p.local) + "@" + NormalizeParts(p).domain
  {
    hide Strip, BeforePlus, WithoutDots, CanonicalDomain, Lower, DropRootDots;
    StripOfNoBlanks(p.local);
    StripOfNoBlanks(p.domain);
    LowerKeepsBlanks(p.domain);
    LowerTwice(p.domain);
    LowerOfPrefix(Lower(p.domain), NormalizeParts(p).domain);
    NothingLeftToDrop(NormalizeParts(p).domain);
  }

  /** Normalising what normalisation produced changes nothing. */
  lemma NormalizeIsStable(p: Parts)
    requires WellFormed(p)
    ensures var n := NormalizeParts(p); NormalizeParts(Parts(Lower(p.local), n.domain)) == n
  {
    DomainOf(p);
    LowerTwice(p.local);
    LowerKeepsBlanks(p.local);
    StripOfNoBlanks(p.local);
    StripOfNoBlanks(Lower(p.local));
    StripOfNoBlanks(NormalizeParts(p).domain);
  }

  /** Addresses displayed alike are keyed alike, so different keys mean different addresses. */
  lemma SameAddressSameKey(p: Parts, q: Parts)
    requires WellFormed(p) && WellFormed(q) && NormalizeParts(p).email == NormalizeParts(q).email
    ensures NormalizeParts(p).key == NormalizeParts(q).key
  {
    DomainOf(p);
    DomainOf(q);
    AtSignSplitsOnce(Lower(p.local), NormalizeParts(p).domain, Lower(q.local), NormalizeParts(q).domain);
    StripOfNoBlanks(p.local);
    StripOfNoBlanks(q.local);
  }

  // ---------------------------------------------------------------- the pipeline's join key

  datatype Work = Work(email: string, domain: string, validSyntax: bool)

  datatype Keyed = Keyed(key: string, work: Work)

  /** The address parser, which is not part of this model: any function honouring `Honest`. */
  type Parser = string -> Option<Parts>

  function DedupeKey(check: Parser, raw: string): Keyed
  {
    match check(raw)
    case None => Keyed(Lower(Strip(raw)), Work(raw, "", false))
    case Some(p) =>
      var n := NormalizeParts(p);
      Keyed(n.key, Work(n.email, p.domain, true))
  }

  /** Parsed parts are well formed, and re-parsing a normalised address returns its parts. */
  ghost predicate Honest(check: Parser) {
    forall raw :: check(raw).Some? ==>
      var p := check(raw).value;
      WellFormed(p) && check(NormalizeParts(p).email) == Some(Parts(Lower(p.local), NormalizeParts(p).domain))
  }

  /** The address a verdict on `email` is stored under: normalised when it parses, else as given. */
  function StoredAddress(check: Parser, email: string): string {
    match check(email)
    case None => email
    case Some(p) => NormalizeParts(p).email
  }

  /** A work item's canonical address is what its verdict is stored under, and its key
      is the one its own address maps to. */
  lemma WorkIsCanonical(check: Parser, raw: string)
    requires Honest(check)
    ensures var k := DedupeKey(check, raw);
            StoredAddress(check, k.work.email) == k.work.email && DedupeKey(check, k.work.email).key == k.key
  {
    if check(raw).Some? {
      NormalizeIsStable(check(raw).value);
    }
  }

  /** Distinct dedupe keys imply distinct stored addresses. */
  lemma DistinctKeysDistinctAddresses(check: Parser, raw: string, other: string)
    requires Honest(check)
    requires DedupeKey(check, raw).key != DedupeKey(check, other).key
    ensures DedupeKey(check, raw).work.email != DedupeKey(check, other).work.email
  {
    if check(raw).Some? && check(other).Some? {
      if NormalizeParts(check(raw).value).email == NormalizeParts(check(other).value).email {
        SameAddressSameKey(check(raw).value, check(other).value);
      }
    }
  }
}
