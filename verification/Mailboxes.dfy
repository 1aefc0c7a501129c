// Which spellings name the same mailbox (src/eve/layers/normalize.py): the dedupe key told
// apart from the way it is computed.

module Mailboxes {
  import opened Common
  import opened Normalize

  /** The domain a mailbox lives at. */
  function Home(p: Parts): string {
    var d := DropRootDots(Lower(p.domain));
    if d == "googlemail.com" then "gmail.com" else d
  }

  /** Mail for `x+anything` goes to `x`. */
  predicate IgnoresTags(home: string) {
    home in {"gmail.com", "outlook.com", "hotmail.com", "live.com", "fastmail.com", "protonmail.com", "proton.me", "yahoo.com", "icloud.com"}
  }

  predicate IgnoresDots(home: string) {
    home == "gmail.com"
  }

  /** `k` ends the part of `s` before its first plus sign. */
  predicate TagStarts(s: string, k: nat) {
    k <= |s| && (forall i :: 0 <= i < k ==> s[i] != '+') && (k < |s| ==> s[k] == '+')
  }

  /** `at` lists, in order, the positions of `s` that hold no dot. */
  predicate SkipsDots(s: string, at: seq<nat>) {
    && |at| <= |s| && (forall i :: 0 <= i < |at| ==> at[i] < |s| && s[at[i]] != '.')
    && (forall i, j :: 0 <= i < j < |at| ==> at[i] < at[j])
    && (forall k: nat :: k < |s| && s[k] != '.' ==> k in at)
  }

  /** `x` is `s`, or what is left of `s` without its dots. */
  ghost predicate Reads(s: string, x: string, dots: bool) {
    if dots then exists at: seq<nat> :: SkipsDots(s, at) && |x| == |at| && forall i :: 0 <= i < |at| ==> x[i] == s[at[i]]
    else x == s
  }

  /** `x` is what counts of the local part: lower-cased, up to the tag and without dots where
      the provider ignores them. */
  ghost predicate Counts(p: Parts, x: string) {
    var local := Lower(p.local);
    exists k: nat ::
      (if IgnoresTags(Home(p)) then TagStarts(local, k) else k == |local|) && k <= |local| && Reads(local[..k], x, IgnoresDots(Home(p)))
  }

  ghost predicate SameMailbox(p: Parts, q: Parts) {
    Home(p) == Home(q) && exists x :: Counts(p, x) && Counts(q, x)
  }

  // ---------------------------------------------------------------- tags

  lemma {:induction false} TagIsCut(s: string, k: nat)
    ensures TagStarts(s, k) <==> k <= |s| && k == |BeforePlus(s)| && s[..k] == BeforePlus(s)
    decreases |s|
  {
    if s != "" && s[0] != '+' && 0 < k <= |s| {
      TagIsCut(s[1..], k - 1);
      assert s[..k] == [s[0]] + s[1..][..k - 1];
      assert TagStarts(s, k) <==> TagStarts(s[1..], k - 1) by {
        assert forall i :: 0 < i < |s| ==> s[i] == s[1..][i - 1];
      }
    }
  }

  lemma {:induction false} CutIsWithin(s: string)
    ensures |BeforePlus(s)| <= |s| && s[..|BeforePlus(s)|] == BeforePlus(s)
  {
    if s != "" && s[0] != '+' {
      CutIsWithin(s[1..]);
    }
  }

  // ---------------------------------------------------------------- dots

  lemma {:induction false} WithoutLastDot(s: string, c: char)
    ensures WithoutDots(s + [c]) == WithoutDots(s) + if c == '.' then "" else [c]
  {
    if s == "" {
      assert s + [c] == [c] && [c][1..] == "";
    } else {
      WithoutLastDot(s[1..], c);
      assert (s + [c])[1..] == s[1..] + [c];
    }
  }

  lemma {:induction false} DotPositions(s: string) returns (at: seq<nat>)
    ensures SkipsDots(s, at)
  {
    if s == "" {
      at := [];
    } else {
      var n := |s| - 1;
      var before := DotPositions(s[..n]);
      PositionsGrow(s, before);
      at := if s[n] == '.' then before else before + [n];
    }
  }

  lemma PositionsGrow(s: string, before: seq<nat>)
    requires s != "" && SkipsDots(s[..|s| - 1], before)
    ensures SkipsDots(s, if s[|s| - 1] == '.' then before else before + [|s| - 1])
  {
    var n := |s| - 1;
    var at := if s[n] == '.' then before else before + [n];
    forall k: nat | k < |s| && s[k] != '.'
      ensures k in at
    {
      if k < n {
        assert s[..n][k] != '.';
        assert k in before;
      } else {
        assert at[|before|] == n;
      }
    }
  }

  // The listed characters are what is left when the dots are taken out.
  lemma {:induction false} ListedIsWithoutDots(s: string, at: seq<nat>)
    requires SkipsDots(s, at)
    ensures |at| == |WithoutDots(s)| && forall i :: 0 <= i < |at| ==> WithoutDots(s)[i] == s[at[i]]
    decreases |s|
  {
    if s != "" {
      var n := |s| - 1;
      assert s == s[..n] + [s[n]];
      WithoutLastDot(s[..n], s[n]);
      if s[n] == '.' {
        PositionsBefore(s, at);
        ListedIsWithoutDots(s[..n], at);
      } else {
        var j := LastPosition(s, at);
        ListedIsWithoutDots(s[..n], at[..j]);
      }
    }
  }

  lemma PositionsBefore(s: string, at: seq<nat>)
    requires s != "" && s[|s| - 1] == '.' && SkipsDots(s, at)
    ensures SkipsDots(s[..|s| - 1], at)
  {
    FewerThan(at, |s| - 1);
  }

  lemma {:induction false} FewerThan(at: seq<nat>, n: nat)
    requires (forall i :: 0 <= i < |at| ==> at[i] < n) && forall i, j :: 0 <= i < j < |at| ==> at[i] < at[j]
    ensures |at| <= n
  {
    if at != [] {
      FewerThan(at[..|at| - 1], at[|at| - 1]);
    }
  }

  lemma LastPosition(s: string, at: seq<nat>) returns (j: nat)
    requires s != "" && s[|s| - 1] != '.' && SkipsDots(s, at)
    ensures |at| == j + 1 && at[j] == |s| - 1 && SkipsDots(s[..|s| - 1], at[..j])
  {
    var n: nat := |s| - 1;
    assert n in at;
    j :| j < |at| && at[j] == n;
    assert j == |at| - 1;
    FewerThan(at[..j], n);
    forall k: nat | k < n && s[..n][k] != '.'
      ensures k in at[..j]
    {
      assert s[k] != '.' && k in at;
      var i :| 0 <= i < |at| && at[i] == k;
      assert at[..j][i] == k;
    }
  }

  lemma ReadsIsUnique(s: string, x: string, dots: bool)
    ensures Reads(s, x, dots) <==> x == if dots then WithoutDots(s) else s
  {
    hide SkipsDots, WithoutDots;
    if dots {
      var at := DotPositions(s);
      ListedIsWithoutDots(s, at);
      forall other: seq<nat> | SkipsDots(s, other)
        ensures |other| == |WithoutDots(s)| && forall i :: 0 <= i < |other| ==> other[i] < |s| && WithoutDots(s)[i] == s[other[i]]
      {
        ListedIsWithoutDots(s, other);
        PositionsInRange(s, other);
      }
      PositionsInRange(s, at);
    }
  }

  lemma PositionsInRange(s: string, at: seq<nat>)
    requires SkipsDots(s, at)
    ensures forall i :: 0 <= i < |at| ==> at[i] < |s|
  {
  }

  // ---------------------------------------------------------------- the key names the mailbox

  lemma HomeIsCanonical(p: Parts)
    requires WellFormed(p)
    ensures Home(p) == CanonicalDomain(NormalizeParts(p).domain) && '@' !in Home(p)
    ensures (IgnoresTags(Home(p)) <==> Home(p) in PLUS_ALIAS_DOMAINS) && (IgnoresDots(Home(p)) <==> Home(p) in DOT_INSENSITIVE_DOMAINS)
  {
    hide Strip, Lower, DropRootDots, BeforePlus, WithoutDots;
    StripOfNoBlanks(p.domain);
    DomainOf(p);
  }

  /** The dedupe key is what counts of the local part, at the domain the mailbox lives at. */
  lemma KeyNamesMailbox(p: Parts, x: string)
    requires WellFormed(p)
    ensures Counts(p, x) <==> NormalizeParts(p).key == x + "@" + Home(p)
  {
    hide Strip, Lower, DropRootDots, BeforePlus, WithoutDots, Home, IgnoresTags, IgnoresDots, Reads, TagStarts, CanonicalDomain;
    HomeIsCanonical(p);
    StripOfNoBlanks(p.local);
    var local, home := Lower(p.local), Home(p);
    CutIsWithin(local);
    var cut := if IgnoresTags(home) then BeforePlus(local) else local;
    var kept := if IgnoresDots(home) then WithoutDots(cut) else cut;
    assert NormalizeParts(p).key == kept + "@" + home;
    forall k: nat | k <= |local|
      ensures (if IgnoresTags(home) then TagStarts(local, k) else k == |local|) <==> k == |cut|
    {
      TagIsCut(local, k);
      assert local[..|local|] == local;
    }
    assert local[..|cut|] == cut;
    ReadsIsUnique(cut, x, IgnoresDots(home));
    assert Counts(p, x) <==> x == kept;
    if NormalizeParts(p).key == x + "@" + home {
      AtSignSplitsOnce(x, home, kept, home);
    }
  }

  lemma SomethingCounts(p: Parts) returns (x: string)
    requires WellFormed(p)
    ensures Counts(p, x) && NormalizeParts(p).key == x + "@" + Home(p)
  {
    hide Strip, Lower, DropRootDots, BeforePlus, WithoutDots, Home, Counts, CanonicalDomain;
    HomeIsCanonical(p);
    var canon := CanonicalDomain(NormalizeParts(p).domain);
    var local := Lower(Strip(p.local));
    var tagless := if canon in PLUS_ALIAS_DOMAINS then BeforePlus(local) else local;
    x := if canon in DOT_INSENSITIVE_DOMAINS then WithoutDots(tagless) else tagless;
    KeyNamesMailbox(p, x);
  }

  /** Two addresses have the same dedupe key exactly when they name the same mailbox. */
  lemma SameKeyExactlyWhenSameMailbox(p: Parts, q: Parts)
    requires WellFormed(p) && WellFormed(q)
    ensures NormalizeParts(p).key == NormalizeParts(q).key <==> SameMailbox(p, q)
  {
    hide Home, Counts, NormalizeParts;
    HomeIsCanonical(p);
    HomeIsCanonical(q);
    var x := SomethingCounts(p);
    var y := SomethingCounts(q);
    if NormalizeParts(p).key == NormalizeParts(q).key {
      AtSignSplitsOnce(x, Home(p), y, Home(q));
    }
    if SameMailbox(p, q) {
      var z :| Counts(p, z) && Counts(q, z);
      KeyNamesMailbox(p, z);
      KeyNamesMailbox(q, z);
    }
  }

  // ---------------------------------------------------------------- rows

  /** Two cells name the same addressee: the same mailbox if both parse, the same text but for
      case and outer blanks if neither does, and otherwise only if the text that does not
      parse happens to spell the other's mailbox. */
  ghost predicate SameAddressee(check: Parser, raw: string, other: string) {
    match (check(raw), check(other))
    case (Some(p), Some(q)) => SameMailbox(p, q)
    case (None, None) => Lower(Strip(raw)) == Lower(Strip(other))
    case (Some(p), None) => exists x :: Counts(p, x) && Lower(Strip(other)) == x + "@" + Home(p)
    case (None, Some(q)) => exists x :: Counts(q, x) && Lower(Strip(raw)) == x + "@" + Home(q)
  }

  /** Cells are keyed alike exactly when they name the same addressee. */
  lemma SameKeyExactlyWhenSameAddressee(check: Parser, raw: string, other: string)
    requires Honest(check)
    ensures DedupeKey(check, raw).key == DedupeKey(check, other).key <==> SameAddressee(check, raw, other)
  {
    hide Home, Counts, NormalizeParts, Strip, Lower, SameMailbox;
    match (check(raw), check(other)) {
      case (Some(p), Some(q)) =>
        SameKeyExactlyWhenSameMailbox(p, q);
      case (Some(p), None) =>
        SpelledMailbox(p, Lower(Strip(other)));
      case (None, Some(q)) =>
        SpelledMailbox(q, Lower(Strip(raw)));
      case (None, None) =>
    }
  }

  lemma SpelledMailbox(p: Parts, text: string)
    requires WellFormed(p)
    ensures NormalizeParts(p).key == text <==> exists x :: Counts(p, x) && text == x + "@" + Home(p)
  {
    hide Home, Counts, NormalizeParts;
    var x := SomethingCounts(p);
    forall y | Counts(p, y)
      ensures NormalizeParts(p).key == y + "@" + Home(p)
    {
      KeyNamesMailbox(p, y);
    }
  }

  lemma NothingReads(dots: bool)
    ensures Reads("", "", dots)
  {
    hide Reads;
    ReadsIsUnique("", "", dots);
  }

  lemma TagAloneCountsNothing(p: Parts)
    requires IgnoresTags(Home(p)) && p.local != "" && p.local[0] == '+'
    ensures Counts(p, "")
  {
    hide Reads, Home, IgnoresTags, IgnoresDots;
    var local := Lower(p.local);
    assert local[0] == '+' && TagStarts(local, 0);
    assert local[..0] == "";
    NothingReads(IgnoresDots(Home(p)));
  }

  lemma SpelledWithNothing(p: Parts, text: string)
    requires Counts(p, "") && text == "@" + Home(p)
    ensures exists x :: Counts(p, x) && text == x + "@" + Home(p)
  {
    hide Counts, Home;
    assert text == "" + "@" + Home(p);
  }

  lemma MixedAddressee(check: Parser, raw: string, p: Parts, text: string)
    requires check(raw) == Some(p) && check(text).None?
    ensures SameAddressee(check, raw, text) <==> exists x :: Counts(p, x) && Lower(Strip(text)) == x + "@" + Home(p)
  {
    hide Counts, Home, Lower, Strip;
  }

  /** Nothing counts of a local part that is only a tag, so `+x@gmail.com` is keyed `@gmail.com`;
      a cell holding that text, which is no address, is taken for the same addressee. */
  lemma TagAloneIsKeyedLikeNoAddress(check: Parser, raw: string, p: Parts, text: string)
    requires Honest(check) && check(raw) == Some(p) && IgnoresTags(Home(p)) && p.local != "" && p.local[0] == '+'
    requires check(text).None? && Lower(Strip(text)) == "@" + Home(p)
    ensures DedupeKey(check, raw).key == DedupeKey(check, text).key && SameAddressee(check, raw, text)
  {
    hide *;
    TagAloneCountsNothing(p);
    SpelledWithNothing(p, Lower(Strip(text)));
    MixedAddressee(check, raw, p, text);
    SameKeyExactlyWhenSameAddressee(check, raw, text);
  }
}
