// Small shared vocabulary: optional values and the ASCII string operations the
// engine performs on addresses, domains and server messages.

module Common {
  datatype Option<+T> = None | Some(value: T)

  function Min(x: int, y: int): int {
    if x <= y then x else y
  }

  function Max(x: int, y: int): int {
    if x <= y then y else x
  }

  function MinReal(x: real, y: real): real {
    if x <= y then x else y
  }

  function MaxReal(x: real, y: real): real {
    if x <= y then y else x
  }

  function Abs(x: int): nat {
    if x < 0 then -x else x
  }

  // ---------------------------------------------------------------- ASCII strings

  function LowerChar(c: char): char {
    if 'A' <= c <= 'Z' then (c as int + 32) as char else c
  }

  function Lower(s: string): (r: string)
    ensures |r| == |s| && forall i :: 0 <= i < |s| ==> r[i] == LowerChar(s[i])
  {
    if s == "" then "" else [LowerChar(s[0])] + Lower(s[1..])
  }

  lemma {:induction false} LowerTwice(s: string)
    ensures Lower(Lower(s)) == Lower(s)
  {
    if s != "" {
      LowerTwice(s[1..]);
    }
  }

  lemma LowerJoins(x: string, y: string)
    ensures Lower(x + y) == Lower(x) + Lower(y)
  {
    hide Lower, LowerChar;
    assert forall i :: 0 <= i < |x| ==> Lower(x + y)[i] == LowerChar(x[i]) == Lower(x)[i];
    assert forall i :: 0 <= i < |y| ==> Lower(x + y)[|x| + i] == LowerChar(y[i]) == Lower(y)[i];
  }

  predicate Blank(c: char) {
    c == ' ' || '\t' <= c <= '\r'
  }

  function StripLeft(s: string): string {
    if s != "" && Blank(s[0]) then StripLeft(s[1..]) else s
  }

  function StripRight(s: string): string {
    if s != "" && Blank(s[|s| - 1]) then StripRight(s[..|s| - 1]) else s
  }

  function Strip(s: string): string {
    StripRight(StripLeft(s))
  }

  lemma {:induction false} StripLeftLaw(s: string) returns (x: string)
    ensures s == x + StripLeft(s) && forall c :: c in x ==> Blank(c)
    ensures StripLeft(s) != "" ==> !Blank(StripLeft(s)[0])
  {
    if s != "" && Blank(s[0]) {
      var rest := StripLeftLaw(s[1..]);
      x := [s[0]] + rest;
    } else {
      x := "";
    }
  }

  lemma {:induction false} StripRightLaw(s: string) returns (y: string)
    ensures s == StripRight(s) + y && forall c :: c in y ==> Blank(c)
    ensures StripRight(s) != "" ==> !Blank(StripRight(s)[|StripRight(s)| - 1])
  {
    if s != "" && Blank(s[|s| - 1]) {
      var rest := StripRightLaw(s[..|s| - 1]);
      y := rest + [s[|s| - 1]];
    } else {
      y := "";
    }
  }

  /** Stripping takes blanks off both ends and leaves none there. */
  lemma StripLaw(s: string) returns (x: string, y: string)
    ensures s == x + Strip(s) + y && forall c :: c in x + y ==> Blank(c)
    ensures Strip(s) != "" ==> !Blank(Strip(s)[0]) && !Blank(Strip(s)[|Strip(s)| - 1])
  {
    hide StripLeft, StripRight;
    x := StripLeftLaw(s);
    y := StripRightLaw(StripLeft(s));
  }

  lemma NothingToStrip(s: string)
    requires s != "" ==> !Blank(s[0]) && !Blank(s[|s| - 1])
    ensures Strip(s) == s
  {
  }

  /** Drops every trailing dot, the root label of a fully qualified domain. */
  function DropRootDots(s: string): (r: string)
    ensures r <= s && (r != "" ==> r[|r| - 1] != '.') && forall i :: |r| <= i < |s| ==> s[i] == '.'
  {
    if s != "" && s[|s| - 1] == '.' then DropRootDots(s[..|s| - 1]) else s
  }

  function UpperChar(c: char): char {
    if 'a' <= c <= 'z' then (c as int - 32) as char else c
  }

  predicate Letter(c: char) {
    'a' <= c <= 'z' || 'A' <= c <= 'Z'
  }

  /** Upper-cases the first letter of every run of letters and lower-cases the rest. */
  function Title(s: string): (r: string)
    ensures |r| == |s|
  {
    if s == "" then ""
    else
      var n := |s| - 1;
      Title(s[..n]) + [if n > 0 && Letter(s[n - 1]) then LowerChar(s[n]) else UpperChar(s[n])]
  }

  /** Position of the last `c` in `s`, or -1. */
  function LastIndex(s: string, c: char): (k: int)
    ensures -1 <= k < |s| && (k >= 0 ==> s[k] == c) && forall i :: k < i < |s| ==> s[i] != c
  {
    if s == "" then -1
    else if s[|s| - 1] == c then |s| - 1
    else LastIndex(s[..|s| - 1], c)
  }

  lemma {:induction false} LastIndexAfter(x: string, c: char, rest: string)
    requires c !in rest
    ensures LastIndex(x + [c] + rest, c) == |x|
  {
    var s := x + [c] + rest;
    if rest != "" {
      LastIndexAfter(x, c, rest[..|rest| - 1]);
      assert s[..|s| - 1] == x + [c] + rest[..|rest| - 1];
    }
  }

  /** Substring test. */
  predicate Contains(s: string, needle: string) {
    needle <= s || (s != "" && Contains(s[1..], needle))
  }

  ghost predicate OccursAt(s: string, needle: string, i: nat) {
    i + |needle| <= |s| && s[i..i + |needle|] == needle
  }

  /** `Contains` means that the needle stands somewhere in the string. */
  lemma {:induction false} ContainsIsSubstring(s: string, needle: string)
    ensures Contains(s, needle) <==> exists i: nat :: OccursAt(s, needle, i)
  {
    if needle <= s {
      assert OccursAt(s, needle, 0);
    } else if s != "" {
      ContainsIsSubstring(s[1..], needle);
      if Contains(s[1..], needle) {
        var i: nat :| OccursAt(s[1..], needle, i);
        assert s[i + 1..i + 1 + |needle|] == s[1..][i..i + |needle|];
        assert OccursAt(s, needle, i + 1);
      }
      forall i: nat | OccursAt(s, needle, i)
        ensures Contains(s[1..], needle)
      {
        assert i > 0;
        assert s[1..][i - 1..i - 1 + |needle|] == s[i..i + |needle|];
        assert OccursAt(s[1..], needle, i - 1);
      }
    }
  }

  lemma OccursLeft(x: string, rest: string, needle: string, i: nat)
    requires i + |needle| <= |x|
    ensures OccursAt(x + rest, needle, i) <==> OccursAt(x, needle, i)
  {
    assert (x + rest)[i..i + |needle|] == x[i..i + |needle|];
  }

  lemma OccursRight(x: string, y: string, needle: string, i: nat)
    ensures OccursAt(x + y, needle, |x| + i) <==> OccursAt(y, needle, i)
  {
    if i + |needle| <= |y| {
      assert (x + y)[|x| + i..|x| + i + |needle|] == y[i..i + |needle|];
    }
  }

  /** Every character of what a string contains is in the string. */
  lemma ContainsItsCharacters(s: string, needle: string, c: char)
    requires Contains(s, needle) && c in needle
    ensures c in s
  {
    ContainsIsSubstring(s, needle);
    var i: nat :| OccursAt(s, needle, i);
    var k :| 0 <= k < |needle| && needle[k] == c;
    assert s[i + k] == s[i..i + |needle|][k];
  }

  lemma {:induction false} TitleAt(s: string, i: nat)
    requires i < |s|
    ensures Title(s)[i] == if i > 0 && Letter(s[i - 1]) then LowerChar(s[i]) else UpperChar(s[i])
  {
    var n := |s| - 1;
    if i < n {
      TitleAt(s[..n], i);
    }
  }

  /** Lower-casing moves capitals only, each to its small letter; upper-casing undoes it. */
  lemma CaseMoves(c: char)
    ensures LowerChar('A') == 'a' && LowerChar('Z') == 'z' && !('A' <= LowerChar(c) <= 'Z')
    ensures !('A' <= c <= 'Z') ==> LowerChar(c) == c
    ensures 'A' <= c <= 'Z' ==> 'a' <= LowerChar(c) <= 'z' && UpperChar(LowerChar(c)) == c
    ensures 'a' <= c <= 'z' ==> 'A' <= UpperChar(c) <= 'Z' && LowerChar(UpperChar(c)) == c
    ensures !('a' <= c <= 'z') ==> UpperChar(c) == c
  {
  }

  lemma CaseOfChars(c: char)
    ensures LowerChar(LowerChar(c)) == LowerChar(c) && UpperChar(UpperChar(c)) == UpperChar(c)
    ensures (Letter(LowerChar(c)) <==> Letter(c)) && (Letter(UpperChar(c)) <==> Letter(c))
    ensures (Blank(LowerChar(c)) <==> Blank(c)) && (Blank(UpperChar(c)) <==> Blank(c))
  {
  }

  lemma TitleTwice(s: string)
    ensures Title(Title(s)) == Title(s)
  {
    hide Title, Letter, LowerChar, UpperChar, Blank;
    forall i | 0 <= i < |s|
      ensures Title(Title(s))[i] == Title(s)[i]
    {
      TitleAt(s, i);
      TitleAt(Title(s), i);
      CaseOfChars(s[i]);
      if i > 0 {
        TitleAt(s, i - 1);
        CaseOfChars(s[i - 1]);
      }
    }
  }

  /** Tidying a cell twice is tidying it once. */
  lemma TidyTwice(s: string)
    ensures Title(Strip(Title(Strip(s)))) == Title(Strip(s))
  {
    hide Title, Strip, Letter, LowerChar, UpperChar, Blank;
    var x, y := StripLaw(s);
    var t := Title(Strip(s));
    if t != "" {
      TitleAt(Strip(s), 0);
      TitleAt(Strip(s), |t| - 1);
      CaseOfChars(Strip(s)[0]);
      CaseOfChars(Strip(s)[|t| - 1]);
    }
    NothingToStrip(t);
    TitleTwice(Strip(s));
  }
}
