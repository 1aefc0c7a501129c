// Domain suggestions (src/eve/layers/typo.py): the pruned search over known
// domains against an exhaustive one, and the TLD table in front of it.

module Typo {
  import opened Common
  import opened EditDistance

  const MAX_LIMIT := 2

  const TLD_FIXES: map<string, string> := map[
    "con" := "com", "cim" := "com", "cpm" := "com", "vom" := "com", "comm" := "com", "co" := "com",
    "ocm" := "com", "cmo" := "com", "nte" := "net", "ne" := "net", "ogr" := "org", "or" := "org"
  ]

  /** Edits allowed against a known domain; short ones get a single edit. */
  function LimitFor(top: string): nat {
    if |top| <= 8 then 1 else MAX_LIMIT
  }

  // ---------------------------------------------------------------- exhaustive search

  datatype Match = Match(top: string, dist: nat)

  /** Compares against every known domain in full and keeps the first of least distance. */
  function Exhaustive(domain: string, tops: seq<string>): Option<Match>
  {
    if tops == [] then None
    else
      var before, top := Exhaustive(domain, tops[..|tops| - 1]), tops[|tops| - 1];
      var dist := Distance(domain, top);
      if dist <= LimitFor(top) && (before.None? || dist < before.value.dist) then Some(Match(top, dist)) else before
  }

  predicate Acceptable(domain: string, top: string) {
    Distance(domain, top) <= LimitFor(top)
  }

  /** `tops[k]` is acceptable, no acceptable domain is nearer, and none before it is as near. */
  ghost predicate Wins(domain: string, tops: seq<string>, k: nat)
  {
    && k < |tops| && Acceptable(domain, tops[k])
    && forall m :: 0 <= m < |tops| && Acceptable(domain, tops[m]) ==>
         Distance(domain, tops[k]) <= Distance(domain, tops[m]) &&
         (m < k ==> Distance(domain, tops[k]) < Distance(domain, tops[m]))
  }

  lemma {:induction false} ExhaustiveFindsWinner(domain: string, tops: seq<string>)
    ensures Exhaustive(domain, tops).None? <==> forall top :: top in tops ==> !Acceptable(domain, top)
    ensures Exhaustive(domain, tops).Some? ==>
              exists k: nat :: Wins(domain, tops, k) && Exhaustive(domain, tops).value == Match(tops[k], Distance(domain, tops[k]))
  {
    hide Distance;
    if tops != [] {
      var before, n := tops[..|tops| - 1], |tops| - 1;
      ExhaustiveFindsWinner(domain, before);
      assert forall m :: 0 <= m < n ==> before[m] == tops[m];
      if Exhaustive(domain, tops) != Exhaustive(domain, before) {
        assert Wins(domain, tops, n);
      } else if Exhaustive(domain, before).Some? {
        var k: nat :| Wins(domain, before, k) && Exhaustive(domain, before).value == Match(before[k], Distance(domain, before[k]));
        assert Wins(domain, tops, k);
      }
    }
  }

  lemma {:induction false} OneEditCannotBeBeaten(domain: string, tops: seq<string>, n: nat)
    requires domain !in tops && n <= |tops|
    requires Exhaustive(domain, tops[..n]).Some? && Exhaustive(domain, tops[..n]).value.dist == 1
    ensures Exhaustive(domain, tops) == Exhaustive(domain, tops[..n])
  {
    if n < |tops| {
      var before := tops[..|tops| - 1];
      assert before[..n] == tops[..n];
      OneEditCannotBeBeaten(domain, before, n);
      ZeroDistance(domain, tops[|tops| - 1]);
    } else {
      assert tops[..n] == tops;
    }
  }

  // ---------------------------------------------------------------- pruned search

  /** The engine's loop: skip by length, measure with a cutoff, stop at one edit. */
  method Nearest(domain: string, tops: seq<string>) returns (best: Option<string>, bestDist: nat)
    requires domain !in tops
    ensures best.None? <==> Exhaustive(domain, tops).None?
    ensures best.Some? ==> Exhaustive(domain, tops) == Some(Match(best.value, bestDist)) && bestDist <= MAX_LIMIT
  {
    best, bestDist := None, 99;
    var n := 0;
    while n < |tops|
      invariant n <= |tops|
      invariant best.None? ==> bestDist == 99 && Exhaustive(domain, tops[..n]).None?
      invariant best.Some? ==> bestDist <= MAX_LIMIT && Exhaustive(domain, tops[..n]) == Some(Match(best.value, bestDist))
    {
      var top := tops[n];
      var limit := LimitFor(top);
      assert tops[..n + 1][..n] == tops[..n];
      AtLeastLengthDifference(domain, top, |domain|, |top|);
      n := n + 1;
      if Abs(|domain| - |top|) > limit {
        continue;
      }
      var dist := DamerauLevenshtein(domain, top, Some(limit));
      if dist <= limit && dist < bestDist {
        best, bestDist := Some(top), dist;
        if bestDist == 1 {
          OneEditCannotBeBeaten(domain, tops, n);
          return;
        }
      }
    }
    assert tops[..n] == tops;
  }

  // ---------------------------------------------------------------- the whole suggestion

  /** The domain with its last label replaced from the table, if the table has it. */
  function TldFixed(domain: string): Option<string>
  {
    var dot := LastIndex(domain, '.');
    if dot >= 0 && domain[dot + 1..] in TLD_FIXES
    then Some(domain[..dot] + "." + TLD_FIXES[domain[dot + 1..]]) else None
  }

  /** What the suggestion is, in terms of the exhaustive search only. */
  function Suggested(domain: string, tops: seq<string>): Option<string>
  {
    var fixed := TldFixed(domain);
    if LastIndex(domain, '.') < 0 || domain in tops then None
    else if fixed.Some? && fixed.value in tops then fixed
    else if Exhaustive(domain, tops).Some? then Some(Exhaustive(domain, tops).value.top)
    else fixed
  }

  // ---------------------------------------------------------------- what a suggestion means

  /** `tops[k]` is near enough for its length (one edit up to eight characters, two beyond), no
      listed domain near enough is nearer, and none listed before it is as near. */
  ghost predicate NearestListed(domain: string, tops: seq<string>, k: nat) {
    && k < |tops| && Distance(domain, tops[k]) <= (if |tops[k]| <= 8 then 1 else 2)
    && forall m :: 0 <= m < |tops| && Distance(domain, tops[m]) <= (if |tops[m]| <= 8 then 1 else 2) ==>
         Distance(domain, tops[k]) <= Distance(domain, tops[m]) && (m < k ==> Distance(domain, tops[k]) < Distance(domain, tops[m]))
  }

  /** `r` is the right suggestion for `name.tld`, where `tld` is the last label: a listed TLD
      correction, else the nearest listed domain, else the corrected TLD if there is one. */
  ghost predicate RightSuggestion(name: string, tld: string, tops: seq<string>, r: Option<string>) {
    var domain := name + "." + tld;
    if domain in tops then r == None
    else if tld in TLD_FIXES && name + "." + TLD_FIXES[tld] in tops then r == Some(name + "." + TLD_FIXES[tld])
    else if exists top :: top in tops && Distance(domain, top) <= (if |top| <= 8 then 1 else 2)
    then exists k: nat :: NearestListed(domain, tops, k) && r == Some(tops[k])
    else r == if tld in TLD_FIXES then Some(name + "." + TLD_FIXES[tld]) else None
  }

  lemma AcceptableWithinLimit(domain: string, tops: seq<string>, k: nat)
    ensures Wins(domain, tops, k) <==> NearestListed(domain, tops, k)
    ensures (exists top :: top in tops && Acceptable(domain, top)) <==>
            exists top :: top in tops && Distance(domain, top) <= (if |top| <= 8 then 1 else 2)
  {
    hide Distance;
  }

  lemma SuggestedIsRight(name: string, tld: string, tops: seq<string>)
    requires '.' !in tld
    ensures RightSuggestion(name, tld, tops, Suggested(name + "." + tld, tops))
  {
    hide Distance, Exhaustive, Wins, NearestListed, Acceptable, LastIndex;
    var domain := name + "." + tld;
    LastIndexAfter(name, '.', tld);
    assert domain[..|name|] == name && domain[|name| + 1..] == tld;
    ExhaustiveFindsWinner(domain, tops);
    AcceptableWithinLimit(domain, tops, 0);
    forall k: nat
      ensures Wins(domain, tops, k) <==> NearestListed(domain, tops, k)
    {
      AcceptableWithinLimit(domain, tops, k);
    }
  }

  method Suggest(domain: string, tops: seq<string>) returns (r: Option<string>)
    ensures r == Suggested(domain, tops)
    ensures '.' !in domain ==> r == None
    ensures forall name, tld :: domain == name + "." + tld && '.' !in tld ==> RightSuggestion(name, tld, tops, r)
  {
    forall name, tld | domain == name + "." + tld && '.' !in tld
      ensures RightSuggestion(name, tld, tops, Suggested(domain, tops))
    {
      SuggestedIsRight(name, tld, tops);
    }
    var dot := LastIndex(domain, '.');
    if domain == "" || dot < 0 {
      return None;
    }
    if domain in tops {
      return None;
    }
    var name, tld := domain[..dot], domain[dot + 1..];
    var candidate: Option<string> := None;
    if tld in TLD_FIXES {
      var fixed := name + "." + TLD_FIXES[tld];
      if fixed in tops || TLD_FIXES[tld] in {"com", "net", "org"} {
        if fixed in tops {
          return Some(fixed);
        }
        candidate := Some(fixed);
      }
    }
    var best, bestDist := Nearest(domain, tops);
    if best.Some? && bestDist <= MAX_LIMIT {
      return best;
    }
    return candidate;
  }

  /** The lookup as the engine calls it: on the domain in lower case, without outer blanks and
      trailing dots. */
  method SuggestDomain(domain: string, tops: seq<string>) returns (r: Option<string>)
    ensures forall name, tld :: DropRootDots(Strip(Lower(domain))) == name + "." + tld && '.' !in tld ==>
              RightSuggestion(name, tld, tops, r)
    ensures '.' !in DropRootDots(Strip(Lower(domain))) ==> r == None
  {
    r := Suggest(DropRootDots(Strip(Lower(domain))), tops);
  }

  /** A suggestion is never the domain itself: it is a different known domain within its
      own limit, or the same name under a corrected TLD. */
  lemma SuggestionIsAChange(domain: string, tops: seq<string>)
    ensures Suggested(domain, tops).Some? ==>
              var s := Suggested(domain, tops).value;
              s != domain && (TldFixed(domain) == Some(s) || (s in tops && 1 <= Distance(domain, s) <= LimitFor(s)))
  {
    var fixed := TldFixed(domain);
    if fixed.Some? {
      var dot := LastIndex(domain, '.');
      var tld := domain[dot + 1..];
      assert TLD_FIXES[tld] != tld;
      assert fixed.value[dot + 1..] == TLD_FIXES[tld];
    }
    if Exhaustive(domain, tops).Some? && domain !in tops {
      ExhaustiveFindsWinner(domain, tops);
      ZeroDistance(domain, Exhaustive(domain, tops).value.top);
    }
  }
}
