/** Controller-name derivation: `self.class.name.match('(?<name>.+)Controller')[:name].downcase`. */
module Naming {
  import opened Ruby

  const Suffix: string := "Controller"

  /** `Controller` occurs in `s` starting at index `i` (a case-sensitive comparison). */
  predicate OccursAt(s: string, i: int)
  {
    0 <= i && i + |Suffix| <= |s| && s[i..i + |Suffix|] == Suffix
  }

  /** Where the greedy `.+` of `(.+)Controller` stops: at an occurrence of `Controller`
      with at least one character in front of it and no such occurrence after it. */
  ghost predicate GreedySplit(s: string, i: int)
  {
    1 <= i && OccursAt(s, i) && forall j :: i < j ==> !OccursAt(s, j)
  }

  /** The last occurrence of `Controller` that starts somewhere in 1..hi. */
  function LastOccurrence(s: string, hi: nat): (r: Option<nat>)
    ensures r.Some? ==> 1 <= r.value <= hi && OccursAt(s, r.value)
    ensures r.Some? ==> forall j :: r.value < j <= hi ==> !OccursAt(s, j)
    ensures r.None? ==> forall j :: 1 <= j <= hi ==> !OccursAt(s, j)
    decreases hi
  {
    if hi == 0 then None
    else if OccursAt(s, hi) then Some(hi)
    else LastOccurrence(s, hi - 1)
  }

  function LowerChar(c: char): (l: char)
  {
    if 'A' <= c <= 'Z' then (c as int - 'A' as int + 'a' as int) as char else c
  }

  /** `String#downcase` on ASCII letters: every character is lower-cased in place. */
  function Downcase(s: string): (r: string)
    ensures |r| == |s|
    ensures forall k :: 0 <= k < |s| ==> r[k] == LowerChar(s[k])
  {
    if s == [] then [] else [LowerChar(s[0])] + Downcase(s[1..])
  }

  /** The controller name: the lower-cased text in front of the last `Controller` that has at
      least one character before it; None where Ruby's `match` returns nil and `[:name]` raises. */
  function ExtractName(className: string): (r: Option<string>)
    ensures r.None? <==> forall i :: 1 <= i ==> !OccursAt(className, i)
    ensures r.Some? ==> exists i :: GreedySplit(className, i) && r.value == Downcase(className[..i])
  {
    match LastOccurrence(className, |className|)
    case None => None
    case Some(i) => Some(Downcase(className[..i]))
  }

  /** Lower-casing twice changes nothing more than lower-casing once. */
  lemma DowncaseIdempotent(s: string)
    ensures Downcase(Downcase(s)) == Downcase(s)
  {
  }

  /** The conventional case: a non-empty class name followed by `Controller` yields that
      name, lower-cased, whatever the name itself contains. Since the match is greedy,
      `ControllerController` yields `controller`. */
  lemma {:induction false} ExtractNameOfSuffixed(base: string)
    requires |base| >= 1
    ensures ExtractName(base + Suffix) == Some(Downcase(base))
  {
    var s := base + Suffix;
    assert s[|base|..|base| + |Suffix|] == Suffix;
    assert OccursAt(s, |base|);
    var r := LastOccurrence(s, |s|);
    assert r.Some? && r.value == |base|;
    assert s[..|base|] == base;
  }

  /** `Controller` alone has nothing in front of it: construction fails. */
  lemma BareSuffixFails()
    ensures ExtractName("Controller") == None
  {
  }

  /** The match is case-sensitive: `Postscontroller` fails. */
  lemma {:induction false} MatchIsCaseSensitive()
    ensures ExtractName("Postscontroller") == None
  {
    var s := "Postscontroller";
    forall i | 1 <= i
      ensures !OccursAt(s, i)
    {
      if i + |Suffix| <= |s| {
        assert s[i..i + |Suffix|][0] == s[i] != 'C';
      }
    }
  }

  /** The match is not anchored at the end: text after the last `Controller` is dropped. */
  lemma {:induction false} MatchIsNotAnchored()
    ensures ExtractName("AdminControllerHelper") == Some("admin")
  {
    var s := "AdminControllerHelper";
    assert s[..5] == "Admin";
    assert s[5..15] == Suffix;
    forall j | 5 < j
      ensures !OccursAt(s, j)
    {
      if j + |Suffix| <= |s| {
        assert s[j..j + |Suffix|][0] == s[j] != 'C';
      }
    }
    assert GreedySplit(s, 5);
    var r := ExtractName(s);
    var i :| GreedySplit(s, i) && r.value == Downcase(s[..i]);
    assert i == 5;
    assert Downcase("Admin") == "admin" by {
      assert Downcase("Admin")[0] == 'a';
    }
  }
}
