/** The string functions of the standard library that the program relies on, over single
    characters; lower-casing maps the ASCII letters. */
module Text {

  /** The last index of c in s, or -1. */
  function LastIndex(s: string, c: char): (i: int)
    ensures -1 <= i < |s|
    ensures i >= 0 ==> s[i] == c
    ensures forall k :: i < k < |s| ==> s[k] != c
  {
    if s == "" then -1
    else if s[|s| - 1] == c then |s| - 1
    else LastIndex(s[..|s| - 1], c)
  }

  predicate HasSuffix(s: string, t: string) {
    |t| <= |s| && s[|s| - |t|..] == t
  }

  function TrimSuffix(s: string, t: string): string {
    if HasSuffix(s, t) then s[..|s| - |t|] else s
  }

  predicate OccursAt(s: string, t: string, i: int) {
    0 <= i <= |s| - |t| && s[i..i + |t|] == t
  }

  predicate Contains(s: string, t: string) {
    exists i :: 0 <= i <= |s| && OccursAt(s, t, i)
  }

  function LowerChar(c: char): char {
    if 'A' <= c <= 'Z' then ((c as int) + 32) as char else c
  }

  function Lower(s: string): (t: string)
    ensures |t| == |s|
  {
    seq(|s|, i requires 0 <= i < |s| => LowerChar(s[i]))
  }

  // ---- letter case ---------------------------------------------------------------------

  /** One letter in either case, or the same character. */
  predicate SameLetter(c: char, d: char) {
    || c == d
    || ('A' <= c <= 'Z' && d as int - 'a' as int == c as int - 'A' as int)
    || ('a' <= c <= 'z' && d as int - 'A' as int == c as int - 'a' as int)
  }

  /** Equal up to the case of ASCII letters. */
  predicate SameText(s: string, t: string) {
    |s| == |t| && forall i :: 0 <= i < |s| ==> SameLetter(s[i], t[i])
  }

  /** t occurs in s up to case. */
  predicate Mentions(s: string, t: string) {
    exists i :: 0 <= i <= |s| && MentionedAt(s, t, i)
  }

  predicate MentionedAt(s: string, t: string, i: int) {
    0 <= i <= |s| - |t| && SameText(s[i..i + |t|], t)
  }

  predicate IsLower(s: string) {
    forall i :: 0 <= i < |s| ==> !('A' <= s[i] <= 'Z')
  }

  /** Lower-casing equates exactly the texts that are equal up to case. */
  lemma LowerIff(s: string, t: string)
    ensures Lower(s) == Lower(t) <==> SameText(s, t)
  {
    if Lower(s) == Lower(t) {
      forall i | 0 <= i < |s| ensures SameLetter(s[i], t[i]) {
        assert Lower(s)[i] == Lower(t)[i];
      }
    }
  }

  lemma LowerAlphabet()
    ensures Lower("ABCDEFGHIJKLMNOPQRSTUVWXYZ") == "abcdefghijklmnopqrstuvwxyz"
  {
  }

  lemma LowerOfLower(t: string)
    requires IsLower(t)
    ensures Lower(t) == t
  {
  }

  lemma LowerIs(s: string, t: string)
    requires IsLower(t)
    ensures Lower(s) == t <==> SameText(s, t)
  {
    LowerIff(s, t);
    LowerOfLower(t);
  }

  lemma LowerPart(s: string, i: nat, j: nat)
    requires i <= j <= |s|
    ensures Lower(s)[i..j] == Lower(s[i..j])
  {
  }

  lemma LowerContains(s: string, t: string)
    requires IsLower(t)
    ensures Contains(Lower(s), t) <==> Mentions(s, t)
  {
    forall i ensures OccursAt(Lower(s), t, i) <==> MentionedAt(s, t, i) {
      if 0 <= i <= |s| - |t| {
        LowerPart(s, i, i + |t|);
        LowerIs(s[i..i + |t|], t);
      }
    }
  }

  // ---- parts of texts ------------------------------------------------------------------

  /** t occurs in s exactly when s reads as something, t, and something. */
  lemma ContainsIff(s: string, t: string)
    ensures Contains(s, t) <==> exists a: string, b: string :: s == a + t + b
  {
    if Contains(s, t) {
      var i :| 0 <= i <= |s| && OccursAt(s, t, i);
      assert s == s[..i] + t + s[i + |t|..];
    }
    if a: string, b: string :| s == a + t + b {
      assert OccursAt(s, t, |a|);
    }
  }

  lemma HasSuffixIff(s: string, t: string)
    ensures HasSuffix(s, t) <==> exists a: string :: s == a + t
  {
    if HasSuffix(s, t) {
      assert s == s[..|s| - |t|] + t;
    }
  }

  lemma LastIndexIs(s: string, c: char, i: nat)
    requires i < |s| && s[i] == c && c !in s[i + 1..]
    ensures LastIndex(s, c) == i
  {
    assert forall k :: i < k < |s| ==> s[k] == s[i + 1..][k - i - 1];
  }

  lemma TrimJoin(a: string, b: string)
    ensures TrimSuffix(a + b, b) == a
  {
    assert (a + b)[|a|..] == b;
  }

  lemma ContainsPart(s: string, i: nat, j: nat, t: string)
    requires i <= j <= |s| && Contains(s[i..j], t)
    ensures Contains(s, t)
  {
    var k :| 0 <= k <= j - i && OccursAt(s[i..j], t, k);
    assert forall x :: k <= x < k + |t| ==> s[i..j][x] == s[i + x];
    assert s[i + k..i + k + |t|] == s[i..j][k..k + |t|];
    assert OccursAt(s, t, i + k);
  }

  lemma ContainsEnd(s: string, e: string, t: string)
    requires HasSuffix(s, e)
    ensures Contains(e, t) ==> Contains(s, t)
  {
    if Contains(e, t) {
      assert s[|s| - |e|..|s|] == e;
      ContainsPart(s, |s| - |e|, |s|, t);
    }
  }
}
