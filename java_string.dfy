/**
  The three `java.lang.String` operations the platform classifier is built
  from: `indexOf`, `contains` and `toLowerCase`. Strings are sequences of
  characters; `indexOf` reports the first occurrence or -1, as in Java.
  Lower-casing folds ASCII letters only.
 */
module JavaString {

  /** `sub` occurs in `s` starting at index `i`. */
  predicate OccursAt(s: string, sub: string, i: int) {
    0 <= i && i + |sub| <= |s| && s[i..i + |sub|] == sub
  }

  /** The comparison `indexOf` makes at one candidate index: the
      characters of `sub`, compared one by one with those of `s` from index
      `from` on (false when `sub` would run past the end of `s`). */
  predicate RegionMatches(s: string, from: nat, sub: string)
    decreases sub
  {
    from <= |s| && (|sub| == 0 || (from < |s| && s[from] == sub[0] && RegionMatches(s, from + 1, sub[1..])))
  }

  /** Comparing character by character is finding an occurrence. */
  lemma {:induction false} RegionMatchesOccurs(s: string, from: nat, sub: string)
    ensures RegionMatches(s, from, sub) <==> OccursAt(s, sub, from)
    decreases sub
  {
    if |sub| > 0 && from < |s| {
      RegionMatchesOccurs(s, from + 1, sub[1..]);
      if OccursAt(s, sub, from) {
        assert s[from + 1..from + |sub|] == s[from..from + |sub|][1..];
      }
    }
  }

  /** The search `indexOf` performs from index `from` on: the first index
      at or after `from` where `sub` occurs, or -1 if there is none (see
      IndexOfFromFirst). */
  function IndexOfFrom(s: string, sub: string, from: nat): int
    decreases |s| - from
  {
    if from + |sub| > |s| then -1
    else if RegionMatches(s, from, sub) then from
    else IndexOfFrom(s, sub, from + 1)
  }

  /** `IndexOfFrom` reports the first occurrence at or after `from`, and -1
      exactly when there is none. */
  lemma {:induction false} IndexOfFromFirst(s: string, sub: string, from: nat)
    ensures IndexOfFrom(s, sub, from) == -1 || from <= IndexOfFrom(s, sub, from)
    ensures IndexOfFrom(s, sub, from) >= 0 ==> OccursAt(s, sub, IndexOfFrom(s, sub, from))
    ensures forall i :: from <= i < IndexOfFrom(s, sub, from) ==> !OccursAt(s, sub, i)
    ensures IndexOfFrom(s, sub, from) == -1 ==> forall i :: from <= i ==> !OccursAt(s, sub, i)
    decreases |s| - from
  {
    RegionMatchesOccurs(s, from, sub);
    if from + |sub| <= |s| && !RegionMatches(s, from, sub) {
      IndexOfFromFirst(s, sub, from + 1);
    }
  }

  /** Java's `s.indexOf(sub)`: the index of the first occurrence of `sub`
      in `s`, or -1 if `sub` does not occur (see IndexOfFirst). */
  function IndexOf(s: string, sub: string): int
  {
    IndexOfFrom(s, sub, 0)
  }

  /** `indexOf` reports an occurrence with none before it, or -1 exactly
      when there is no occurrence at all. */
  lemma IndexOfFirst(s: string, sub: string)
    ensures -1 <= IndexOf(s, sub) <= |s|
    ensures IndexOf(s, sub) >= 0 ==> OccursAt(s, sub, IndexOf(s, sub))
    ensures forall i :: 0 <= i < IndexOf(s, sub) ==> !OccursAt(s, sub, i)
    ensures IndexOf(s, sub) == -1 <==> forall i :: 0 <= i ==> !OccursAt(s, sub, i)
  {
    IndexOfFromFirst(s, sub, 0);
  }

  /** Java's `s.contains(sub)`, which is `s.indexOf(sub) >= 0`. */
  function Contains(s: string, sub: string): (r: bool)
    ensures r <==> exists i :: OccursAt(s, sub, i)
  {
    IndexOfFirst(s, sub);
    IndexOf(s, sub) >= 0
  }

  /** The first occurrence lies strictly after index 0 exactly when `sub`
      occurs somewhere but not at the very start. */
  lemma IndexOfPositive(s: string, sub: string)
    ensures IndexOf(s, sub) > 0 <==> Contains(s, sub) && !OccursAt(s, sub, 0)
  {
    IndexOfFirst(s, sub);
    if IndexOf(s, sub) > 0 {
      assert OccursAt(s, sub, IndexOf(s, sub));
    }
  }

  predicate IsUpperAscii(c: char) {
    'A' <= c <= 'Z'
  }

  /** ASCII case folding of one character. */
  function LowerChar(c: char): (r: char)
    ensures !IsUpperAscii(r)
    ensures !IsUpperAscii(c) ==> r == c
    ensures IsUpperAscii(c) ==> 'a' <= r <= 'z' && r as int - c as int == 'a' as int - 'A' as int
  {
    if IsUpperAscii(c) then (c as int - 'A' as int + 'a' as int) as char else c
  }

  /** The string holds no upper-case ASCII letter. */
  predicate IsLower(s: string) {
    forall i :: 0 <= i < |s| ==> !IsUpperAscii(s[i])
  }

  /** `s.toLowerCase()`, restricted to ASCII letters (see LowerAt). */
  function Lower(s: string): string
  {
    if s == [] then [] else [LowerChar(s[0])] + Lower(s[1..])
  }

  /** Lower-casing keeps the length and folds each character in place, so
      the result holds no upper-case letter. */
  lemma {:induction false} LowerAt(s: string)
    ensures |Lower(s)| == |s|
    ensures forall i :: 0 <= i < |s| ==> Lower(s)[i] == LowerChar(s[i])
    ensures IsLower(Lower(s))
  {
    if s != [] {
      LowerAt(s[1..]);
    }
  }

  /** `t` is the lower-cased form of `s` when it folds `s` character by
      character. */
  lemma LowerPointwise(s: string, t: string)
    requires |s| == |t| && forall i :: 0 <= i < |s| ==> LowerChar(s[i]) == t[i]
    ensures Lower(s) == t
  {
    LowerAt(s);
  }

  /** A string without upper-case letters is its own lower-cased form. */
  lemma LowerOfLower(s: string)
    requires IsLower(s)
    ensures Lower(s) == s
  {
    LowerAt(s);
    assert forall i :: 0 <= i < |s| ==> Lower(s)[i] == s[i];
  }

  /** Lower-casing twice is lower-casing once. */
  lemma LowerIdempotent(s: string)
    ensures Lower(Lower(s)) == Lower(s)
  {
    LowerAt(s);
    LowerOfLower(Lower(s));
  }
}
