/** The two `java.lang.String` operations the lookup relies on: `contains` and `trim`. */
module Strings {

  /** `sub` occurs in `s` starting at index `i`. */
  predicate OccursAt(s: string, sub: string, i: nat) {
    i + |sub| <= |s| && s[i..i + |sub|] == sub
  }

  /** `sub` occurs in `s` as a contiguous run of characters (`String.contains`). */
  predicate Contains(s: string, sub: string) {
    exists i: nat | i <= |s| :: OccursAt(s, sub, i)
  }

  lemma ContainsSelf(s: string)
    ensures Contains(s, s)
  {
    assert OccursAt(s, s, 0);
  }

  /** Text around a string keeps every occurrence inside it. */
  lemma ContainsWithin(a: string, s: string, b: string, sub: string)
    requires Contains(s, sub)
    ensures Contains(a + s + b, sub)
  {
    var i: nat :| i <= |s| && OccursAt(s, sub, i);
    var t := a + s + b;
    assert t[|a| + i..|a| + i + |sub|] == s[i..i + |sub|];
    assert OccursAt(t, sub, |a| + i);
  }

  /** A string never contains a longer one. */
  lemma NotContainsLonger(s: string, sub: string)
    requires |s| < |sub|
    ensures !Contains(s, sub)
  {
  }

  /** The characters `String.trim` removes: every code unit up to and including U+0020. */
  predicate IsSpace(c: char) {
    c <= ' '
  }

  /** Drops the leading characters that `trim` removes. */
  function TrimStart(s: string): string
    decreases |s|
  {
    if |s| > 0 && IsSpace(s[0]) then TrimStart(s[1..]) else s
  }

  /** `TrimStart` removes a run of space characters and stops at the first other one. */
  lemma {:induction false} TrimStartSpec(s: string)
    ensures var r := TrimStart(s);
            |r| <= |s| && r == s[|s| - |r|..]
            && (forall k :: 0 <= k < |s| - |r| ==> IsSpace(s[k]))
            && (r == [] || !IsSpace(r[0]))
    decreases |s|
  {
    if |s| > 0 && IsSpace(s[0]) {
      TrimStartSpec(s[1..]);
    }
  }

  /** Drops the trailing characters that `trim` removes. */
  function TrimEnd(s: string): string
    decreases |s|
  {
    if |s| > 0 && IsSpace(s[|s| - 1]) then TrimEnd(s[..|s| - 1]) else s
  }

  /** `TrimEnd` removes a run of space characters and stops at the last other one. */
  lemma {:induction false} TrimEndSpec(s: string)
    ensures var r := TrimEnd(s);
            |r| <= |s| && r == s[..|r|]
            && (forall k :: |r| <= k < |s| ==> IsSpace(s[k]))
            && (r == [] || !IsSpace(r[|r| - 1]))
    decreases |s|
  {
    if |s| > 0 && IsSpace(s[|s| - 1]) {
      TrimEndSpec(s[..|s| - 1]);
    }
  }

  /** How many characters `TrimStart` removes. */
  function LeadingSpaces(s: string): nat {
    TrimStartSpec(s);
    |s| - |TrimStart(s)|
  }

  /** `String.trim`: strips the space characters from both ends. */
  function Trim(s: string): string {
    TrimEnd(TrimStart(s))
  }

  /**
   * `Trim` keeps the longest slice of `s` that neither starts nor ends with a space
   * character, and removes only space characters from both ends.
   */
  lemma TrimSpec(s: string)
    ensures var r, i := Trim(s), LeadingSpaces(s);
            i + |r| <= |s| && r == s[i..i + |r|]
            && (forall k :: 0 <= k < i ==> IsSpace(s[k]))
            && (forall k :: i + |r| <= k < |s| ==> IsSpace(s[k]))
            && Untrimmed(r)
  {
    var t := TrimStart(s);
    var r := TrimEnd(t);
    TrimStartSpec(s);
    TrimEndSpec(t);
    var i := |s| - |t|;
    assert r == s[i..i + |r|];
  }

  /** Neither end of `s` is a space character. */
  predicate Untrimmed(s: string) {
    s == [] || (!IsSpace(s[0]) && !IsSpace(s[|s| - 1]))
  }

  /** A string with nothing to trim at its ends is left as it is. */
  lemma TrimUntouched(s: string)
    requires Untrimmed(s)
    ensures Trim(s) == s
  {
  }

  /** Trimming twice is the same as trimming once. */
  lemma TrimIdempotent(s: string)
    ensures Trim(Trim(s)) == Trim(s)
  {
    TrimSpec(s);
    TrimUntouched(Trim(s));
  }
}
