/**
 * Character-level string operations the queries rely on: ASCII lower-casing
 * (Python's `str.lower()` on the enum values, and the case folding of SQL
 * ILIKE) and substring containment (ILIKE '%q%').
 */
module Text {

  function LowerChar(c: char): (d: char)
    ensures !('A' <= d <= 'Z')
    ensures d == c <==> !('A' <= c <= 'Z')
  {
    if 'A' <= c <= 'Z' then (c as int - 'A' as int + 'a' as int) as char else c
  }

  function Lower(s: string): (r: string)
    ensures |r| == |s|
    ensures forall i :: 0 <= i < |s| ==> r[i] == LowerChar(s[i])
  {
    if s == [] then [] else [LowerChar(s[0])] + Lower(s[1..])
  }

  /** A string with no upper-case letter is its own lower-case form. */
  lemma LowerOfLower(s: string)
    requires forall i :: 0 <= i < |s| ==> !('A' <= s[i] <= 'Z')
    ensures Lower(s) == s
  {
  }

  /** Lower-casing twice is lower-casing once. */
  lemma LowerIdempotent(s: string)
    ensures Lower(Lower(s)) == Lower(s)
  {
    LowerOfLower(Lower(s));
  }

  predicate IsPrefix(p: string, s: string)
  {
    |p| <= |s| && s[..|p|] == p
  }

  /** `needle` occurs in `haystack` starting at position `i`. */
  predicate OccursAt(haystack: string, needle: string, i: int)
  {
    0 <= i && i + |needle| <= |haystack| && haystack[i..i + |needle|] == needle
  }

  /** `needle` occurs in `haystack` as a contiguous substring. */
  predicate Contains(haystack: string, needle: string)
  {
    exists i :: 0 <= i <= |haystack| && OccursAt(haystack, needle, i)
  }

  /** The empty string occurs in every string. */
  lemma ContainsEmpty(haystack: string)
    ensures Contains(haystack, [])
  {
    assert OccursAt(haystack, [], 0);
  }

  /** Every string contains itself. */
  lemma ContainsSelf(s: string)
    ensures Contains(s, s)
  {
    assert OccursAt(s, s, 0);
  }

  /** The text before the first `sep`, or all of `s` when `sep` does not occur: Python's `s.split(sep)[0]`. */
  function BeforeFirst(s: string, sep: char): (r: string)
    ensures sep !in r
    ensures IsPrefix(r, s)
    ensures |r| < |s| ==> s[|r|] == sep
  {
    if s == [] then [] else if s[0] == sep then [] else [s[0]] + BeforeFirst(s[1..], sep)
  }
}
