/**
 * The string operations both comparators apply to tokens: lower-casing
 * (`str.lower`) and stripping leading and trailing punctuation
 * (`str.strip(string.punctuation)`).
 */
module Text {

  /** Lower-cases one character; only the ASCII letters A-Z change. */
  function LowerChar(c: char): char {
    if 'A' <= c <= 'Z' then (c as int - 'A' as int + 'a' as int) as char else c
  }

  predicate IsUpper(c: char) {
    'A' <= c <= 'Z'
  }

  /**
   * `s.lower()`, character by character: each upper-case letter becomes its
   * lower-case letter (32 code points on), every other character is kept,
   * and no upper-case letter is left.
   */
  function Lower(s: string): (r: string)
    ensures |r| == |s|
    ensures forall i :: 0 <= i < |s| && !IsUpper(s[i]) ==> r[i] == s[i]
    ensures forall i :: 0 <= i < |s| && IsUpper(s[i]) ==> r[i] as int == s[i] as int + 32
    ensures forall i :: 0 <= i < |r| ==> !IsUpper(r[i])
  {
    seq(|s|, i requires 0 <= i < |s| => LowerChar(s[i]))
  }

  /** Python's `string.punctuation`: the 32 ASCII punctuation characters. */
  const Punctuation: string := "!\"#$%&'()*+,-./:;<=>?@[\\]^_`{|}~"

  predicate IsPunctuation(c: char) {
    c in Punctuation
  }

  /** How many characters `lstrip(string.punctuation)` removes from the front of `s`. */
  function LeadingPunctuation(s: string): (n: nat)
    ensures n <= |s|
    ensures forall k :: 0 <= k < n ==> IsPunctuation(s[k])
    ensures n < |s| ==> !IsPunctuation(s[n])
  {
    if s == [] || !IsPunctuation(s[0]) then 0 else 1 + LeadingPunctuation(s[1..])
  }

  /** How many characters `rstrip(string.punctuation)` removes from the back of `s`. */
  function TrailingPunctuation(s: string): (m: nat)
    ensures m <= |s|
    ensures forall k :: |s| - m <= k < |s| ==> IsPunctuation(s[k])
    ensures m < |s| ==> !IsPunctuation(s[|s| - 1 - m])
  {
    if s == [] || !IsPunctuation(s[|s| - 1]) then 0 else 1 + TrailingPunctuation(s[..|s| - 1])
  }

  /**
   * `s.strip(string.punctuation)`: the longest run of `s` that neither starts
   * nor ends with punctuation, once every punctuation character before and
   * after it is removed.
   */
  function StripPunctuation(s: string): (r: string)
    ensures LeadingPunctuation(s) + |r| <= |s|
    ensures r == s[LeadingPunctuation(s)..LeadingPunctuation(s) + |r|]
    ensures r == [] || (!IsPunctuation(r[0]) && !IsPunctuation(r[|r| - 1]))
    ensures forall k :: 0 <= k < LeadingPunctuation(s) ==> IsPunctuation(s[k])
    ensures forall k :: LeadingPunctuation(s) + |r| <= k < |s| ==> IsPunctuation(s[k])
  {
    var n := LeadingPunctuation(s);
    var rest := s[n..];
    rest[..|rest| - TrailingPunctuation(rest)]
  }

  /** A stripped string is never one punctuation character on its own. */
  lemma StripNeverSinglePunctuation(s: string)
    ensures var r := StripPunctuation(s); !(|r| == 1 && IsPunctuation(r[0]))
  {
  }
}
