/**
 * String scanning used by the turn controller: substring occurrence,
 * first occurrence (Foundation's `range(of:)`), containment (`contains`) and
 * trimming by `CharacterSet.whitespacesAndNewlines`.
 * Strings are sequences of Unicode scalar values.
 */
module Text {
  import opened Wrappers

  /** Members of `CharacterSet.whitespacesAndNewlines`: general categories
      Zs, Zl and Zp, plus U+0009 through U+000D and U+0085. */
  predicate IsWhitespace(c: char) {
    || c == '\t' || c == '\n' || c == '\U{000B}' || c == '\U{000C}' || c == '\r'
    || c == ' ' || c == '\U{0085}' || c == '\U{00A0}' || c == '\U{1680}'
    || ('\U{2000}' <= c <= '\U{200A}')
    || c == '\U{2028}' || c == '\U{2029}' || c == '\U{202F}' || c == '\U{205F}'
    || c == '\U{3000}'
  }

  /** `pat` occurs in `s` starting at index `i`. */
  predicate OccursAt(s: string, pat: string, i: nat) {
    i + |pat| <= |s| && s[i..i + |pat|] == pat
  }

  /** `s.contains(pat)` with Foundation's semantics: some occurrence of a
      non-empty pattern exists. The empty pattern is never found. */
  predicate Contains(s: string, pat: string) {
    |pat| > 0 && exists i: nat :: i <= |s| && OccursAt(s, pat, i)
  }

  /** `i` is where the first occurrence of `pat` in `s` starts. */
  predicate IsFirstOccurrence(s: string, pat: string, i: nat) {
    OccursAt(s, pat, i) && forall j: nat :: j < i ==> !OccursAt(s, pat, j)
  }

  /** A string has at most one first occurrence of a pattern. */
  lemma FirstOccurrenceUnique(s: string, pat: string, i: nat)
    requires IsFirstOccurrence(s, pat, i)
    ensures forall j: nat :: IsFirstOccurrence(s, pat, j) ==> j == i
  {
  }

  /** Left-to-right search for `pat` from index `from` on. */
  function FindFrom(s: string, pat: string, from: nat): (r: Option<nat>)
    requires from <= |s|
    requires forall j: nat :: j < from ==> !OccursAt(s, pat, j)
    ensures r.Some? ==> IsFirstOccurrence(s, pat, r.value)
    ensures r.None? ==> forall j: nat :: !OccursAt(s, pat, j)
    decreases |s| - from
  {
    if OccursAt(s, pat, from) then Some(from)
    else if from + |pat| >= |s| then
      assert forall j: nat :: from < j ==> !OccursAt(s, pat, j);
      None
    else FindFrom(s, pat, from + 1)
  }

  /** The start of the first occurrence of `pat`, as `range(of:)` reports
      it; like Foundation, it finds nothing for the empty pattern. */
  function FirstIndexOf(s: string, pat: string): (r: Option<nat>)
    ensures r.Some? ==> IsFirstOccurrence(s, pat, r.value)
    ensures r.None? <==> !Contains(s, pat)
    ensures |pat| == 0 ==> r.None?
  {
    if |pat| == 0 then None else FindFrom(s, pat, 0)
  }

  /** Number of whitespace characters at the start of `s`. */
  function Leading(s: string): (n: nat)
    ensures n <= |s|
    ensures forall i :: 0 <= i < n ==> IsWhitespace(s[i])
    ensures n < |s| ==> !IsWhitespace(s[n])
    decreases |s|
  {
    if |s| > 0 && IsWhitespace(s[0]) then 1 + Leading(s[1..]) else 0
  }

  /** Number of whitespace characters at the end of `s`. */
  function Trailing(s: string): (n: nat)
    ensures n <= |s|
    ensures forall i :: |s| - n <= i < |s| ==> IsWhitespace(s[i])
    ensures n < |s| ==> !IsWhitespace(s[|s| - 1 - n])
    decreases |s|
  {
    if |s| > 0 && IsWhitespace(s[|s| - 1]) then 1 + Trailing(s[..|s| - 1]) else 0
  }

  /** `trimmingCharacters(in: .whitespacesAndNewlines)`: the longest infix of
      `s` that neither starts nor ends with whitespace, found by dropping
      whitespace from both ends. */
  function Trim(s: string): (r: string)
    ensures |r| <= |s|
    ensures |r| > 0 ==> !IsWhitespace(r[0]) && !IsWhitespace(r[|r| - 1])
    ensures Leading(s) + |r| <= |s| && r == s[Leading(s)..Leading(s) + |r|]
    ensures forall i :: Leading(s) + |r| <= i < |s| ==> IsWhitespace(s[i])
  {
    var t := s[Leading(s)..];
    t[..|t| - Trailing(t)]
  }

  /** Trimming twice is trimming once. */
  lemma TrimIdempotent(s: string)
    ensures Trim(Trim(s)) == Trim(s)
  {
  }

  /** A string that is all whitespace trims to the empty string; one with no
      whitespace at either end is left as it is. */
  lemma TrimExtremes(s: string)
    ensures (forall i :: 0 <= i < |s| ==> IsWhitespace(s[i])) ==> Trim(s) == ""
    ensures |s| > 0 && !IsWhitespace(s[0]) && !IsWhitespace(s[|s| - 1]) ==> Trim(s) == s
  {
  }

  /** The empty string is a left unit of concatenation. */
  lemma EmptyPrefix(t: string)
    ensures "" + t == t
  {
  }

  /** An occurrence of `pat` found by index shows that `s` contains it. */
  lemma OccurrenceWitness(s: string, pat: string, i: nat)
    requires |pat| > 0 && OccursAt(s, pat, i)
    ensures Contains(s, pat)
    ensures FirstIndexOf(s, pat).Some? && FirstIndexOf(s, pat).value <= i
  {
  }

  /** One mismatching character rules out an occurrence. */
  lemma MismatchAt(s: string, pat: string, i: nat, k: nat)
    requires k < |pat| && i + k < |s| && s[i + k] != pat[k]
    ensures !OccursAt(s, pat, i)
  {
  }

  /** A string that contains `pat` contains its first character. */
  lemma ContainsFirstChar(s: string, pat: string)
    ensures Contains(s, pat) ==> pat[0] in s
  {
    if Contains(s, pat) {
      var i: nat :| i <= |s| && OccursAt(s, pat, i);
      assert s[i] == s[i..i + |pat|][0];
    }
  }

  /** A string that lacks the first character of `pat` cannot contain `pat`. */
  lemma MissingFirstChar(s: string, pat: string)
    requires |pat| > 0 && pat[0] !in s
    ensures !Contains(s, pat)
  {
  }
}
