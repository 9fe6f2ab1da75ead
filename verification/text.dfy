/** The part of JavaScript's string library the components rely on:
    `String.prototype.trim`, which strips ECMAScript WhiteSpace and
    LineTerminator characters from both ends. */
module Text {

  /** ECMAScript WhiteSpace (tab, vertical tab, form feed, space, no-break
      space, byte order mark, the Unicode space separators U+1680, U+2000 to
      U+200A, U+202F, U+205F, U+3000) and LineTerminator (line feed, carriage
      return, line and paragraph separators). */
  predicate IsJsSpace(c: char)
  {
    || c == '\t' || c == '\n' || c == '\U{000B}' || c == '\U{000C}' || c == '\r'
    || c == ' ' || c == '\U{00A0}' || c == '\U{1680}'
    || ('\U{2000}' <= c <= '\U{200A}')
    || c == '\U{2028}' || c == '\U{2029}' || c == '\U{202F}' || c == '\U{205F}'
    || c == '\U{3000}' || c == '\U{FEFF}'
  }

  /** Every character of `s` is one `trim` removes (vacuously true of ""). */
  predicate AllSpace(s: string)
  {
    forall i :: 0 <= i < |s| ==> IsJsSpace(s[i])
  }

  /** Length of the longest all-space prefix of `s`. */
  function LeadingSpaces(s: string): (k: nat)
    ensures k <= |s|
    ensures forall i :: 0 <= i < k ==> IsJsSpace(s[i])
    ensures k < |s| ==> !IsJsSpace(s[k])
  {
    if |s| == 0 || !IsJsSpace(s[0]) then 0 else 1 + LeadingSpaces(s[1..])
  }

  /** Length of the longest all-space suffix of `s`. */
  function TrailingSpaces(s: string): (k: nat)
    ensures k <= |s|
    ensures forall i :: |s| - k <= i < |s| ==> IsJsSpace(s[i])
    ensures k < |s| ==> !IsJsSpace(s[|s| - 1 - k])
  {
    if |s| == 0 || !IsJsSpace(s[|s| - 1]) then 0
    else 1 + TrailingSpaces(s[..|s| - 1])
  }

  /** `s.trimStart()`: `s` without its leading spaces. */
  function TrimStart(s: string): (r: string)
    ensures |r| == |s| - LeadingSpaces(s) && r == s[LeadingSpaces(s)..]
    ensures AllSpace(s[..LeadingSpaces(s)])
    ensures r == [] || !IsJsSpace(r[0])
  {
    var lead := LeadingSpaces(s);
    AllSpaceSlice(s, 0, lead);
    s[lead..]
  }

  /** `s.trimEnd()`: `s` without its trailing spaces. */
  function TrimEnd(s: string): (r: string)
    ensures |r| <= |s| && r == s[..|r|]
    ensures AllSpace(s[|r|..])
    ensures r == [] || !IsJsSpace(r[|r| - 1])
  {
    var trail := TrailingSpaces(s);
    AllSpaceSlice(s, |s| - trail, |s|);
    s[..|s| - trail]
  }

  /** `s.trim()`: a contiguous slice of `s` that neither starts nor ends with a
      space, obtained by dropping only spaces. */
  function Trim(s: string): (r: string)
    ensures |r| <= |s|
    ensures r == [] || (!IsJsSpace(r[0]) && !IsJsSpace(r[|r| - 1]))
    ensures LeadingSpaces(s) + |r| <= |s|
    ensures r == s[LeadingSpaces(s)..LeadingSpaces(s) + |r|]
    ensures AllSpace(s[..LeadingSpaces(s)]) && AllSpace(s[LeadingSpaces(s) + |r|..])
  {
    var t := TrimStart(s);
    var r := TrimEnd(t);
    assert s[LeadingSpaces(s) + |r|..] == t[|r|..];
    r
  }

  /** A run of spaces, cut out as a slice, is all space. */
  lemma AllSpaceSlice(s: string, lo: nat, hi: nat)
    requires lo <= hi <= |s|
    requires forall i :: lo <= i < hi ==> IsJsSpace(s[i])
    ensures AllSpace(s[lo..hi])
  {
    forall i | 0 <= i < hi - lo ensures IsJsSpace(s[lo..hi][i]) {
      assert s[lo..hi][i] == s[lo + i];
    }
  }

  /** `s.trim() === ''` exactly when `s` consists of spaces only. */
  lemma TrimEmptyIffAllSpace(s: string)
    ensures Trim(s) == [] <==> AllSpace(s)
  {
  }
}
