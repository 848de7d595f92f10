/**
 The part of JavaScript's `String.prototype.trim` that the routine list's add
 guard relies on: strip white space and line terminators from both ends.
 Strings are sequences of Unicode scalar values; the white-space set is fixed.

 Trimming is defined for any set of strippable characters, given as a
 predicate `strip`, and then instantiated with `IsWhitespace`.
 */
module Text {

  /**
   White space (section 11.2 of ECMAScript 2015: TAB, VT, FF, SP, NBSP, ZWNBSP
   and the Unicode "Zs" category) and line terminators (section 11.3: LF, CR,
   LS, PS), the characters `String.prototype.trim` strips.
   */
  predicate IsWhitespace(c: char) {
    || c == '\t' || c == '\U{B}' || c == '\U{C}' || c == ' ' || c == '\U{A0}'
    || c == '\U{FEFF}' || c == '\U{1680}' || ('\U{2000}' <= c <= '\U{200A}')
    || c == '\U{202F}' || c == '\U{205F}' || c == '\U{3000}'
    || c == '\n' || c == '\r' || c == '\U{2028}' || c == '\U{2029}'
  }

  /** The same characters, listed one by one in code point order. */
  const WhitespaceTable: seq<char> := [
    '\t', '\n', '\U{B}', '\U{C}', '\r', ' ', '\U{A0}', '\U{1680}',
    '\U{2000}', '\U{2001}', '\U{2002}', '\U{2003}', '\U{2004}', '\U{2005}',
    '\U{2006}', '\U{2007}', '\U{2008}', '\U{2009}', '\U{200A}',
    '\U{2028}', '\U{2029}', '\U{202F}', '\U{205F}', '\U{3000}', '\U{FEFF}'
  ]

  /** `IsWhitespace` holds of exactly the 25 listed characters. */
  lemma IsWhitespaceIffListed(c: char)
    ensures IsWhitespace(c) <==> c in WhitespaceTable
    ensures |WhitespaceTable| == 25
  {
  }

  /** Every character of `s` satisfies `strip` (the empty string included). */
  predicate AllOf(s: string, strip: char -> bool) {
    forall i :: 0 <= i < |s| ==> strip(s[i])
  }

  /** `s` is empty or consists of white space only. */
  predicate IsBlank(s: string) {
    AllOf(s, IsWhitespace)
  }

  /** How many strippable characters `s` starts with. */
  function LeadingCount(s: string, strip: char -> bool): (n: nat)
    ensures n <= |s|
    ensures forall i :: 0 <= i < n ==> strip(s[i])
    ensures n == |s| || !strip(s[n])
  {
    if |s| > 0 && strip(s[0]) then
      var n := 1 + LeadingCount(s[1..], strip);
      assert forall i :: 1 <= i < n ==> s[i] == s[1..][i - 1];
      n
    else
      0
  }

  /** How many strippable characters `s` ends with. */
  function TrailingCount(s: string, strip: char -> bool): (n: nat)
    ensures n <= |s|
    ensures forall i :: |s| - n <= i < |s| ==> strip(s[i])
    ensures n == |s| || !strip(s[|s| - 1 - n])
  {
    if |s| > 0 && strip(s[|s| - 1]) then
      var n := 1 + TrailingCount(s[..|s| - 1], strip);
      assert forall i :: |s| - n <= i < |s| - 1 ==> s[i] == s[..|s| - 1][i];
      n
    else
      0
  }

  /**
   Both ends trimmed: the infix of `s` after its leading strippable characters
   that neither starts nor ends with a strippable character, and outside of
   which `s` holds strippable characters only. It is empty exactly when every
   character of `s` is strippable.
   */
  function TrimWith(s: string, strip: char -> bool): (r: string)
    ensures LeadingCount(s, strip) + |r| <= |s|
    ensures forall i :: 0 <= i < |r| ==> r[i] == s[LeadingCount(s, strip) + i]
    ensures forall i :: 0 <= i < |s| && !(LeadingCount(s, strip) <= i < LeadingCount(s, strip) + |r|) ==>
              strip(s[i])
    ensures |r| == 0 || (!strip(r[0]) && !strip(r[|r| - 1]))
    ensures |r| == 0 <==> AllOf(s, strip)
  {
    var a := LeadingCount(s, strip);
    if a == |s| then
      []
    else
      var b := TrailingCount(s, strip);
      s[a..|s| - b]
  }

  /** `s.trim()`: white space removed from both ends. */
  function Trim(s: string): (r: string)
    ensures |r| == 0 <==> IsBlank(s)
    ensures |r| == 0 || (!IsWhitespace(r[0]) && !IsWhitespace(r[|r| - 1]))
    ensures LeadingCount(s, IsWhitespace) + |r| <= |s|
    ensures forall i :: 0 <= i < |r| ==> r[i] == s[LeadingCount(s, IsWhitespace) + i]
    ensures forall i :: 0 <= i < |s| && !(LeadingCount(s, IsWhitespace) <= i < LeadingCount(s, IsWhitespace) + |r|) ==>
              IsWhitespace(s[i])
  {
    TrimWith(s, IsWhitespace)
  }
}
