/** Character-level helpers standing in for java.lang.String methods (ASCII only). */
module Texto {

  /** Character.isWhitespace restricted to the ASCII range: TAB..CR, FS..US and SPACE. */
  predicate IsWhitespace(c: char) {
    9 <= c as int <= 13 || 28 <= c as int <= 32
  }

  /** String.isBlank, scanning from the first character: empty or only whitespace. */
  predicate IsBlank(s: string): (b: bool)
    ensures b <==> forall i | 0 <= i < |s| :: IsWhitespace(s[i])
  {
    s == [] || (IsWhitespace(s[0]) && (assert forall i | 1 <= i < |s| :: s[i] == s[1..][i - 1]; IsBlank(s[1..])))
  }

  /** The regex class \d without UNICODE_CHARACTER_CLASS: '0'..'9'. */
  predicate IsDigit(c: char) {
    '0' <= c <= '9'
  }

  function UpperChar(c: char): (u: char)
    ensures 'a' <= c <= 'z' ==> u as int == c as int - 32
    ensures !('a' <= c <= 'z') ==> u == c
  {
    if 'a' <= c <= 'z' then (c as int - 32) as char else c
  }

  /** String.toUpperCase for ASCII letters; every other character is kept. */
  function ToUpper(s: string): (r: string)
    ensures |r| == |s|
    ensures forall i | 0 <= i < |s| :: r[i] == UpperChar(s[i])
  {
    if s == [] then [] else [UpperChar(s[0])] + ToUpper(s[1..])
  }

  /** c and d are the lower- and upper-case forms of one ASCII letter, in either order. */
  predicate MesmaLetra(c: char, d: char) {
    ('a' <= c <= 'z' && d as int == c as int - 32) || ('a' <= d <= 'z' && c as int == d as int - 32)
  }

  /** String.equalsIgnoreCase, for ASCII: same length and equal after upper-casing each character. */
  predicate EqualsIgnoreCase(a: string, b: string): (r: bool)
    ensures a == b ==> r
    ensures r <==> |a| == |b| && forall i | 0 <= i < |a| :: a[i] == b[i] || MesmaLetra(a[i], b[i])
  {
    |a| == |b| && forall i | 0 <= i < |a| :: UpperChar(a[i]) == UpperChar(b[i])
  }

  /** Comparing ignoring case is the same as comparing the upper-cased strings. */
  lemma EqualsIgnoreCaseIffUpperEqual(a: string, b: string)
    ensures EqualsIgnoreCase(a, b) <==> ToUpper(a) == ToUpper(b)
  {
    if ToUpper(a) == ToUpper(b) {
      assert |a| == |ToUpper(a)| == |ToUpper(b)| == |b|;
      forall i | 0 <= i < |a| ensures UpperChar(a[i]) == UpperChar(b[i]) {
        assert ToUpper(a)[i] == ToUpper(b)[i];
      }
    }
  }
}
