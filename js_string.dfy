/**
 * `String.prototype.trim` of ECMAScript (section 22.1.3.32 of ECMA-262): it
 * removes leading and trailing white space (section 12.2) and line
 * terminators (section 12.3). The page only asks whether the trimmed text is
 * empty, i.e. falsy.
 */
module JsString {

  /** WhiteSpace or LineTerminator code points, as ECMA-262 lists them. */
  predicate IsWhiteSpace(c: char) {
    // TAB, LF, VT, FF, CR
    ('\U{0009}' <= c <= '\U{000D}') ||
    // SPACE, NO-BREAK SPACE, ZERO WIDTH NO-BREAK SPACE
    c == '\U{0020}' || c == '\U{00A0}' || c == '\U{FEFF}' ||
    // the other members of the Unicode category Zs
    c == '\U{1680}' || ('\U{2000}' <= c <= '\U{200A}') || c == '\U{202F}' || c == '\U{205F}' || c == '\U{3000}' ||
    // LINE SEPARATOR, PARAGRAPH SEPARATOR
    c == '\U{2028}' || c == '\U{2029}'
  }

  /** The first index at or after `i` whose character is not white space. */
  function LeadingEnd(s: string, i: nat): (n: nat)
    requires i <= |s|
    ensures i <= n <= |s|
    ensures forall j :: i <= j < n ==> IsWhiteSpace(s[j])
    ensures n < |s| ==> !IsWhiteSpace(s[n])
    decreases |s| - i
  {
    if i < |s| && IsWhiteSpace(s[i]) then LeadingEnd(s, i + 1) else i
  }

  /**
   * The start of the run of white space that ends at `e`, going no further
   * back than `lo`.
   */
  function TrailingStart(s: string, lo: nat, e: nat): (n: nat)
    requires lo <= e <= |s|
    ensures lo <= n <= e
    ensures forall j :: n <= j < e ==> IsWhiteSpace(s[j])
    ensures lo < n ==> !IsWhiteSpace(s[n - 1])
  {
    if lo < e && IsWhiteSpace(s[e - 1]) then TrailingStart(s, lo, e - 1) else e
  }

  /**
   * `s.trim()`: empty exactly when every character of `s` is white space;
   * otherwise it starts and ends with a character that is not.
   */
  function Trim(s: string): (r: string)
    ensures |r| <= |s|
    ensures r == [] <==> forall i :: 0 <= i < |s| ==> IsWhiteSpace(s[i])
    ensures r != [] ==> !IsWhiteSpace(r[0]) && !IsWhiteSpace(r[|r| - 1])
  {
    var a := LeadingEnd(s, 0);
    var b := TrailingStart(s, a, |s|);
    assert a < b ==> s[a..b][0] == s[a] && s[a..b][b - a - 1] == s[b - 1];
    s[a..b]
  }

  /** `!s.trim()`: the trimmed text is the empty string, which is falsy. */
  predicate IsBlank(s: string)
    ensures IsBlank(s) <==> forall i :: 0 <= i < |s| ==> IsWhiteSpace(s[i])
  {
    Trim(s) == []
  }

  /**
   * `Trim` keeps the slice of `s` that starts at its first character that
   * is not white space, and what it removes on either side is white space
   * and nothing else.
   */
  lemma TrimIsSlice(s: string)
    ensures LeadingEnd(s, 0) + |Trim(s)| <= |s|
    ensures Trim(s) == s[LeadingEnd(s, 0)..LeadingEnd(s, 0) + |Trim(s)|]
    ensures forall i :: 0 <= i < LeadingEnd(s, 0) ==> IsWhiteSpace(s[i])
    ensures forall i :: LeadingEnd(s, 0) + |Trim(s)| <= i < |s| ==> IsWhiteSpace(s[i])
  {
  }
}
