/** Minimal optional-value wrapper used across the model. */
module Wrappers {
  datatype Option<+T> = None | Some(value: T)
}

/**
  The two string tests the form validation relies on: `String.prototype.trim`
  (ECMAScript section 22.1.3.32) and the regular expression `/^\d+$/`.
  Strings are sequences of Unicode scalar values.
*/
module JsText {

  /** ECMAScript WhiteSpace and LineTerminator code points, the set `trim` strips:
      TAB, LF, VT, FF, CR, SPACE, NBSP, the space separators (category Zs)
      U+1680, U+2000..U+200A, U+202F, U+205F, U+3000, the line and paragraph
      separators U+2028 and U+2029, and the byte order mark U+FEFF. */
  predicate IsJsWhitespace(c: char) {
    || c == '\t' || c == '\n' || c == '\U{000B}' || c == '\U{000C}' || c == '\r'
    || c == ' ' || c == '\U{00A0}' || c == '\U{1680}'
    || ('\U{2000}' <= c <= '\U{200A}')
    || c == '\U{2028}' || c == '\U{2029}' || c == '\U{202F}' || c == '\U{205F}'
    || c == '\U{3000}' || c == '\U{FEFF}'
  }

  /** The class `\d` of a regular expression without the `u` flag: ASCII digits only. */
  predicate IsAsciiDigit(c: char) {
    '0' <= c <= '9'
  }

  predicate AllWhitespace(s: string) {
    forall i :: 0 <= i < |s| ==> IsJsWhitespace(s[i])
  }

  predicate AllAsciiDigits(s: string) {
    forall i :: 0 <= i < |s| ==> IsAsciiDigit(s[i])
  }

  /** `/^\d+$/.test(s)`: one or more digits and nothing else (`$` without the
      `m` flag anchors at the very end of the input). A match is never
      blank: its first character is a digit, which is not whitespace. */
  predicate MatchesDigitsOnly(s: string)
    ensures MatchesDigitsOnly(s) ==> !AllWhitespace(s)
  {
    assert |s| > 0 && AllAsciiDigits(s) ==> !IsJsWhitespace(s[0]);
    |s| > 0 && AllAsciiDigits(s)
  }

  /** Strips leading whitespace: the result is a suffix of `s`, everything
      removed is whitespace, and the result does not start with whitespace. */
  function TrimStart(s: string): (r: string)
    ensures |r| <= |s| && r == s[|s| - |r|..]
    ensures forall i :: 0 <= i < |s| - |r| ==> IsJsWhitespace(s[i])
    ensures r != [] ==> !IsJsWhitespace(r[0])
  {
    if s != [] && IsJsWhitespace(s[0]) then TrimStart(s[1..]) else s
  }

  /** Strips trailing whitespace: the result is a prefix of `s`, everything
      removed is whitespace, and the result does not end with whitespace. */
  function TrimEnd(s: string): (r: string)
    ensures |r| <= |s| && r == s[..|r|]
    ensures forall i :: |r| <= i < |s| ==> IsJsWhitespace(s[i])
    ensures r != [] ==> !IsJsWhitespace(r[|r| - 1])
  {
    if s != [] && IsJsWhitespace(s[|s| - 1]) then TrimEnd(s[..|s| - 1]) else s
  }

  /** `s.trim()`: the slice of `s` left after removing whitespace at both
      ends. It is empty exactly when `s` is made of whitespace only, and a
      non-empty result neither starts nor ends with whitespace. */
  function Trim(s: string): (r: string)
    ensures exists i, j :: 0 <= i <= j <= |s| && r == s[i..j] && AllWhitespace(s[..i]) && AllWhitespace(s[j..])
    ensures r == [] <==> AllWhitespace(s)
    ensures r != [] ==> !IsJsWhitespace(r[0]) && !IsJsWhitespace(r[|r| - 1])
  {
    var t := TrimStart(s);
    var r := TrimEnd(t);
    var i := |s| - |t|;
    assert r == s[i..i + |r|];
    WhitespaceAround(s, i, i + |r|);
    assert r != [] ==> r[0] == t[0];
    r
  }

  /** With whitespace on both sides of `s[i..j]`, `s` is all whitespace
      exactly when that middle part is. */
  lemma WhitespaceAround(s: string, i: int, j: int)
    requires 0 <= i <= j <= |s|
    requires forall k :: 0 <= k < i ==> IsJsWhitespace(s[k])
    requires forall k :: j <= k < |s| ==> IsJsWhitespace(s[k])
    ensures AllWhitespace(s[..i]) && AllWhitespace(s[j..])
    ensures AllWhitespace(s) <==> AllWhitespace(s[i..j])
  {
    if AllWhitespace(s[i..j]) {
      forall k | 0 <= k < |s| ensures IsJsWhitespace(s[k]) {
        if i <= k < j {
          assert s[k] == s[i..j][k - i];
        }
      }
    }
  }

  /** `!s.trim()`: trims, then tests the result for the empty string, which
      is the only falsy string. */
  method TrimIsEmpty(s: string) returns (blank: bool)
    ensures blank <==> AllWhitespace(s)
  {
    var trimmed := Trim(s);
    blank := trimmed == [];
  }
}
