/** String primitives the TypeScript code borrows from the JavaScript
    runtime, written out: `String.prototype.trim`, `String.prototype.includes`
    and the decimal rendering of an integer in a template literal. */
module Text {

  /** The characters `trim` strips: ECMAScript's WhiteSpace and
      LineTerminator code points. */
  predicate IsWhitespace(c: char)
  {
    c == ' ' || c == '\t' || c == '\n' || c == '\r' || c == '\U{B}' || c == '\U{C}'
    || c == '\U{A0}' || c == '\U{1680}' || ('\U{2000}' <= c <= '\U{200A}')
    || c == '\U{2028}' || c == '\U{2029}' || c == '\U{202F}' || c == '\U{205F}'
    || c == '\U{3000}' || c == '\U{FEFF}'
  }

  predicate AllWhitespace(s: string)
  {
    forall i :: 0 <= i < |s| ==> IsWhitespace(s[i])
  }

  function TrimStart(s: string): (r: string)
    ensures |r| <= |s| && r == s[|s| - |r|..]
    ensures r == [] || !IsWhitespace(r[0])
    ensures AllWhitespace(s[..|s| - |r|])
  {
    if s == [] || !IsWhitespace(s[0]) then s
    else
      var r := TrimStart(s[1..]);
      assert s[1..][..|s[1..]| - |r|] == s[1..|s| - |r|];
      r
  }

  function TrimEnd(s: string): (r: string)
    ensures |r| <= |s| && r == s[..|r|]
    ensures r == [] || !IsWhitespace(r[|r| - 1])
    ensures AllWhitespace(s[|r|..])
  {
    if s == [] || !IsWhitespace(s[|s| - 1]) then s
    else
      var r := TrimEnd(s[..|s| - 1]);
      assert s[..|s| - 1][|r|..] == s[|r|..|s| - 1];
      r
  }

  /** `s.trim()`: the longest infix of `s` that neither starts nor ends
      with whitespace; it is empty exactly when `s` is all whitespace. */
  function Trim(s: string): (r: string)
    ensures exists i :: 0 <= i <= |s| && InfixAt(s, r, i) && AllWhitespace(s[..i]) && AllWhitespace(s[i + |r|..])
    ensures r == [] || (!IsWhitespace(r[0]) && !IsWhitespace(r[|r| - 1]))
    ensures r == [] <==> AllWhitespace(s)
  {
    var t := TrimStart(s);
    var r := TrimEnd(t);
    TrimEmptyIffBlank(s, t, r);
    PrefixOfSuffix(s, t, r);
    r
  }

  /** A prefix `r` of a suffix `t` of `s` is an infix of `s`; what lies
      between the end of `r` and the end of `s` is what lies after `r` in `t`. */
  lemma PrefixOfSuffix(s: string, t: string, r: string)
    requires |t| <= |s| && t == s[|s| - |t|..] && AllWhitespace(s[..|s| - |t|])
    requires |r| <= |t| && r == t[..|r|] && AllWhitespace(t[|r|..])
    ensures var k := |s| - |t|;
            InfixAt(s, r, k) && AllWhitespace(s[..k]) && AllWhitespace(s[k + |r|..])
  {
    var k := |s| - |t|;
    assert s[k..k + |r|] == s[k..][..|r|];
    assert s[k + |r|..] == t[|r|..];
  }

  lemma TrimEmptyIffBlank(s: string, t: string, r: string)
    requires t == TrimStart(s) && r == TrimEnd(t)
    ensures r == [] <==> AllWhitespace(s)
  {
    if r == [] {
      assert s == s[..|s| - |t|] + t;
      assert t == t[|r|..];
    } else {
      assert t[0] == s[|s| - |t|];
    }
  }

  /** `t` occurs in `s` starting at offset `i`. */
  predicate InfixAt(s: string, t: string, i: nat)
  {
    i + |t| <= |s| && s[i..i + |t|] == t
  }

  /** `s.includes(t)`: `t` occurs in `s` at some offset. */
  predicate Contains(s: string, t: string)
  {
    exists i | 0 <= i <= |s| :: InfixAt(s, t, i)
  }

  function DigitChar(d: nat): char
    requires d < 10
  {
    "0123456789"[d]
  }

  function NatToString(n: nat): (r: string)
    ensures |r| >= 1
    ensures forall i :: 0 <= i < |r| ==> '0' <= r[i] <= '9'
  {
    if n < 10 then [DigitChar(n)] else NatToString(n / 10) + [DigitChar(n % 10)]
  }

  /** The decimal text of an integer, as a template literal renders it. */
  function IntToString(n: int): (r: string)
    ensures |r| >= 1
    ensures r[0] == '-' <==> n < 0
  {
    if n < 0 then "-" + NatToString(-n) else NatToString(n)
  }
}
