/**
 * String helpers shared by the score grammar, the phone-number formatter and the
 * message handler: ASCII lower-casing, JavaScript-style whitespace trimming, and
 * decimal digit strings.
 */
module Text {

  /** The characters JavaScript's `String.prototype.trim` removes (line terminators and white space). */
  predicate IsWhitespace(c: char)
  {
    c == ' ' || c == '\t' || c == '\n' || c == '\r' || c == '\U{000B}' || c == '\U{000C}'
    || c == '\U{00A0}' || c == '\U{1680}' || ('\U{2000}' <= c <= '\U{200A}')
    || c == '\U{2028}' || c == '\U{2029}' || c == '\U{202F}' || c == '\U{205F}'
    || c == '\U{3000}' || c == '\U{FEFF}'
  }

  predicate AllWhitespace(s: string)
  {
    forall i :: 0 <= i < |s| ==> IsWhitespace(s[i])
  }

  function LowerChar(c: char): char
  {
    if 'A' <= c <= 'Z' then (c as int - 'A' as int + 'a' as int) as char else c
  }

  /** `toLowerCase`, restricted to the ASCII letters. */
  function Lower(s: string): (r: string)
    ensures |r| == |s|
    ensures forall i :: 0 <= i < |s| ==> r[i] == LowerChar(s[i])
  {
    seq(|s|, i requires 0 <= i < |s| => LowerChar(s[i]))
  }

  function TrimStart(s: string): string
  {
    if |s| > 0 && IsWhitespace(s[0]) then TrimStart(s[1..]) else s
  }

  function TrimEnd(s: string): string
  {
    if |s| > 0 && IsWhitespace(s[|s| - 1]) then TrimEnd(s[..|s| - 1]) else s
  }

  /** `trim`: drops leading and trailing white space. */
  function Trim(s: string): string
  {
    TrimEnd(TrimStart(s))
  }

  predicate StartsWith(s: string, prefix: string)
  {
    |prefix| <= |s| && s[..|prefix|] == prefix
  }

  predicate EndsWith(s: string, suffix: string)
  {
    |suffix| <= |s| && s[|s| - |suffix|..] == suffix
  }

  predicate IsDigit(c: char)
  {
    '0' <= c <= '9'
  }

  /** A non-empty string of ASCII digits: what the regular expression `\d+` matches. */
  predicate IsDigitString(s: string)
  {
    |s| > 0 && forall i :: 0 <= i < |s| ==> IsDigit(s[i])
  }

  function DigitChar(d: nat): char
    requires d < 10
  {
    ('0' as int + d) as char
  }

  /** `parseInt(s, 10)` on a string of digits (leading zeros allowed). */
  function DigitsValue(s: string): nat
    requires forall i :: 0 <= i < |s| ==> IsDigit(s[i])
  {
    if s == [] then 0 else DigitsValue(s[..|s| - 1]) * 10 + DigitValue(s[|s| - 1])
  }

  function DigitValue(c: char): nat
    requires IsDigit(c)
  {
    c as int - '0' as int
  }

  /** Decimal rendering of a natural number, as JavaScript template literals print it. */
  function NatToString(n: nat): string
  {
    if n < 10 then [DigitChar(n)] else NatToString(n / 10) + [DigitChar(n % 10)]
  }

  /** Decimal rendering of an integer, with a leading '-' for negative values. */
  function IntToString(i: int): string
  {
    if i < 0 then "-" + NatToString(-i) else NatToString(i)
  }

  // ----- Lemmas -----

  lemma {:induction false} NatToStringDigits(n: nat)
    ensures IsDigitString(NatToString(n))
    ensures DigitsValue(NatToString(n)) == n
  {
    if n >= 10 {
      NatToStringDigits(n / 10);
      var s := NatToString(n);
      assert s[..|s| - 1] == NatToString(n / 10);
    }
  }

  /** Different integers render differently. */
  lemma IntToStringInjective(a: int, b: int)
    requires IntToString(a) == IntToString(b)
    ensures a == b
  {
    NatToStringDigits(if a < 0 then -a else a);
    NatToStringDigits(if b < 0 then -b else b);
    assert IntToString(a)[0] == '-' <==> a < 0;
    assert IntToString(b)[0] == '-' <==> b < 0;
    if a < 0 {
      assert NatToString(-a) == IntToString(a)[1..];
    }
  }

  lemma {:induction false} TrimStartWhitespacePrefix(w: string, s: string)
    requires AllWhitespace(w)
    ensures TrimStart(w + s) == TrimStart(s)
  {
    if w != [] {
      assert (w + s)[0] == w[0] && IsWhitespace(w[0]);
      assert TrimStart(w + s) == TrimStart((w + s)[1..]);
      assert (w + s)[1..] == w[1..] + s;
      TrimStartWhitespacePrefix(w[1..], s);
    } else {
      assert w + s == s;
    }
  }

  lemma {:induction false} TrimEndWhitespaceSuffix(s: string, w: string)
    requires AllWhitespace(w)
    ensures TrimEnd(s + w) == TrimEnd(s)
  {
    if w != [] {
      var s' := s + w;
      assert s'[|s'| - 1] == w[|w| - 1] && IsWhitespace(w[|w| - 1]);
      assert TrimEnd(s') == TrimEnd(s'[..|s'| - 1]);
      assert s'[..|s'| - 1] == s + w[..|w| - 1];
      TrimEndWhitespaceSuffix(s, w[..|w| - 1]);
    } else {
      assert s + w == s;
    }
  }

  lemma {:induction false} TrimStartAppend(s: string, w: string)
    requires AllWhitespace(w)
    ensures TrimStart(s) != [] ==> TrimStart(s + w) == TrimStart(s) + w
    ensures TrimStart(s) == [] ==> TrimStart(s + w) == []
  {
    if s == [] {
      assert s + w == w;
      TrimStartWhitespacePrefix(w, []);
      assert w + [] == w;
    } else {
      assert (s + w)[1..] == s[1..] + w;
      TrimStartAppend(s[1..], w);
    }
  }

  /** Surrounding white space never changes what `trim` returns. */
  lemma TrimIgnoresSurroundingWhitespace(w1: string, s: string, w2: string)
    requires AllWhitespace(w1) && AllWhitespace(w2)
    ensures Trim(w1 + s + w2) == Trim(s)
  {
    assert w1 + s + w2 == w1 + (s + w2);
    TrimStartWhitespacePrefix(w1, s + w2);
    TrimStartAppend(s, w2);
    if TrimStart(s) != [] {
      TrimEndWhitespaceSuffix(TrimStart(s), w2);
    }
  }

  /** Lower-casing leaves white space alone and distributes over concatenation. */
  lemma LowerConcat(a: string, b: string)
    ensures Lower(a + b) == Lower(a) + Lower(b)
  {
  }

  lemma LowerWhitespace(w: string)
    requires AllWhitespace(w)
    ensures Lower(w) == w
    ensures AllWhitespace(Lower(w))
  {
  }

  lemma LowerIdempotent(s: string)
    ensures Lower(Lower(s)) == Lower(s)
  {
  }
}
