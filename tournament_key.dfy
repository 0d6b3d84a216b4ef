/**
 * The tournament key codec of src/utils/tournamentKeyGenerator.ts: a tournament
 * number written in base 13 over the alphabet CHARS, most significant digit first,
 * left-padded with '2' (the zero digit) to at least four characters.
 */
module TournamentKey {
  import opened Wrappers

  const CHARS: string := "23478GLFZHARD"
  const BASE: nat := 13

  /** What decoding a key gives: the number, or the exception for the first character outside CHARS. */
  datatype Decoded = Number(n: nat) | InvalidChar(c: char)

  /** `String.prototype.indexOf` for one character: the first position of c in s, or -1. */
  function IndexOf(s: string, c: char): (i: int)
    ensures -1 <= i < |s|
    ensures i == -1 <==> c !in s
    ensures 0 <= i ==> s[i] == c && forall j :: 0 <= j < i ==> s[j] != c
  {
    if s == [] then -1
    else if s[0] == c then 0
    else var k := IndexOf(s[1..], c); if k == -1 then -1 else k + 1
  }

  /** A character's digit value is its position in the alphabet. */
  function DigitValue(c: char): nat
    requires c in CHARS
  {
    IndexOf(CHARS, c)
  }

  predicate InAlphabet(s: string)
  {
    forall i :: 0 <= i < |s| ==> s[i] in CHARS
  }

  /** The base-13 digits of n without padding ("" for 0). */
  function Digits(n: nat): string
  {
    if n == 0 then "" else Digits(n / BASE) + [CHARS[n % BASE]]
  }

  /** The digits the encoding loop produces: none unless the number is positive. */
  function DigitsOf(n: int): string
  {
    if n > 0 then Digits(n) else ""
  }

  /** Left-pads with '2' up to four characters. */
  function Pad(s: string): string
    decreases 4 - |s|
  {
    if |s| < 4 then Pad("2" + s) else s
  }

  /** The key `generateTournamentKey(n)` returns. */
  function EncodeKey(n: int): string
  {
    Pad(DigitsOf(n))
  }

  /** Positional base-13 value of a key over the alphabet. */
  function Value(s: string): nat
    requires InAlphabet(s)
  {
    if s == [] then 0 else Value(s[..|s| - 1]) * BASE + DigitValue(s[|s| - 1])
  }

  /** The first character outside the alphabet, reading left to right. */
  function FirstInvalid(s: string): Option<char>
  {
    if s == [] then None
    else if s[0] !in CHARS then Some(s[0])
    else FirstInvalid(s[1..])
  }

  /** What `tournamentKeyToNumber(s)` returns or throws. */
  function Decode(s: string): Decoded
  {
    match FirstInvalid(s)
    case Some(c) => InvalidChar(c)
    case None => FirstInvalidNone(s); Number(Value(s))
  }

  // ----- The two methods of the source -----

  /** `generateTournamentKey`: the remainder loop, then the padding loop. */
  method GenerateTournamentKey(tournamentNumber: int) returns (result: string)
    ensures result == EncodeKey(tournamentNumber)
  {
    result := "";
    var t := tournamentNumber;
    while t > 0
      invariant DigitsOf(t) + result == DigitsOf(tournamentNumber)
    {
      assert DigitsOf(t) == DigitsOf(t / BASE) + [CHARS[t % BASE]];
      result := [CHARS[t % BASE]] + result;
      t := t / BASE;
    }
    assert result == DigitsOf(tournamentNumber) by {
      assert DigitsOf(t) == "";
    }
    while |result| < 4
      invariant Pad(result) == EncodeKey(tournamentNumber)
      decreases 4 - |result|
    {
      result := "2" + result;
    }
  }

  /** `tournamentKeyToNumber`: left-to-right accumulation, throwing at the first foreign character. */
  method TournamentKeyToNumber(tournamentKey: string) returns (r: Decoded)
    ensures r == Decode(tournamentKey)
  {
    var result: nat := 0;
    for i := 0 to |tournamentKey|
      invariant FirstInvalid(tournamentKey[..i]).None?
      invariant InAlphabet(tournamentKey[..i])
      invariant result == Value(tournamentKey[..i])
    {
      var c := tournamentKey[i];
      var charIndex := IndexOf(CHARS, c);
      PrefixStep(tournamentKey, i);
      FirstInvalidAppend(tournamentKey[..i], [c]);
      if charIndex == -1 {
        FirstInvalidAppend(tournamentKey[..i] + [c], tournamentKey[i + 1..]);
        return InvalidChar(c);
      }
      AppendDigit(tournamentKey[..i], c);
      result := result * BASE + charIndex;
    }
    assert tournamentKey[..|tournamentKey|] == tournamentKey;
    r := Number(result);
  }

  // ----- Lemmas -----

  /** One more character of a prefix, and the prefix with its remainder. */
  lemma PrefixStep<T>(s: seq<T>, i: nat)
    requires i < |s|
    ensures s[..i + 1] == s[..i] + [s[i]]
    ensures s == (s[..i] + [s[i]]) + s[i + 1..]
  {
    assert s == s[..i + 1] + s[i + 1..];
  }

  lemma FirstInvalidNone(s: string)
    requires FirstInvalid(s).None?
    ensures InAlphabet(s)
  {
    if s != [] {
      FirstInvalidNone(s[1..]);
      assert forall i :: 1 <= i < |s| ==> s[i] == s[1..][i - 1];
    }
  }

  lemma {:induction false} FirstInvalidAppend(a: string, b: string)
    ensures FirstInvalid(a + b) == if FirstInvalid(a).Some? then FirstInvalid(a) else FirstInvalid(b)
  {
    if a == [] {
      assert a + b == b;
    } else {
      assert (a + b)[0] == a[0];
      assert (a + b)[1..] == a[1..] + b;
      FirstInvalidAppend(a[1..], b);
    }
  }

  lemma {:induction false} AlphabetNoInvalid(s: string)
    requires InAlphabet(s)
    ensures FirstInvalid(s).None?
  {
    if s != [] {
      assert s[0] == s[0];
      AlphabetNoInvalid(s[1..]);
    }
  }

  /** The thirteen alphabet characters are pairwise distinct, so each one's value is its index. */
  lemma AlphabetDistinct()
    ensures |CHARS| == BASE
    ensures forall i, j :: 0 <= i < j < |CHARS| ==> CHARS[i] != CHARS[j]
  {
  }

  lemma DigitValueIsIndex(k: nat)
    requires k < BASE
    ensures DigitValue(CHARS[k]) == k
  {
    AlphabetDistinct();
  }

  lemma {:induction false} FirstInvalidIff(s: string)
    ensures FirstInvalid(s).Some? <==> exists i :: 0 <= i < |s| && s[i] !in CHARS
  {
    if s != [] {
      FirstInvalidIff(s[1..]);
      assert forall i :: 1 <= i < |s| ==> s[i] == s[1..][i - 1];
    }
  }

  /** Decoding throws exactly when some character lies outside the alphabet. */
  lemma DecodeFailsIff(s: string)
    ensures Decode(s).InvalidChar? <==> exists i :: 0 <= i < |s| && s[i] !in CHARS
  {
    FirstInvalidIff(s);
  }

  lemma {:induction false} FirstInvalidIsFirst(s: string)
    requires FirstInvalid(s).Some?
    ensures exists i :: 0 <= i < |s| && s[i] == FirstInvalid(s).value && s[i] !in CHARS && InAlphabet(s[..i])
  {
    if s[0] !in CHARS {
      assert s[..0] == [];
    } else {
      FirstInvalidIsFirst(s[1..]);
      var i :| 0 <= i < |s[1..]| && s[1..][i] == FirstInvalid(s[1..]).value && s[1..][i] !in CHARS && InAlphabet(s[1..][..i]);
      assert s[1 + i] == s[1..][i];
      assert s[..1 + i] == [s[0]] + s[1..][..i];
    }
  }

  /** The character a failing decode names is the first one outside the alphabet. */
  lemma DecodeNamesFirstInvalid(s: string)
    requires Decode(s).InvalidChar?
    ensures exists i :: 0 <= i < |s| && s[i] == Decode(s).c && s[i] !in CHARS && InAlphabet(s[..i])
  {
    FirstInvalidIsFirst(s);
  }

  /** Appending a digit multiplies the value by the base and adds the digit. */
  lemma AppendDigit(s: string, c: char)
    requires InAlphabet(s) && c in CHARS
    ensures InAlphabet(s + [c])
    ensures Value(s + [c]) == Value(s) * BASE + DigitValue(c)
  {
    assert (s + [c])[..|s|] == s;
  }

  lemma ZeroDigit()
    ensures '2' in CHARS && DigitValue('2') == 0
  {
    assert CHARS[0] == '2';
  }

  /** A leading zero digit adds nothing to the value. */
  lemma {:induction false} LeadingZero(z: char, s: string)
    requires z in CHARS && DigitValue(z) == 0 && InAlphabet(s)
    ensures InAlphabet([z] + s)
    ensures Value([z] + s) == Value(s)
  {
    var t := [z] + s;
    if s == [] {
      AppendDigit([], z);
      assert [] + [z] == t;
    } else {
      var init := s[..|s| - 1];
      var last := s[|s| - 1];
      assert forall i :: 0 <= i < |init| ==> init[i] == s[i];
      assert InAlphabet(init);
      LeadingZero(z, init);
      AppendDigit([z] + init, last);
      AppendDigit(init, last);
      SplitLast(z, s);
    }
  }

  lemma SplitLast(z: char, s: string)
    requires s != []
    ensures s == s[..|s| - 1] + [s[|s| - 1]]
    ensures [z] + s == ([z] + s[..|s| - 1]) + [s[|s| - 1]]
  {
  }

  /** A leading '2' is a zero digit and changes nothing. */
  lemma LeadingZeroDigit(s: string)
    requires InAlphabet(s)
    ensures InAlphabet("2" + s)
    ensures Value("2" + s) == Value(s)
  {
    ZeroDigit();
    LeadingZero('2', s);
  }

  lemma {:induction false} PadKeepsValue(s: string)
    requires InAlphabet(s)
    ensures InAlphabet(Pad(s)) && Value(Pad(s)) == Value(s)
    ensures |Pad(s)| == if |s| < 4 then 4 else |s|
    decreases 4 - |s|
  {
    if |s| < 4 {
      LeadingZeroDigit(s);
      PadKeepsValue("2" + s);
    }
  }

  lemma {:induction false} DigitsValue(n: nat)
    ensures InAlphabet(Digits(n))
    ensures Value(Digits(n)) == n
  {
    if n > 0 {
      DigitsValue(n / BASE);
      var s := Digits(n);
      assert s[..|s| - 1] == Digits(n / BASE);
      DigitValueIsIndex(n % BASE);
    }
  }

  /** Every character of an encoded key is in the alphabet. */
  lemma EncodedInAlphabet(n: int)
    ensures InAlphabet(EncodeKey(n))
  {
    DigitsValue(if n > 0 then n else 0);
    PadKeepsValue(DigitsOf(n));
  }

  /** Decoding inverts encoding for every tournament number n >= 0. */
  lemma RoundTrip(n: nat)
    ensures Decode(EncodeKey(n)) == Number(n)
  {
    DigitsValue(n);
    PadKeepsValue(DigitsOf(n));
    AlphabetNoInvalid(EncodeKey(n));
  }

  /** Distinct tournament numbers get distinct keys. */
  lemma EncodeInjective(m: nat, n: nat)
    requires EncodeKey(m) == EncodeKey(n)
    ensures m == n
  {
    RoundTrip(m);
    RoundTrip(n);
  }

  /** `generateTournamentKey(0)` is "2222"; so is every non-positive number, for which the digit loop never runs. */
  lemma ZeroKey(n: int)
    requires n <= 0
    ensures EncodeKey(n) == "2222"
  {
    assert "2" + "" == "2" && "2" + "2" == "22" && "2" + "22" == "222" && "2" + "222" == "2222";
    assert Pad("") == Pad("2") == Pad("22") == Pad("222") == Pad("2222");
  }

  function Pow13(k: nat): (p: nat)
    ensures p >= 1
  {
    if k == 0 then 1 else BASE * Pow13(k - 1)
  }

  lemma {:induction false} DigitsLength(n: nat, k: nat)
    ensures n < Pow13(k) ==> |Digits(n)| <= k
    ensures Pow13(k) <= n ==> |Digits(n)| > k
  {
    if n > 0 {
      assert |Digits(n)| == |Digits(n / BASE)| + 1;
      if k > 0 {
        DigitsLength(n / BASE, k - 1);
      }
    }
  }

  /** Keys have at least four characters, and exactly four for the numbers below 13^4. */
  lemma KeyLength(n: nat)
    ensures |EncodeKey(n)| >= 4
    ensures |EncodeKey(n)| == 4 <==> n < Pow13(4)
  {
    DigitsLength(n, 4);
    DigitsValue(n);
    PadKeepsValue(DigitsOf(n));
  }
}
