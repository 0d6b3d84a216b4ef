/**
 * The score grammar of src/utils/scoreParser.ts: free text plus the par of the
 * current hole becomes a stroke count with a golf-term description, or no match.
 */
module ScoreParser {
  import opened Wrappers
  import opened Text

  /** What `parseScore` returns: the raw input, the stroke count and its description. */
  datatype ScoreInput = ScoreInput(raw: string, strokes: int, description: string)

  /** The `numberWords` table. */
  function NumberWord(w: string): Option<nat>
  {
    if w == "zero" then Some(0)
    else if w == "one" then Some(1)
    else if w == "two" then Some(2)
    else if w == "three" then Some(3)
    else if w == "four" then Some(4)
    else if w == "five" then Some(5)
    else if w == "six" then Some(6)
    else if w == "seven" then Some(7)
    else if w == "eight" then Some(8)
    else if w == "nine" then Some(9)
    else if w == "ten" then Some(10)
    else None
  }

  /** The `relativeScores` table, without its emoji keys. */
  function TableEntry(w: string): Option<int>
  {
    if w == "ace" || w == "hole in one" || w == "hole-in-one" then Some(1)
    else if w == "birdie" then Some(-1)
    else if w == "eagle" then Some(-2)
    else if w == "albatross" || w == "albatros" then Some(-3)
    else if w == "par" || w == "zero" then Some(0)
    else if w == "bogey" then Some(1)
    else if w == "double" || w == "double bogey" || w == "double-bogey" then Some(2)
    else if w == "triple" || w == "triple bogey" || w == "triple-bogey" then Some(3)
    else if w == "quad" || w == "quadruple" || w == "quadruple-bogey" then Some(4)
    else if w == "snowman" then Some(8)
    else None
  }

  function Max(a: int, b: int): int
  {
    if a >= b then a else b
  }

  /** The input as every rule sees it: lower-cased, then trimmed. */
  function Normalize(input: string): string
  {
    Trim(Lower(input))
  }

  /** `^\+(\d+)$` and `^-(\d+)$`: a sign followed by at least one digit. */
  predicate IsSigned(s: string, sign: char)
  {
    |s| >= 2 && s[0] == sign && IsDigitString(s[1..])
  }

  /**
   * `getScoreDescription`: strokes == 1 wins over everything, then differences
   * -3..+4 are named, larger ones are "d over par", anything else "s strokes".
   */
  function ScoreDescription(strokes: int, par: int): string
  {
    var difference := strokes - par;
    if strokes == 1 then "hole in one"
    else if difference == -3 then "albatross"
    else if difference == -2 then "eagle"
    else if difference == -1 then "birdie"
    else if difference == 0 then "par"
    else if difference == 1 then "bogey"
    else if difference == 2 then "double bogey"
    else if difference == 3 then "triple bogey"
    else if difference == 4 then "quadruple bogey"
    else if difference > 4 then IntToString(difference) + " over par"
    else IntToString(strokes) + " strokes"
  }

  /** The stroke count `parseScore` settles on for an already normalized input, by its rule order. */
  function StrokesOf(n: string, par: int): Option<int>
  {
    if IsDigitString(n) && DigitsValue(n) <= 20 then Some(DigitsValue(n))
    else if NumberWord(n).Some? then Some(NumberWord(n).value)
    else if IsSigned(n, '+') then Some(par + DigitsValue(n[1..]))
    else if IsSigned(n, '-') then Some(Max(1, par - DigitsValue(n[1..])))
    else if TableEntry(n).Some? then
      var k := TableEntry(n).value;
      Some(Max(1, if k >= 0 then k else par + k))
    else None
  }

  /**
   * What `parseScore` returns: no match, a numeric score, or the value found under a
   * key every plain JavaScript object inherits. Such a lookup is not `undefined`,
   * so a result is returned, but its strokes field holds an object, not a number.
   */
  datatype Parsed = NoScore | Numeric(score: ScoreInput) | NonNumeric(raw: string, key: string)

  /** The keys of `Object.prototype` that a lower-cased input can spell. */
  predicate InheritedKey(n: string)
  {
    n == "constructor" || n == "__proto__"
  }

  /**
   * `parseScore(input, par)`. The inherited keys are looked up by the number-word
   * rule; they are no digit string and match no other rule (InheritedKeyNoRule),
   * so testing them first keeps the source's rule order.
   */
  function ParseScore(input: string, par: int): (r: Parsed)
    ensures r.Numeric? ==> r.score.raw == input
    ensures r.Numeric? ==> r.score.description == ScoreDescription(r.score.strokes, par)
    ensures r.NonNumeric? ==> r.raw == input && InheritedKey(r.key)
  {
    var n := Normalize(input);
    if InheritedKey(n) then NonNumeric(input, n)
    else
      match StrokesOf(n, par)
      case None => NoScore
      case Some(strokes) => Numeric(ScoreInput(input, strokes, ScoreDescription(strokes, par)))
  }

  /** Two parse results that agree on everything but the echoed raw text. */
  predicate SameScore(a: Parsed, b: Parsed)
  {
    match a
    case NoScore => b.NoScore?
    case Numeric(x) => b.Numeric? && b.score.strokes == x.strokes && b.score.description == x.description
    case NonNumeric(_, key) => b.NonNumeric? && b.key == key
  }

  // ----- Normalization -----

  /** Surrounding white space and letter case never change the parsed score. */
  lemma ParseIgnoresCaseAndWhitespace(w1: string, s: string, w2: string, t: string, par: int)
    requires AllWhitespace(w1) && AllWhitespace(w2)
    requires Lower(s) == Lower(t)
    ensures SameScore(ParseScore(w1 + s + w2, par), ParseScore(t, par))
  {
    LowerConcat(w1 + s, w2);
    LowerConcat(w1, s);
    LowerWhitespace(w1);
    LowerWhitespace(w2);
    TrimIgnoresSurroundingWhitespace(w1, Lower(s), w2);
  }

  // ----- Digit strings -----

  lemma DigitStringIsNoWord(n: string)
    requires IsDigitString(n)
    ensures NumberWord(n).None? && TableEntry(n).None? && !InheritedKey(n)
    ensures !IsSigned(n, '+') && !IsSigned(n, '-')
  {
    assert IsDigit(n[0]);
  }

  /** An all-digit input of value at most 20 is that many strokes, 0 included; above 20 it is no score. */
  lemma DigitInput(input: string, par: int)
    requires IsDigitString(Normalize(input))
    ensures var v := DigitsValue(Normalize(input));
      ParseScore(input, par) == if v <= 20 then Numeric(ScoreInput(input, v, ScoreDescription(v, par))) else NoScore
  {
    DigitStringIsNoWord(Normalize(input));
  }

  /** For every stroke count 0..20 its decimal text parses back to itself. */
  lemma DecimalRoundTrip(strokes: nat, par: int)
    requires strokes <= 20
    ensures ParseScore(NatToString(strokes), par)
         == Numeric(ScoreInput(NatToString(strokes), strokes, ScoreDescription(strokes, par)))
  {
    var s := NatToString(strokes);
    NatToStringDigits(strokes);
    NormalizeDigits(s);
    DigitInput(s, par);
  }

  lemma NormalizeDigits(s: string)
    requires IsDigitString(s)
    ensures Normalize(s) == s
  {
    assert Lower(s) == s;
    assert IsDigit(s[0]) && IsDigit(s[|s| - 1]);
    assert !IsWhitespace(s[0]) && !IsWhitespace(s[|s| - 1]);
  }

  // ----- Number words and terms -----

  predicate IsLetter(c: char)
  {
    'a' <= c <= 'z'
  }

  /** A lower-case word or phrase of the vocabulary: letters, inner spaces and hyphens. */
  predicate IsWord(w: string)
  {
    0 < |w| && IsLetter(w[0]) && IsLetter(w[|w| - 1]) &&
    forall i :: 0 <= i < |w| ==> IsLetter(w[i]) || w[i] == ' ' || w[i] == '-'
  }

  /** The two rules a word can reach: number words, then the table. */
  function WordStrokes(w: string, par: int): Option<int>
  {
    if NumberWord(w).Some? then Some(NumberWord(w).value as int)
    else if TableEntry(w).Some? then
      var k := TableEntry(w).value;
      Some(Max(1, if k >= 0 then k else par + k))
    else None
  }

  /**
   * A word reaches only the number-word rule and the table, in that order; the two
   * inherited keys are words too, and the number-word lookup finds them.
   */
  lemma WordRules(w: string, par: int)
    requires IsWord(w)
    ensures InheritedKey(w) ==> ParseScore(w, par) == NonNumeric(w, w)
    ensures ParseScore(w, par).NonNumeric? <==> InheritedKey(w)
    ensures !InheritedKey(w) ==> (ParseScore(w, par).NoScore? <==> WordStrokes(w, par).None?)
    ensures ParseScore(w, par).Numeric? ==> ParseScore(w, par).score.strokes == WordStrokes(w, par).value
  {
    assert Lower(w) == w;
    assert !IsWhitespace(w[0]) && !IsWhitespace(w[|w| - 1]);
    assert Normalize(w) == w;
    assert !IsDigit(w[0]);
    assert StrokesOf(w, par) == WordStrokes(w, par);
  }

  lemma WordScore(w: string, par: int, strokes: int)
    requires IsWord(w) && WordStrokes(w, par) == Some(strokes)
    ensures ParseScore(w, par).Numeric? && ParseScore(w, par).score.strokes == strokes
  {
    assert !InheritedKey(w) by {
      if InheritedKey(w) {
        InheritedKeyNoWord(w, par);
      }
    }
    WordRules(w, par);
  }

  lemma InheritedKeyNoWord(w: string, par: int)
    requires InheritedKey(w)
    ensures WordStrokes(w, par).None?
  {
  }

  /** Number words give their literal value. */
  lemma NumberWordScore(w: string, par: int)
    requires IsWord(w) && NumberWord(w).Some?
    ensures ParseScore(w, par).Numeric? && ParseScore(w, par).score.strokes == NumberWord(w).value
  {
    WordRules(w, par);
  }

  /** "zero" gives 0 strokes: the number-word rule runs before the table, whose entry would floor it to 1. */
  lemma ZeroWord(par: int)
    ensures ParseScore("zero", par).score.strokes == 0
    ensures TableEntry("zero") == Some(0)
  {
    WordScore("zero", par, 0);
  }

  // ----- Signed relative scores -----

  lemma SignedNormalize(sign: char, d: string)
    requires sign == '+' || sign == '-'
    requires IsDigitString(d)
    ensures Normalize([sign] + d) == [sign] + d
    ensures IsSigned([sign] + d, sign)
    ensures !IsDigitString([sign] + d)
    ensures NumberWord([sign] + d).None? && !InheritedKey([sign] + d)
    ensures ([sign] + d)[1..] == d
  {
    var s := [sign] + d;
    assert s[1..] == d;
    assert forall i :: 1 <= i < |s| ==> s[i] == d[i - 1];
    assert Lower(s) == s;
    assert !IsWhitespace(s[0]) && !IsWhitespace(s[|s| - 1]);
    assert !IsDigit(s[0]);
    NonLetterIsNoWord(s);
  }

  lemma NonLetterIsNoWord(w: string)
    requires 0 < |w| && !IsLetter(w[0])
    ensures NumberWord(w).None? && TableEntry(w).None?
  {
  }

  /** "+N" is exactly par + N strokes, without cap or floor; N is any run of digits, leading zeros included. */
  lemma PlusScore(d: string, par: int)
    requires IsDigitString(d)
    ensures ParseScore("+" + d, par).Numeric?
    ensures ParseScore("+" + d, par).score.strokes == par + DigitsValue(d)
  {
    SignedNormalize('+', d);
  }

  /** "-N" is par - N strokes, floored at one stroke; N is any run of digits. */
  lemma MinusScore(d: string, par: int)
    requires IsDigitString(d)
    ensures ParseScore("-" + d, par).Numeric?
    ensures ParseScore("-" + d, par).score.strokes == Max(1, par - DigitsValue(d))
  {
    SignedNormalize('-', d);
  }

  // ----- Keys inherited from Object.prototype -----

  /** An inherited key is no digit string and matches none of the numeric rules. */
  lemma InheritedKeyNoRule(n: string, par: int)
    requires InheritedKey(n)
    ensures !IsDigitString(n) && StrokesOf(n, par).None?
  {
    assert !IsDigit(n[0]) && n[0] != '+' && n[0] != '-';
  }

  /**
   * `constructor` and `__proto__`, in any letter case and with any surrounding white
   * space, give a result that holds no number.
   */
  lemma InheritedKeyIsNonNumeric(w1: string, s: string, w2: string, par: int)
    requires AllWhitespace(w1) && AllWhitespace(w2) && InheritedKey(Lower(s))
    ensures ParseScore(w1 + s + w2, par).NonNumeric?
    ensures ParseScore(w1 + s + w2, par).key == Lower(s)
  {
    LowerIdempotent(s);
    ParseIgnoresCaseAndWhitespace(w1, s, w2, Lower(s), par);
    var n := Lower(s);
    assert Trim(n) == n by {
      assert !IsWhitespace(n[0]) && !IsWhitespace(n[|n| - 1]);
    }
  }

  // ----- The term table -----

  /** A table word that is not a number word: non-negative entries are absolute, negative ones par-relative, both floored at 1. */
  lemma TableScore(w: string, par: int)
    requires IsWord(w) && NumberWord(w).None? && TableEntry(w).Some?
    ensures var k := TableEntry(w).value;
      ParseScore(w, par).Numeric? &&
      ParseScore(w, par).score.strokes == if k >= 0 then Max(1, k) else Max(1, par + k)
  {
    WordRules(w, par);
  }

  /** Birdie counts from par, one under, floored at one stroke. */
  lemma BirdieTerm(par: int)
    ensures ParseScore("birdie", par).score.strokes == Max(1, par - 1)
  {
    WordScore("birdie", par, Max(1, par - 1));
  }

  /** Eagle counts from par, two under, floored at one stroke. */
  lemma EagleTerm(par: int)
    ensures ParseScore("eagle", par).score.strokes == Max(1, par - 2)
  {
    WordScore("eagle", par, Max(1, par - 2));
  }

  /** Albatross counts from par, three under, floored at one stroke. */
  lemma AlbatrossTerm(par: int)
    ensures ParseScore("albatross", par).score.strokes == Max(1, par - 3)
  {
    WordScore("albatross", par, Max(1, par - 3));
  }

  /** The table's "par" is used as an absolute count of 0, floored to one stroke, whatever the par. */
  lemma ParIsOneStroke(par: int)
    ensures ParseScore("par", par).score.strokes == 1
  {
    WordScore("par", par, 1);
  }

  /** The table's "bogey" is used as an absolute count: one stroke, whatever the par. */
  lemma BogeyIsOneStroke(par: int)
    ensures ParseScore("bogey", par).score.strokes == 1
  {
    WordScore("bogey", par, 1);
  }

  lemma SnowmanIsEight(par: int)
    ensures ParseScore("snowman", par).score.strokes == 8
  {
    WordScore("snowman", par, 8);
  }

  /** The console cases of src/test-setup.ts, at par 4. */
  lemma ConsoleCasePar()
    ensures ParseScore("4", 4).score.description == "par"
  {
    DecimalRoundTrip(4, 4);
    assert NatToString(4) == "4";
  }

  lemma ConsoleCaseBogey()
    ensures ParseScore("+1", 4).score.description == "bogey"
  {
    PlusScore("1", 4);
    assert DigitsValue("1") == 1;
  }

  lemma ConsoleCaseBirdie()
    ensures ParseScore("birdie", 4).score.description == "birdie"
  {
    WordScore("birdie", 4, 3);
  }

  lemma ConsoleCaseEagle()
    ensures ParseScore("eagle", 4).score.description == "eagle"
  {
    WordScore("eagle", 4, 2);
  }

  lemma ConsoleCaseHoleInOne()
    ensures ParseScore("hole in one", 4).score.description == "hole in one"
  {
    WordScore("hole in one", 4, 1);
  }

  // ----- Descriptions -----

  lemma NotSuffix(x: string, suffix: string, lit: string)
    requires 0 < |x|
    requires EndsWith(lit, suffix) == false
    ensures x + suffix != lit
  {
    assert EndsWith(x + suffix, suffix) by {
      assert (x + suffix)[|x|..] == suffix;
    }
  }

  /** "hole in one" is the description of exactly the one-stroke scores. */
  lemma HoleInOneDescription(strokes: int, par: int)
    ensures ScoreDescription(strokes, par) == "hole in one" <==> strokes == 1
  {
    var d := strokes - par;
    NatToStringDigits(if d < 0 then -d else d);
    NatToStringDigits(if strokes < 0 then -strokes else strokes);
    assert !EndsWith("hole in one", " over par");
    assert !EndsWith("hole in one", " strokes");
    if strokes != 1 && d > 4 {
      NotSuffix(IntToString(d), " over par", "hole in one");
    } else if strokes != 1 && d < -3 {
      NotSuffix(IntToString(strokes), " strokes", "hole in one");
    }
  }

  /** The inverse of the named part of `getScoreDescription`: a golf term back to its difference from par. */
  function TermDifference(description: string): Option<int>
  {
    if description == "albatross" then Some(-3)
    else if description == "eagle" then Some(-2)
    else if description == "birdie" then Some(-1)
    else if description == "par" then Some(0)
    else if description == "bogey" then Some(1)
    else if description == "double bogey" then Some(2)
    else if description == "triple bogey" then Some(3)
    else if description == "quadruple bogey" then Some(4)
    else None
  }

  lemma TermsHaveNoNumericSuffix(r: string)
    requires TermDifference(r).Some? || r == "hole in one"
    ensures !EndsWith(r, " over par") && !EndsWith(r, " strokes")
  {
  }

  lemma SuffixesDiffer(r: string)
    ensures !(EndsWith(r, " over par") && EndsWith(r, " strokes"))
  {
    if EndsWith(r, " over par") {
      assert r[|r| - 1] == 'r';
    }
  }

  lemma SuffixOf(x: string, suffix: string)
    ensures EndsWith(x + suffix, suffix)
    ensures (x + suffix)[..|x|] == x
  {
    assert (x + suffix)[|x|..] == suffix;
  }

  /** Which of the four shapes a description has, and what each shape reveals. */
  lemma DescriptionShape(strokes: int, par: int)
    ensures var r := ScoreDescription(strokes, par); var d := strokes - par;
      && (strokes == 1 ==> r == "hole in one")
      && (strokes != 1 && -3 <= d <= 4 ==> TermDifference(r) == Some(d))
      && (strokes != 1 && d > 4 ==> EndsWith(r, " over par") && r[..|r| - 9] == IntToString(d))
      && (strokes != 1 && d < -3 ==> EndsWith(r, " strokes") && r[..|r| - 8] == IntToString(strokes))
  {
    var d := strokes - par;
    if strokes != 1 && d > 4 {
      SuffixOf(IntToString(d), " over par");
    } else if strokes != 1 && d < -3 {
      SuffixOf(IntToString(strokes), " strokes");
    }
  }

  /**
   * A description determines the score it describes: whether it was a hole in one,
   * the difference from par for every named or "over par" score, and the stroke
   * count itself for the rest.
   */
  lemma DescriptionDeterminesScore(s1: int, p1: int, s2: int, p2: int)
    requires ScoreDescription(s1, p1) == ScoreDescription(s2, p2)
    ensures s1 == 1 <==> s2 == 1
    ensures s1 != 1 && s1 - p1 >= -3 ==> s1 - p1 == s2 - p2
    ensures s1 != 1 && s1 - p1 < -3 ==> s1 == s2
  {
    var r := ScoreDescription(s1, p1);
    DescriptionShape(s1, p1);
    DescriptionShape(s2, p2);
    SuffixesDiffer(r);
    HoleInOneDescription(s1, p1);
    HoleInOneDescription(s2, p2);
    if TermDifference(r).Some? {
      TermsHaveNoNumericSuffix(r);
    }
    assert TermDifference("hole in one").None?;
    if s1 != 1 && s2 != 1 {
      if s1 - p1 > 4 && s2 - p2 > 4 {
        IntToStringInjective(s1 - p1, s2 - p2);
      } else if s1 - p1 < -3 && s2 - p2 < -3 {
        IntToStringInjective(s1, s2);
      }
    }
  }
}
