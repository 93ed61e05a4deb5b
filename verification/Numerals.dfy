/**
  The numbers of JSON, spelled out (section 6 of RFC 8259): a sign, an integer without leading zeros, a fraction
  and an exponent. The decoder reads at a position the longest of them that stands there.
 */
module Numerals {
  import opened Chars
  import opened Documents
  import opened Tokens

  datatype Exponent = Exponent(letter: char, sign: string, digits: string)

  datatype Numeral = Numeral(minus: bool, integer: string, fraction: Option<string>, exponent: Option<Exponent>)

  predicate SomeDigits(s: string) { s != "" && forall i :: 0 <= i < |s| ==> s[i] in "0123456789" }

  predicate ValidNumeral(n: Numeral) {
    && SomeDigits(n.integer) && (n.integer[0] == '0' ==> n.integer == "0")
    && (n.fraction.Some? ==> SomeDigits(n.fraction.value))
    && (n.exponent.Some? ==> ValidExponent(n.exponent.value))
  }

  predicate ValidExponent(x: Exponent) {
    (x.letter == 'e' || x.letter == 'E') && x.sign in ["", "+", "-"] && SomeDigits(x.digits)
  }

  function Sign(n: Numeral): string { if n.minus then "-" else "" }

  function Fraction(n: Numeral): string { if n.fraction.Some? then "." + n.fraction.value else "" }

  function Power(n: Numeral): string {
    match n.exponent
    case None => ""
    case Some(x) => [x.letter] + x.sign + x.digits
  }

  function Spelled(n: Numeral): string { Sign(n) + n.integer + Fraction(n) + Power(n) }

  lemma DigitTable(c: char)
    ensures c in "0123456789" <==> Digit(c)
  {
  }

  lemma DigitsMean(s: string)
    ensures SomeDigits(s) <==> s != "" && forall i :: 0 <= i < |s| ==> Digit(s[i])
  {
    forall i | 0 <= i < |s| ensures s[i] in "0123456789" <==> Digit(s[i]) { DigitTable(s[i]); }
  }

  /** A run of digits is skipped whole, and no further when none follows. */
  lemma {:induction false} DigitsSkipped(t: string, i: nat, j: nat)
    requires i <= j <= |t| && forall k :: i <= k < j ==> Digit(t[k])
    ensures SkipDigits(t, i) >= j && (j == |t| || !Digit(t[j]) ==> SkipDigits(t, i) == j)
    decreases j - i
  {
    if i < j { DigitsSkipped(t, i + 1, j); }
  }

  lemma DigitsAt(t: string, i: nat, d: string)
    requires HasAt(t, i, d) && SomeDigits(d)
    ensures i + |d| <= |t| && forall k :: i <= k < i + |d| ==> Digit(t[k])
  {
    DigitsMean(d);
    forall k | i <= k < i + |d| ensures Digit(t[k]) { HasAtIndex(t, i, d, k - i); }
  }

  // What stands there is read.

  lemma IntegerRead(t: string, i: nat, n: Numeral)
    requires ValidNumeral(n) && HasAt(t, i, Sign(n) + n.integer)
    ensures i <= |t| && IntegerEnd(t, i).Some?
    ensures var j := i + |Sign(n)| + |n.integer|;
      && j <= IntegerEnd(t, i).value && (j == |t| || !Digit(t[j]) ==> IntegerEnd(t, i).value == j)
  {
    HasAtSplit(t, i, Sign(n), n.integer);
    HasAtFits(t, i, Sign(n) + n.integer);
    var j := i + |Sign(n)|;
    DigitsAt(t, j, n.integer);
    if n.minus { HasAtChar(t, i, '-'); }
    HasAtIndex(t, j, n.integer, 0);
    DigitsSkipped(t, j + 1, j + |n.integer|);
    hide HasAt, SkipDigits, SomeDigits;
  }

  lemma FractionRead(t: string, j: nat, n: Numeral)
    requires ValidNumeral(n) && HasAt(t, j, Fraction(n))
    ensures j <= |t| && j + |Fraction(n)| <= FractionEnd(t, j)
    ensures var f := j + |Fraction(n)|;
      f == |t| || (!Digit(t[f]) && t[f] != '.') ==> FractionEnd(t, j) == f
  {
    HasAtFits(t, j, Fraction(n));
    if n.fraction.Some? {
      HasAtSplit(t, j, ".", n.fraction.value);
      HasAtChar(t, j, '.');
      DigitsAt(t, j + 1, n.fraction.value);
      DigitsSkipped(t, j + 1, j + 1 + |n.fraction.value|);
    }
    hide HasAt, SkipDigits, SomeDigits;
  }

  lemma PowerRead(t: string, f: nat, n: Numeral)
    requires ValidNumeral(n) && HasAt(t, f, Power(n))
    ensures f <= |t| && f + |Power(n)| <= ExponentEnd(t, f)
    ensures var e := f + |Power(n)|;
      e == |t| || (!Digit(t[e]) && t[e] != 'e' && t[e] != 'E') ==> ExponentEnd(t, f) == e
  {
    hide HasAt, SkipDigits, SomeDigits, ExponentEnd;
    HasAtFits(t, f, Power(n));
    if n.exponent.Some? {
      ExponentRead(t, f, n.exponent.value);
    } else if f == |t| || (t[f] != 'e' && t[f] != 'E') {
      NoExponent(t, f);
    }
  }

  lemma NoExponent(t: string, f: nat)
    requires f <= |t| && (f == |t| || (t[f] != 'e' && t[f] != 'E'))
    ensures ExponentEnd(t, f) == f
  {
  }

  lemma ExponentRead(t: string, f: nat, x: Exponent)
    requires ValidExponent(x) && HasAt(t, f, [x.letter] + x.sign + x.digits)
    ensures var e := f + 1 + |x.sign| + |x.digits|;
      f < |t| && e <= ExponentEnd(t, f) && (e == |t| || !Digit(t[e]) ==> ExponentEnd(t, f) == e)
  {
    hide HasAt, SomeDigits, SkipDigits;
    assert [x.letter] + x.sign + x.digits == [x.letter] + (x.sign + x.digits);
    HasAtSplit(t, f, [x.letter], x.sign + x.digits);
    HasAtSplit(t, f + 1, x.sign, x.digits);
    HasAtChar(t, f, x.letter);
    var k := f + 1 + |x.sign|;
    DigitsAt(t, k, x.digits);
    DigitsSkipped(t, k, k + |x.digits|);
    FirstDigit(x.digits);
    SignIs(x);
    if x.sign != "" { HasAtChar(t, f + 1, x.sign[0]); }
  }

  lemma FirstDigit(digits: string)
    requires SomeDigits(digits)
    ensures |digits| > 0
  {
  }

  lemma SignIs(x: Exponent)
    requires ValidExponent(x)
    ensures x.sign == "" || x.sign == ['+'] || x.sign == ['-']
  {
  }

  /** The decoder reads at least what stands there, and no more when nothing that follows goes on with a number. */
  lemma NumeralRead(t: string, i: nat, n: Numeral)
    requires ValidNumeral(n) && HasAt(t, i, Spelled(n))
    ensures NumberEnd(t, i).Some? && i + |Spelled(n)| <= NumberEnd(t, i).value
    ensures i + |Spelled(n)| == |t| ==> NumberEnd(t, i).value == |t|
  {
    hide HasAt, SomeDigits, IntegerEnd, FractionEnd, ExponentEnd;
    var head := Sign(n) + n.integer;
    assert Spelled(n) == head + (Fraction(n) + Power(n));
    HasAtSplit(t, i, head, Fraction(n) + Power(n));
    HasAtSplit(t, i + |head|, Fraction(n), Power(n));
    IntegerRead(t, i, n);
    HasAtFits(t, i, Spelled(n));
    var j := i + |head|;
    if |Fraction(n)| + |Power(n)| > 0 {
      TailStarts(t, j, n);
      FractionRead(t, j, n);
      var f := j + |Fraction(n)|;
      if |Power(n)| > 0 {
        PowerStarts(t, f, n);
        PowerRead(t, f, n);
      }
    }
  }

  lemma TailStarts(t: string, j: nat, n: Numeral)
    requires ValidNumeral(n) && HasAt(t, j, Fraction(n)) && HasAt(t, j + |Fraction(n)|, Power(n))
    requires |Fraction(n)| + |Power(n)| > 0
    ensures j < |t| && !Digit(t[j])
  {
    if n.fraction.Some? {
      HasAtIndex(t, j, Fraction(n), 0);
    } else {
      HasAtIndex(t, j, Power(n), 0);
    }
  }

  lemma PowerStarts(t: string, f: nat, n: Numeral)
    requires ValidNumeral(n) && HasAt(t, f, Power(n)) && |Power(n)| > 0
    ensures f < |t| && (t[f] == 'e' || t[f] == 'E')
  {
    HasAtIndex(t, f, Power(n), 0);
  }

  // What is read is a numeral.

  /** What the decoder reads is a numeral; with the lemma above, it is the longest one that stands there. */
  lemma ReadIsNumeral(t: string, i: nat) returns (n: Numeral)
    requires i <= |t| && NumberEnd(t, i).Some?
    ensures ValidNumeral(n) && t[i..NumberEnd(t, i).value] == Spelled(n)
  {
    hide SomeDigits;
    var j := IntegerEnd(t, i).value;
    var f := FractionEnd(t, j);
    var e := ExponentEnd(t, f);
    var minus, integer := IntegerSpelled(t, i);
    var fraction := FractionSpelled(t, j);
    var exponent := ExponentSpelled(t, f);
    n := Numeral(minus, integer, fraction, exponent);
    assert t[i..f] == t[i..j] + t[j..f];
    assert t[i..e] == t[i..f] + t[f..e];
  }

  lemma IntegerSpelled(t: string, i: nat) returns (minus: bool, integer: string)
    requires i <= |t| && IntegerEnd(t, i).Some?
    ensures t[i..IntegerEnd(t, i).value] == (if minus then "-" else "") + integer
    ensures SomeDigits(integer) && (integer[0] == '0' ==> integer == "0")
  {
    var e := IntegerEnd(t, i).value;
    minus := t[i] == '-';
    var j := if minus then i + 1 else i;
    DigitRun(t, j + 1);
    integer := t[j..e];
    DigitsMean(integer);
    assert t[i..e] == t[i..j] + integer && t[i..j] == if minus then "-" else "";
    hide SkipDigits, SomeDigits;
  }

  lemma FractionSpelled(t: string, j: nat) returns (fraction: Option<string>)
    requires j <= |t|
    ensures t[j..FractionEnd(t, j)] == if fraction.Some? then "." + fraction.value else ""
    ensures fraction.Some? ==> SomeDigits(fraction.value)
  {
    var f := FractionEnd(t, j);
    if f == j {
      fraction := None;
    } else {
      DigitRun(t, j + 1);
      fraction := Some(t[j + 1..f]);
      DigitsMean(fraction.value);
      assert t[j..f] == t[j..j + 1] + t[j + 1..f];
    }
    hide SomeDigits;
  }

  lemma ExponentSpelled(t: string, f: nat) returns (exponent: Option<Exponent>)
    requires f <= |t|
    ensures t[f..ExponentEnd(t, f)]
      == match exponent { case None => "" case Some(x) => [x.letter] + x.sign + x.digits }
    ensures exponent.Some? ==> ValidExponent(exponent.value)
  {
    var e := ExponentEnd(t, f);
    if e == f {
      exponent := None;
    } else {
      var k := if t[f + 1] == '+' || t[f + 1] == '-' then f + 2 else f + 1;
      DigitRun(t, k);
      exponent := Some(Exponent(t[f], t[f + 1..k], t[k..e]));
      DigitsMean(t[k..e]);
      assert t[f..k] == [t[f]] + t[f + 1..k];
      assert t[f..e] == t[f..k] + t[k..e];
      if k == f + 2 { assert t[f + 1..k] == [t[f + 1]]; }
    }
    hide SomeDigits;
  }

  /** The lexemes of numbers are the numerals, and the three words that Python's decoder takes for numbers. */
  lemma LexemeIff(lexeme: string)
    ensures NumberLexeme(lexeme) <==>
      lexeme in ["NaN", "Infinity", "-Infinity"] || exists n :: ValidNumeral(n) && Spelled(n) == lexeme
  {
    hide NumberEnd, ValidNumeral, Spelled;
    if n :| ValidNumeral(n) && Spelled(n) == lexeme {
      assert lexeme[0..0 + |lexeme|] == lexeme;
      NumeralRead(lexeme, 0, n);
    }
    if NumberEnd(lexeme, 0) == Some(|lexeme|) {
      var n := ReadIsNumeral(lexeme, 0);
      assert lexeme[0..|lexeme|] == lexeme;
    }
  }
}
