/**
  The scalar tokens a JSON decoder accepts at a position (sections 3, 6 and 7 of RFC 8259, and the three
  extra words Python's `json` accepts). Positions are indices into the whole text.
 */
module Tokens {
  import opened Chars

  predicate HexDigit(c: char) { Digit(c) || 'a' <= c <= 'f' || 'A' <= c <= 'F' }

  predicate SimpleEscape(c: char) {
    c == '\"' || c == '\\' || c == '/' || c == 'b' || c == 'f' || c == 'n' || c == 'r' || c == 't'
  }

  /** The index after the closing quote of the string whose content starts at `i`. */
  function StringEnd(t: string, i: nat): (end: Option<nat>)
    requires i <= |t|
    ensures end.Some? ==> i < end.value <= |t| && t[end.value - 1] == '\"'
    decreases |t| - i
  {
    if i == |t| then None
    else if t[i] == '\"' then Some(i + 1)
    else if t[i] == '\\' then
      if i + 1 == |t| then None
      else if SimpleEscape(t[i + 1]) then StringEnd(t, i + 2)
      else if t[i + 1] == 'u' && i + 6 <= |t| && forall k :: i + 2 <= k < i + 6 ==> HexDigit(t[k]) then
        StringEnd(t, i + 6)
      else None
    else if t[i] < ' ' then None
    else StringEnd(t, i + 1)
  }

  function SkipDigits(t: string, i: nat): (j: nat)
    requires i <= |t|
    ensures i <= j <= |t|
    decreases |t| - i
  {
    if i < |t| && Digit(t[i]) then SkipDigits(t, i + 1) else i
  }

  function IntegerEnd(t: string, i: nat): (end: Option<nat>)
    requires i <= |t|
    ensures end.Some? ==> i < end.value <= |t|
  {
    var j := if i < |t| && t[i] == '-' then i + 1 else i;
    if j == |t| || !Digit(t[j]) then None
    else if t[j] == '0' then Some(j + 1)
    else Some(SkipDigits(t, j + 1))
  }

  function FractionEnd(t: string, i: nat): (j: nat)
    requires i <= |t|
    ensures i <= j <= |t|
  {
    if i + 1 < |t| && t[i] == '.' && Digit(t[i + 1]) then SkipDigits(t, i + 1) else i
  }

  function ExponentEnd(t: string, i: nat): (j: nat)
    requires i <= |t|
    ensures i <= j <= |t|
  {
    if i < |t| && (t[i] == 'e' || t[i] == 'E') then
      var k := if i + 1 < |t| && (t[i + 1] == '+' || t[i + 1] == '-') then i + 2 else i + 1;
      if k < |t| && Digit(t[k]) then SkipDigits(t, k) else i
    else i
  }

  /** The longest number at `i`. */
  function NumberEnd(t: string, i: nat): (end: Option<nat>)
    requires i <= |t|
    ensures end.Some? ==> i < end.value <= |t|
  {
    match IntegerEnd(t, i)
    case None => None
    case Some(j) => Some(ExponentEnd(t, FractionEnd(t, j)))
  }

  predicate HasAt(t: string, i: nat, word: string) {
    i + |word| <= |t| && t[i..i + |word|] == word
  }

  const PLAIN_WORDS := ["null", "true", "false"]

  const NUMBER_WORDS := ["NaN", "Infinity", "-Infinity"]

  /** The first of `words` found at `i`. */
  function WordAt(t: string, i: nat, words: seq<string>): (w: Option<string>)
    ensures w.Some? ==> w.value in words && HasAt(t, i, w.value)
  {
    if words == [] then None
    else if HasAt(t, i, words[0]) then Some(words[0])
    else WordAt(t, i, words[1..])
  }

  /** A scalar token: its kind and the index after it. `raw` is the content of a string or the lexeme. */
  datatype Token =
    | StringToken(raw: string, end: nat)
    | NumberToken(raw: string, end: nat)
    | WordToken(raw: string, end: nat)

  /** What the decoder reads at `i`, when that is not an object or an array. */
  function ScalarAt(t: string, i: nat): (r: Option<Token>)
    requires i < |t|
    ensures r.Some? ==> i < r.value.end <= |t|
  {
    if t[i] == '\"' then
      match StringEnd(t, i + 1)
      case None => None
      case Some(end) => Some(StringToken(t[i + 1..end - 1], end))
    else
      match WordAt(t, i, PLAIN_WORDS)
      case Some(w) => Some(WordToken(w, i + |w|))
      case None =>
        match NumberEnd(t, i)
        case Some(end) => Some(NumberToken(t[i..end], end))
        case None =>
          match WordAt(t, i, NUMBER_WORDS)
          case Some(w) => Some(NumberToken(w, i + |w|))
          case None => None
  }

  // Which raw texts are tokens by themselves.

  predicate StringBody(body: string) { StringEnd(body + "\"", 0) == Some(|body| + 1) }

  predicate NumberLexeme(lexeme: string) { NumberEnd(lexeme, 0) == Some(|lexeme|) || lexeme in NUMBER_WORDS }

  predicate WordLexeme(lexeme: string) { lexeme in PLAIN_WORDS }

  /** A string token depends on its own characters only. */
  lemma {:induction false} StringEndLocal(t: string, i: nat, u: string, j: nat)
    requires i <= |t| && StringEnd(t, i).Some?
    requires j + (StringEnd(t, i).value - i) <= |u|
    requires forall k :: i <= k < StringEnd(t, i).value ==> t[k] == u[j - i + k]
    ensures StringEnd(u, j) == Some(j + StringEnd(t, i).value - i)
    decreases |t| - i
  {
    assert u[j] == u[j - i + i] == t[i];
    if t[i] == '\"' {
    } else {
      var step := if t[i] != '\\' then 1 else if SimpleEscape(t[i + 1]) then 2 else 6;
      assert StringEnd(t, i) == StringEnd(t, i + step);
      StringEndLocal(t, i + step, u, j + step);
      if step > 1 { assert u[j - i + (i + 1)] == t[i + 1]; }
      if step == 6 {
        forall k | j + 2 <= k < j + 6 ensures HexDigit(u[k]) {
          assert t[i - j + k] == u[j - i + (i - j + k)];
        }
      }
    }
  }

  /** A string body followed by a quote is read back to exactly that quote. */
  lemma StringBodyAt(t: string, i: nat, body: string)
    requires StringBody(body) && HasAt(t, i, body + "\"")
    ensures StringEnd(t, i) == Some(i + |body| + 1)
  {
    var u := body + "\"";
    forall k | 0 <= k < |u| ensures u[k] == t[i + k] {
      assert t[i..i + |u|][k] == t[i + k];
    }
    StringEndLocal(u, 0, t, i);
  }

  /** Characters of numbers and words: never structure, never space. */
  predicate LexemeChar(c: char) {
    Digit(c) || 'a' <= c <= 'z' || 'A' <= c <= 'Z' || c == '-' || c == '+' || c == '.'
  }

  lemma LexemesAreLexemes(lexeme: string)
    requires NumberLexeme(lexeme) || WordLexeme(lexeme)
    ensures lexeme != "" && forall k :: 0 <= k < |lexeme| ==> LexemeChar(lexeme[k])
  {
    if lexeme in NUMBER_WORDS || lexeme in PLAIN_WORDS {
    } else {
      NumberChars(lexeme, 0);
    }
  }

  lemma {:induction false} DigitRun(t: string, i: nat)
    requires i <= |t|
    ensures forall k :: i <= k < SkipDigits(t, i) ==> Digit(t[k])
    ensures SkipDigits(t, i) < |t| ==> !Digit(t[SkipDigits(t, i)])
    decreases |t| - i
  {
    if i < |t| && Digit(t[i]) { DigitRun(t, i + 1); }
  }

  lemma NumberChars(t: string, i: nat)
    requires i <= |t| && NumberEnd(t, i).Some?
    ensures forall k :: i <= k < NumberEnd(t, i).value ==> LexemeChar(t[k])
  {
    IntegerChars(t, i);
    FractionChars(t, IntegerEnd(t, i).value);
    ExponentChars(t, FractionEnd(t, IntegerEnd(t, i).value));
    hide IntegerEnd, FractionEnd, ExponentEnd, LexemeChar;
  }

  lemma IntegerChars(t: string, i: nat)
    requires i <= |t| && IntegerEnd(t, i).Some?
    ensures forall k :: i <= k < IntegerEnd(t, i).value ==> LexemeChar(t[k])
  {
    if i + 1 <= |t| { DigitRun(t, i + 1); }
    if i + 2 <= |t| { DigitRun(t, i + 2); }
    hide SkipDigits;
  }

  lemma FractionChars(t: string, j: nat)
    requires j <= |t|
    ensures forall k :: j <= k < FractionEnd(t, j) ==> LexemeChar(t[k])
  {
    if j + 1 <= |t| { DigitRun(t, j + 1); }
    hide SkipDigits;
  }

  lemma ExponentChars(t: string, f: nat)
    requires f <= |t|
    ensures forall k :: f <= k < ExponentEnd(t, f) ==> LexemeChar(t[k])
  {
    if f + 1 <= |t| { DigitRun(t, f + 1); }
    if f + 2 <= |t| { DigitRun(t, f + 2); }
    hide SkipDigits;
  }
}
