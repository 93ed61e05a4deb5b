/**
  What the root scanners make of text that is not quite JSON (agently/utils/DataLocator.py:205-317): raw line
  breaks and tabs inside strings become escapes, outside strings a backslash is dropped with the character after
  it, and a backslash in front of an opening quote is dropped alone. Everything else is kept.
 */
module LocatedBreaks {
  import opened Chars
  import opened Documents
  import opened Locator
  import opened StringBodies
  import opened Tokens

  /** A piece of a content, or a raw line break or tab. */
  datatype Bit = Proper(piece: Piece) | LineBreak | Tab

  /** A string as it stands in the text; its opening quote may have a backslash in front. */
  datatype RawString = RawString(slashed: bool, bits: seq<Bit>)

  /** What stands between tokens: a space, or a backslash and some character other than a quote. */
  datatype Gap = Space(c: char) | Dropped(c: char)

  datatype RawDoc =
    | RawText(text: RawString)
    | RawNumber(lexeme: string)
    | RawWord(lexeme: string)
    | RawObject(pad: seq<Gap>, pairs: RawPairs)
    | RawArray(pad: seq<Gap>, elements: RawElements)

  datatype RawPairs =
    | NoRawPairs
    | RawPair(key: RawString, beforeColon: seq<Gap>, afterColon: seq<Gap>, value: RawDoc,
              afterValue: seq<Gap>, afterComma: seq<Gap>, rest: RawPairs)

  datatype RawElements =
    | NoRawElements
    | RawElement(value: RawDoc, afterValue: seq<Gap>, afterComma: seq<Gap>, rest: RawElements)

  // The strings: as they stand, as they are located, and what they mean.

  /** The pieces of the located content: for a line break the escape `\n`, for a tab the escape `\t`. */
  function Escaped(bits: seq<Bit>): (r: seq<Piece>)
    ensures |r| == |bits|
  {
    if bits == [] then []
    else
      [match bits[0]
       case Proper(piece) => piece
       case LineBreak => Short(LINE_BREAK)
       case Tab => Short(TAB)] + Escaped(bits[1..])
  }

  /** The rows of the table of two-character escapes with the letters `n` and `t`. */
  const LINE_BREAK: nat := 5
  const TAB: nat := 7

  predicate ValidBits(bits: seq<Bit>) { WellFormed(Escaped(bits)) }

  lemma FirstBit(bits: seq<Bit>)
    requires ValidBits(bits) && bits != []
    ensures ValidBits(bits[1..]) && Escaped(bits)[1..] == Escaped(bits[1..])
    ensures bits[0].Proper? ==> ValidPiece(bits[0].piece)
    ensures Written(Escaped(bits)) == Spelling(Escaped(bits)[0]) + Written(Escaped(bits[1..]))
    ensures Text(Escaped(bits)) == Meaning(Escaped(bits)[0]) + Text(Escaped(bits[1..]))
  {
    FirstPiece(Escaped(bits));
  }

  function RawBits(bits: seq<Bit>): string
    requires ValidBits(bits)
  {
    if bits == [] then ""
    else
      FirstBit(bits);
      (match bits[0]
       case Proper(piece) => Spelling(piece)
       case LineBreak => ['\n']
       case Tab => ['\t']) + RawBits(bits[1..])
  }

  /** What is meant: a raw line break or tab stands for itself. */
  function Meant(bits: seq<Bit>): string
    requires ValidBits(bits)
  {
    if bits == [] then ""
    else
      FirstBit(bits);
      (match bits[0]
       case Proper(piece) => Meaning(piece)
       case LineBreak => ['\n']
       case Tab => ['\t']) + Meant(bits[1..])
  }

  /** The located content decodes to what was meant. */
  lemma {:induction false} EscapedMeansRaw(bits: seq<Bit>)
    requires ValidBits(bits)
    ensures Text(Escaped(bits)) == Meant(bits)
    ensures StringBody(Written(Escaped(bits))) && Content(Written(Escaped(bits))) == Meant(bits)
    decreases |bits|
  {
    WrittenIsDecoded(Escaped(bits));
    hide WellFormed, ValidPiece, StringBody, Content, Spelling;
    if bits != [] {
      FirstBit(bits);
      EscapedMeansRaw(bits[1..]);
      BreaksMean();
    } else {
      NoPieces();
    }
  }

  lemma BreaksMean()
    ensures ValidPiece(Short(LINE_BREAK)) && Meaning(Short(LINE_BREAK)) == ['\n']
    ensures ValidPiece(Short(TAB)) && Meaning(Short(TAB)) == ['\t']
    ensures Spelling(Short(LINE_BREAK)) == ['\\', 'n'] && Spelling(Short(TAB)) == ['\\', 't']
  {
  }

  // The text as it stands.

  function RawQuote(r: RawString): string
    requires ValidBits(r.bits)
  {
    (if r.slashed then ['\\', '\"'] else ['\"']) + (RawBits(r.bits) + ['\"'])
  }

  function RawGaps(pad: seq<Gap>): string {
    if pad == [] then ""
    else (match pad[0] case Space(c) => [c] case Dropped(c) => ['\\', c]) + RawGaps(pad[1..])
  }

  /** The spaces alone. */
  function Spaces(pad: seq<Gap>): string {
    if pad == [] then ""
    else (match pad[0] case Space(c) => [c] case Dropped(_) => "") + Spaces(pad[1..])
  }

  predicate ValidGaps(pad: seq<Gap>) {
    forall i :: 0 <= i < |pad| ==> if pad[i].Space? then IsSpace(pad[i].c) else pad[i].c != '\"'
  }

  predicate ValidRaw(d: RawDoc) {
    match d
    case RawText(text) => ValidBits(text.bits)
    case RawNumber(lexeme) => NumberLexeme(lexeme)
    case RawWord(lexeme) => WordLexeme(lexeme)
    case RawObject(pad, pairs) => ValidGaps(pad) && ValidRawPairs(pairs)
    case RawArray(pad, elements) => ValidGaps(pad) && ValidRawElements(elements)
  }

  predicate ValidRawPairs(ps: RawPairs) {
    match ps
    case NoRawPairs => true
    case RawPair(key, beforeColon, afterColon, value, afterValue, afterComma, rest) =>
      && ValidBits(key.bits) && ValidGaps(beforeColon) && ValidGaps(afterColon) && ValidRaw(value)
      && ValidGaps(afterValue) && ValidGaps(afterComma) && ValidRawPairs(rest)
  }

  predicate ValidRawElements(es: RawElements) {
    match es
    case NoRawElements => true
    case RawElement(value, afterValue, afterComma, rest) =>
      ValidRaw(value) && ValidGaps(afterValue) && ValidGaps(afterComma) && ValidRawElements(rest)
  }

  function RawRender(d: RawDoc): string
    requires ValidRaw(d)
  {
    match d
    case RawText(text) => RawQuote(text)
    case RawNumber(lexeme) => lexeme
    case RawWord(lexeme) => lexeme
    case RawObject(pad, pairs) => "{" + (RawGaps(pad) + RawRenderPairs(pairs))
    case RawArray(pad, elements) => "[" + (RawGaps(pad) + RawRenderElements(elements))
  }

  function RawRenderPairs(ps: RawPairs): string
    requires ValidRawPairs(ps)
  {
    match ps
    case NoRawPairs => "}"
    case RawPair(key, beforeColon, afterColon, value, afterValue, afterComma, rest) =>
      RawQuote(key) + (RawGaps(beforeColon) + (":" + (RawGaps(afterColon) + (RawRender(value) + (RawGaps(afterValue) +
        (if rest.NoRawPairs? then RawRenderPairs(rest) else "," + (RawGaps(afterComma) + RawRenderPairs(rest))))))))
  }

  function RawRenderElements(es: RawElements): string
    requires ValidRawElements(es)
  {
    match es
    case NoRawElements => "]"
    case RawElement(value, afterValue, afterComma, rest) =>
      RawRender(value) + (RawGaps(afterValue) + (if rest.NoRawElements? then RawRenderElements(rest)
        else "," + (RawGaps(afterComma) + RawRenderElements(rest))))
  }

  /** The JSON document that is located. */
  function Clean(d: RawDoc): Doc
    requires ValidRaw(d)
  {
    match d
    case RawText(text) => TextDoc(Written(Escaped(text.bits)))
    case RawNumber(lexeme) => NumberDoc(lexeme)
    case RawWord(lexeme) => WordDoc(lexeme)
    case RawObject(pad, pairs) => ObjectDoc(Spaces(pad), CleanPairs(pairs))
    case RawArray(pad, elements) => ArrayDoc(Spaces(pad), CleanElements(elements))
  }

  function CleanPairs(ps: RawPairs): Pairs
    requires ValidRawPairs(ps)
  {
    match ps
    case NoRawPairs => NoPairs
    case RawPair(key, beforeColon, afterColon, value, afterValue, afterComma, rest) =>
      Pair(Written(Escaped(key.bits)), Spaces(beforeColon), Spaces(afterColon), Clean(value), Spaces(afterValue),
           Spaces(afterComma), CleanPairs(rest))
  }

  function CleanElements(es: RawElements): Elements
    requires ValidRawElements(es)
  {
    match es
    case NoRawElements => NoElements
    case RawElement(value, afterValue, afterComma, rest) =>
      Element(Clean(value), Spaces(afterValue), Spaces(afterComma), CleanElements(rest))
  }

  // Passing over a part of the text.

  datatype Place = Place(layer: int, inQuote: bool)

  /** The scan goes on behind a part, or ends there with the block. */
  function GoesOn(t: string, i: nat, p: Place, written: string): Option<Block>
    requires i <= |t|
  {
    if p.layer == 0 then Some(Block(written, i)) else FindBlock(t, i, p.layer, p.inQuote, written)
  }

  /** The part `raw` at `i` takes the scan from one place to another, and `kept` is written for it. */
  ghost predicate Passes(t: string, i: nat, p: Place, raw: string, kept: string, p': Place) {
    && HasAt(t, i, raw)
    && forall written ::
         FindBlock(t, i, p.layer, p.inQuote, written) == GoesOn(t, i + |raw|, p', written + kept)
  }

  lemma PassBoth(t: string, i: nat, p: Place, a: string, x: string, p1: Place, b: string, y: string, p2: Place)
    requires Passes(t, i, p, a, x, p1) && Passes(t, i + |a|, p1, b, y, p2) && p1.layer != 0
    ensures Passes(t, i, p, a + b, x + y, p2)
  {
    hide FindBlock, HasAt;
    HasAtSplit(t, i, a, b);
    HasAtFits(t, i, a + b);
    forall written
      ensures FindBlock(t, i, p.layer, p.inQuote, written) == GoesOn(t, i + |a + b|, p2, written + (x + y))
    {
      assert written + (x + y) == written + x + y;
    }
  }

  lemma PassNothing(t: string, i: nat, p: Place)
    requires i <= |t| && p.layer != 0
    ensures Passes(t, i, p, "", "", p)
  {
    hide FindBlock;
    assert t[i..i] == "";
    forall written ensures FindBlock(t, i, p.layer, p.inQuote, written) == GoesOn(t, i, p, written + "") {
      assert written + "" == written;
    }
  }

  /** One turn that is known. */
  lemma PassTurn(t: string, i: nat, p: Place, raw: string, kept: string, p': Place)
    requires HasAt(t, i, raw) && 1 <= |raw| <= 2 && i < |t|
    requires TakeTurn(p.layer, p.inQuote, t[i], At(t, i + 1)) == Turn(p'.layer, p'.inQuote, kept, |raw|)
    requires p'.layer == 0 ==> kept != ""
    ensures Passes(t, i, p, raw, kept, p')
  {
    hide FindBlock, TakeTurn, HasAt;
    HasAtFits(t, i, raw);
    StepWhole(t, i, |raw|);
    forall written ensures FindBlock(t, i, p.layer, p.inQuote, written) == GoesOn(t, i + |raw|, p', written + kept) {
      FindBlockTurn(t, i, p.layer, p.inQuote, written);
    }
  }

  lemma PassChar(t: string, i: nat, layer: int, c: char)
    requires HasAt(t, i, [c]) && c != '\\' && c != '\"' && !Opener(c) && !Closer(c) && layer != 0
    ensures Passes(t, i, Place(layer, false), [c], [c], Place(layer, false))
  {
    HasAtChar(t, i, c);
    PassTurn(t, i, Place(layer, false), [c], [c], Place(layer, false));
  }

  lemma PassQuoted(t: string, i: nat, layer: int, c: char)
    requires HasAt(t, i, [c]) && c != '\\' && c != '\"' && c != '\n' && c != '\t' && layer != 0
    ensures Passes(t, i, Place(layer, true), [c], [c], Place(layer, true))
  {
    HasAtChar(t, i, c);
    PassTurn(t, i, Place(layer, true), [c], [c], Place(layer, true));
  }

  /** A run of plain characters. */
  lemma {:induction false} PassRun(t: string, i: nat, layer: int, word: string)
    requires HasAt(t, i, word) && layer != 0
    requires forall k :: 0 <= k < |word| ==> word[k] != '\\' && word[k] != '\"' && !Opener(word[k]) && !Closer(word[k])
    ensures Passes(t, i, Place(layer, false), word, word, Place(layer, false))
    decreases |word|
  {
    hide Passes, HasAt;
    HasAtFits(t, i, word);
    if word == "" {
      PassNothing(t, i, Place(layer, false));
    } else {
      assert word == [word[0]] + word[1..];
      HasAtSplit(t, i, [word[0]], word[1..]);
      PassChar(t, i, layer, word[0]);
      PassRun(t, i + 1, layer, word[1..]);
      PassBoth(t, i, Place(layer, false), [word[0]], [word[0]], Place(layer, false), word[1..], word[1..],
               Place(layer, false));
    }
  }

  lemma {:induction false} PassQuotedRun(t: string, i: nat, layer: int, word: string)
    requires HasAt(t, i, word) && layer != 0
    requires forall k :: 0 <= k < |word| ==> word[k] != '\\' && word[k] != '\"' && word[k] != '\n' && word[k] != '\t'
    ensures Passes(t, i, Place(layer, true), word, word, Place(layer, true))
    decreases |word|
  {
    hide Passes, HasAt;
    HasAtFits(t, i, word);
    if word == "" {
      PassNothing(t, i, Place(layer, true));
    } else {
      assert word == [word[0]] + word[1..];
      HasAtSplit(t, i, [word[0]], word[1..]);
      PassQuoted(t, i, layer, word[0]);
      PassQuotedRun(t, i + 1, layer, word[1..]);
      PassBoth(t, i, Place(layer, true), [word[0]], [word[0]], Place(layer, true), word[1..], word[1..],
               Place(layer, true));
    }
  }

  // Strings.

  /** A backslash inside a string is kept with the character after it. */
  lemma PassEscape(t: string, i: nat, layer: int, c: char)
    requires HasAt(t, i, ['\\', c]) && layer != 0
    ensures Passes(t, i, Place(layer, true), ['\\', c], ['\\', c], Place(layer, true))
  {
    TwoChars(t, i, '\\', c);
    PassTurn(t, i, Place(layer, true), ['\\', c], ['\\', c], Place(layer, true));
  }

  lemma TwoChars(t: string, i: nat, b: char, c: char)
    requires HasAt(t, i, [b, c])
    ensures i + 1 < |t| && t[i] == b && t[i + 1] == c && At(t, i + 1) == Some(c)
  {
    HasAtIndex(t, i, [b, c], 0);
    HasAtIndex(t, i, [b, c], 1);
  }

  lemma PassUnit(t: string, i: nat, layer: int, digits: string)
    requires HasAt(t, i, "\\u" + digits) && FourDigits(digits) && layer != 0
    ensures Passes(t, i, Place(layer, true), "\\u" + digits, "\\u" + digits, Place(layer, true))
  {
    hide Passes, HasAt, LOWER, UPPER;
    assert ['\\', 'u'] == "\\u";
    HasAtSplit(t, i, "\\u", digits);
    PassEscape(t, i, layer, 'u');
    forall k | 0 <= k < 4
      ensures digits[k] != '\\' && digits[k] != '\"' && digits[k] != '\n' && digits[k] != '\t'
    {
      HexRank(digits[k]);
    }
    PassQuotedRun(t, i + 2, layer, digits);
    PassBoth(t, i, Place(layer, true), "\\u", "\\u", Place(layer, true), digits, digits, Place(layer, true));
  }

  lemma PassPiece(t: string, i: nat, layer: int, p: Piece)
    requires ValidPiece(p) && HasAt(t, i, Spelling(p)) && layer != 0
    ensures Passes(t, i, Place(layer, true), Spelling(p), Spelling(p), Place(layer, true))
  {
    hide Passes, HasAt, LOWER, UPPER, Positional, FourDigits;
    match p
    case Plain(c) => PassQuoted(t, i, layer, c);
    case Short(index) => PassEscape(t, i, layer, SHORT_ESCAPES[index].0);
    case Unit(digits) => PassUnit(t, i, layer, digits);
    case Astral(high, low) =>
      var a, b := "\\u" + high, "\\u" + low;
      assert Spelling(p) == a + b;
      HasAtSplit(t, i, a, b);
      PassUnit(t, i, layer, high);
      PassUnit(t, i + |a|, layer, low);
      PassBoth(t, i, Place(layer, true), a, a, Place(layer, true), b, b, Place(layer, true));
  }

  /** A raw line break or tab inside a string is written as its escape. */
  lemma PassBreak(t: string, i: nat, layer: int, c: char)
    requires HasAt(t, i, [c]) && (c == '\n' || c == '\t') && layer != 0
    ensures Passes(t, i, Place(layer, true), [c], ['\\', if c == '\n' then 'n' else 't'], Place(layer, true))
  {
    HasAtChar(t, i, c);
    PassTurn(t, i, Place(layer, true), [c], ['\\', if c == '\n' then 'n' else 't'], Place(layer, true));
  }

  lemma RawBitsFirst(bits: seq<Bit>)
    requires ValidBits(bits) && bits != []
    ensures ValidBits(bits[1..])
    ensures bits[0].Proper? ==> Escaped(bits)[0] == bits[0].piece && ValidPiece(bits[0].piece)
    ensures var first :=
      match bits[0] { case Proper(piece) => Spelling(piece) case LineBreak => ['\n'] case Tab => ['\t'] };
      RawBits(bits) == first + RawBits(bits[1..])
    ensures var kept := match bits[0] {
        case Proper(piece) => Spelling(piece) case LineBreak => ['\\', 'n'] case Tab => ['\\', 't'] };
      Written(Escaped(bits)) == kept + Written(Escaped(bits[1..]))
  {
    FirstBit(bits);
    BreaksMean();
    hide WellFormed, Spelling, Written;
  }

  lemma {:induction false} PassBits(t: string, i: nat, layer: int, bits: seq<Bit>)
    requires ValidBits(bits) && HasAt(t, i, RawBits(bits)) && layer != 0
    ensures Passes(t, i, Place(layer, true), RawBits(bits), Written(Escaped(bits)), Place(layer, true))
    decreases |bits|
  {
    hide *;
    var p := Place(layer, true);
    HasAtFits(t, i, RawBits(bits));
    if bits == [] {
      NoBits();
      PassNothing(t, i, p);
    } else {
      RawBitsFirst(bits);
      FirstBit(bits);
      var first := match bits[0] { case Proper(piece) => Spelling(piece) case LineBreak => ['\n'] case Tab => ['\t'] };
      var kept := match bits[0] {
        case Proper(piece) => Spelling(piece) case LineBreak => ['\\', 'n'] case Tab => ['\\', 't'] };
      HasAtSplit(t, i, first, RawBits(bits[1..]));
      match bits[0] {
        case Proper(piece) => PassPiece(t, i, layer, piece);
        case LineBreak => PassBreak(t, i, layer, '\n');
        case Tab => PassBreak(t, i, layer, '\t');
      }
      PassBits(t, i + |first|, layer, bits[1..]);
      PassBoth(t, i, p, first, kept, p, RawBits(bits[1..]), Written(Escaped(bits[1..])), p);
    }
  }

  lemma NoBits()
    ensures ValidBits([]) && RawBits([]) == "" && Written(Escaped([])) == ""
  {
  }

  /** The quote that opens a string, and the backslash in front of it that is dropped. */
  lemma PassOpening(t: string, i: nat, layer: int, slashed: bool)
    requires var raw := if slashed then ['\\', '\"'] else ['\"']; HasAt(t, i, raw) && layer != 0
    ensures Passes(t, i, Place(layer, false), if slashed then ['\\', '\"'] else ['\"'], ['\"'], Place(layer, true))
  {
    if slashed {
      TwoChars(t, i, '\\', '\"');
      PassTurn(t, i, Place(layer, false), ['\\', '\"'], ['\"'], Place(layer, true));
    } else {
      HasAtChar(t, i, '\"');
      PassTurn(t, i, Place(layer, false), ['\"'], ['\"'], Place(layer, true));
    }
  }

  lemma PassClosing(t: string, i: nat, layer: int)
    requires HasAt(t, i, ['\"']) && layer != 0
    ensures Passes(t, i, Place(layer, true), ['\"'], ['\"'], Place(layer, false))
  {
    HasAtChar(t, i, '\"');
    PassTurn(t, i, Place(layer, true), ['\"'], ['\"'], Place(layer, false));
  }

  lemma PassString(t: string, i: nat, layer: int, r: RawString)
    requires ValidBits(r.bits) && HasAt(t, i, RawQuote(r)) && layer != 0
    ensures Passes(t, i, Place(layer, false), RawQuote(r), Quote(Written(Escaped(r.bits))), Place(layer, false))
  {
    hide *;
    BitsMean(r.bits);
    var open := if r.slashed then ['\\', '\"'] else ['\"'];
    var body, kept := RawBits(r.bits), Written(Escaped(r.bits));
    QuotesMean(r);
    HasAtSplit(t, i, open, body + ['\"']);
    HasAtSplit(t, i + |open|, body, ['\"']);
    PassOpening(t, i, layer, r.slashed);
    PassBits(t, i + |open|, layer, r.bits);
    PassClosing(t, i + |open| + |body|, layer);
    PassBoth(t, i + |open|, Place(layer, true), body, kept, Place(layer, true), ['\"'], ['\"'], Place(layer, false));
    PassBoth(t, i, Place(layer, false), open, ['\"'], Place(layer, true), body + ['\"'], kept + ['\"'],
             Place(layer, false));
  }

  lemma BitsMean(bits: seq<Bit>)
    ensures ValidBits(bits) <==> WellFormed(Escaped(bits))
  {
  }

  lemma QuotesMean(r: RawString)
    requires ValidBits(r.bits)
    ensures RawQuote(r) == (if r.slashed then ['\\', '\"'] else ['\"']) + (RawBits(r.bits) + ['\"'])
    ensures Quote(Written(Escaped(r.bits))) == ['\"'] + (Written(Escaped(r.bits)) + ['\"'])
  {
  }

  // Gaps.

  lemma PassGap(t: string, i: nat, layer: int, g: Gap)
    requires layer != 0 && if g.Space? then IsSpace(g.c) && HasAt(t, i, [g.c])
      else g.c != '\"' && HasAt(t, i, ['\\', g.c])
    ensures Passes(t, i, Place(layer, false), if g.Space? then [g.c] else ['\\', g.c], if g.Space? then [g.c] else "",
                   Place(layer, false))
  {
    if g.Space? {
      PassChar(t, i, layer, g.c);
    } else {
      TwoChars(t, i, '\\', g.c);
      PassTurn(t, i, Place(layer, false), ['\\', g.c], "", Place(layer, false));
    }
  }

  lemma {:induction false} PassGaps(t: string, i: nat, layer: int, pad: seq<Gap>)
    requires ValidGaps(pad) && HasAt(t, i, RawGaps(pad)) && layer != 0
    ensures Passes(t, i, Place(layer, false), RawGaps(pad), Spaces(pad), Place(layer, false))
    decreases |pad|
  {
    hide *;
    var p := Place(layer, false);
    HasAtFits(t, i, RawGaps(pad));
    if pad == [] {
      NoGaps();
      PassNothing(t, i, p);
    } else {
      GapsFirst(pad);
      var first := if pad[0].Space? then [pad[0].c] else ['\\', pad[0].c];
      var kept := if pad[0].Space? then [pad[0].c] else "";
      HasAtSplit(t, i, first, RawGaps(pad[1..]));
      PassGap(t, i, layer, pad[0]);
      PassGaps(t, i + |first|, layer, pad[1..]);
      PassBoth(t, i, p, first, kept, p, RawGaps(pad[1..]), Spaces(pad[1..]), p);
    }
  }

  lemma NoGaps()
    ensures RawGaps([]) == "" && Spaces([]) == ""
  {
  }

  lemma GapsFirst(pad: seq<Gap>)
    requires pad != [] && ValidGaps(pad)
    ensures ValidGaps(pad[1..]) && if pad[0].Space? then IsSpace(pad[0].c) else pad[0].c != '\"'
    ensures RawGaps(pad) == (if pad[0].Space? then [pad[0].c] else ['\\', pad[0].c]) + RawGaps(pad[1..])
    ensures Spaces(pad) == (if pad[0].Space? then [pad[0].c] else "") + Spaces(pad[1..])
  {
    hide IsSpace;
  }

  // Documents.

  lemma OpenMeans(t: string, i: nat, layer: int, c: char)
    requires HasAt(t, i, [c]) && Opener(c) && layer >= 0
    ensures Passes(t, i, Place(layer, false), [c], [c], Place(layer + 1, false))
  {
    HasAtChar(t, i, c);
    PassTurn(t, i, Place(layer, false), [c], [c], Place(layer + 1, false));
  }

  lemma CloseMeans(t: string, i: nat, layer: int, c: char)
    requires HasAt(t, i, [c]) && Closer(c) && layer >= 0
    ensures Passes(t, i, Place(layer + 1, false), [c], [c], Place(layer, false))
  {
    HasAtChar(t, i, c);
    PassTurn(t, i, Place(layer + 1, false), [c], [c], Place(layer, false));
  }

  lemma PassLexeme(t: string, i: nat, layer: int, lexeme: string)
    requires (NumberLexeme(lexeme) || WordLexeme(lexeme)) && HasAt(t, i, lexeme) && layer != 0
    ensures Passes(t, i, Place(layer, false), lexeme, lexeme, Place(layer, false))
  {
    LexemesAreLexemes(lexeme);
    hide NumberLexeme, WordLexeme, HasAt, Passes;
    PassRun(t, i, layer, lexeme);
  }

  lemma RawParts(d: RawDoc)
    requires ValidRaw(d)
    ensures d.RawText? ==>
      ValidBits(d.text.bits) && RawRender(d) == RawQuote(d.text)
        && Render(Clean(d)) == Quote(Written(Escaped(d.text.bits)))
    ensures d.RawNumber? || d.RawWord? ==>
      RawRender(d) == Render(Clean(d)) == d.lexeme && (NumberLexeme(d.lexeme) || WordLexeme(d.lexeme))
    ensures d.RawObject? ==>
      && ValidGaps(d.pad) && ValidRawPairs(d.pairs)
      && RawRender(d) == ['{'] + (RawGaps(d.pad) + RawRenderPairs(d.pairs))
      && Render(Clean(d)) == ['{'] + (Spaces(d.pad) + RenderPairs(CleanPairs(d.pairs)))
    ensures d.RawArray? ==>
      && ValidGaps(d.pad) && ValidRawElements(d.elements)
      && RawRender(d) == ['['] + (RawGaps(d.pad) + RawRenderElements(d.elements))
      && Render(Clean(d)) == ['['] + (Spaces(d.pad) + RenderElements(CleanElements(d.elements)))
  {
  }

  /** A container, from its bracket to its closing bracket. */
  lemma {:induction false} PassContainer(t: string, i: nat, layer: int, d: RawDoc)
    requires ValidRaw(d) && HasAt(t, i, RawRender(d)) && layer >= 0 && (d.RawObject? || d.RawArray?)
    ensures Passes(t, i, Place(layer, false), RawRender(d), Render(Clean(d)), Place(layer, false))
    decreases d, 0
  {
    hide *;
    RawParts(d);
    var p, inner := Place(layer, false), Place(layer + 1, false);
    var raw, kept := RawGaps(d.pad), Spaces(d.pad);
    if d.RawObject? {
      HasAtSplit(t, i, ['{'], raw + RawRenderPairs(d.pairs));
      HasAtSplit(t, i + 1, raw, RawRenderPairs(d.pairs));
      OpenerClosers();
      OpenMeans(t, i, layer, '{');
      PassGaps(t, i + 1, layer + 1, d.pad);
      PassPairs(t, i + 1 + |raw|, layer, d.pairs);
      PassBoth(t, i + 1, inner, raw, kept, inner, RawRenderPairs(d.pairs), RenderPairs(CleanPairs(d.pairs)), p);
      PassBoth(t, i, p, ['{'], ['{'], inner, raw + RawRenderPairs(d.pairs), kept + RenderPairs(CleanPairs(d.pairs)), p);
    } else {
      HasAtSplit(t, i, ['['], raw + RawRenderElements(d.elements));
      HasAtSplit(t, i + 1, raw, RawRenderElements(d.elements));
      OpenerClosers();
      OpenMeans(t, i, layer, '[');
      PassGaps(t, i + 1, layer + 1, d.pad);
      PassElements(t, i + 1 + |raw|, layer, d.elements);
      var rest, clean := RawRenderElements(d.elements), RenderElements(CleanElements(d.elements));
      PassBoth(t, i + 1, inner, raw, kept, inner, rest, clean, p);
      PassBoth(t, i, p, ['['], ['['], inner, raw + rest, kept + clean, p);
    }
  }

  lemma OpenerClosers()
    ensures Opener('{') && Opener('[') && Closer('}') && Closer(']')
  {
  }

  lemma {:induction false} PassDoc(t: string, i: nat, layer: int, d: RawDoc)
    requires ValidRaw(d) && HasAt(t, i, RawRender(d)) && layer >= 1
    ensures Passes(t, i, Place(layer, false), RawRender(d), Render(Clean(d)), Place(layer, false))
    decreases d, 1
  {
    hide *;
    RawParts(d);
    match d
    case RawText(text) => PassString(t, i, layer, text);
    case RawNumber(lexeme) => PassLexeme(t, i, layer, lexeme);
    case RawWord(lexeme) => PassLexeme(t, i, layer, lexeme);
    case RawObject(_, _) => PassContainer(t, i, layer, d);
    case RawArray(_, _) => PassContainer(t, i, layer, d);
  }

  lemma RawPairParts(ps: RawPairs)
    requires ValidRawPairs(ps)
    ensures ps.NoRawPairs? ==> RawRenderPairs(ps) == ['}'] && RenderPairs(CleanPairs(ps)) == ['}']
    ensures ps.RawPair? ==>
      && ValidBits(ps.key.bits) && ValidGaps(ps.beforeColon) && ValidGaps(ps.afterColon) && ValidRaw(ps.value)
      && ValidGaps(ps.afterValue) && ValidGaps(ps.afterComma) && ValidRawPairs(ps.rest)
      && RawRenderPairs(ps) == RawQuote(ps.key) + (RawGaps(ps.beforeColon) + ([':'] + (RawGaps(ps.afterColon)
        + (RawRender(ps.value) + (RawGaps(ps.afterValue) + RawEnd(ps))))))
      && RenderPairs(CleanPairs(ps)) == Quote(Written(Escaped(ps.key.bits))) + (Spaces(ps.beforeColon) + ([':']
        + (Spaces(ps.afterColon) + (Render(Clean(ps.value)) + (Spaces(ps.afterValue) + CleanEnd(ps))))))
      && RawEnd(ps) == (if ps.rest.NoRawPairs? then RawRenderPairs(ps.rest)
           else [','] + (RawGaps(ps.afterComma) + RawRenderPairs(ps.rest)))
      && CleanEnd(ps) == (if ps.rest.NoRawPairs? then RenderPairs(CleanPairs(ps.rest))
           else [','] + (Spaces(ps.afterComma) + RenderPairs(CleanPairs(ps.rest))))
  {
    hide Quote, RawQuote, Render, RawRender, Clean;
  }

  function RawEnd(ps: RawPairs): string
    requires ps.RawPair? && ValidRawPairs(ps)
  {
    if ps.rest.NoRawPairs? then RawRenderPairs(ps.rest) else "," + (RawGaps(ps.afterComma) + RawRenderPairs(ps.rest))
  }

  function CleanEnd(ps: RawPairs): string
    requires ps.RawPair? && ValidRawPairs(ps)
  {
    if ps.rest.NoRawPairs? then RenderPairs(CleanPairs(ps.rest))
    else "," + (Spaces(ps.afterComma) + RenderPairs(CleanPairs(ps.rest)))
  }

  lemma {:induction false} PassPairs(t: string, i: nat, layer: int, ps: RawPairs)
    requires ValidRawPairs(ps) && HasAt(t, i, RawRenderPairs(ps)) && layer >= 0
    ensures Passes(t, i, Place(layer + 1, false), RawRenderPairs(ps), RenderPairs(CleanPairs(ps)), Place(layer, false))
    decreases ps, 2
  {
    hide *;
    RawPairParts(ps);
    OpenerClosers();
    if ps.NoRawPairs? {
      CloseMeans(t, i, layer, '}');
    } else {
      BitsMean(ps.key.bits);
      var p := Place(layer + 1, false);
      var key, name := RawQuote(ps.key), Quote(Written(Escaped(ps.key.bits)));
      var r4, k4 := RawGaps(ps.afterValue) + RawEnd(ps), Spaces(ps.afterValue) + CleanEnd(ps);
      var r3, k3 := RawRender(ps.value) + r4, Render(Clean(ps.value)) + k4;
      var r2, k2 := RawGaps(ps.afterColon) + r3, Spaces(ps.afterColon) + k3;
      var r1, k1 := [':'] + r2, [':'] + k2;
      var r0, k0 := RawGaps(ps.beforeColon) + r1, Spaces(ps.beforeColon) + k1;
      var i0 := i + |key|;
      var i1 := i0 + |RawGaps(ps.beforeColon)|;
      var i2 := i1 + 1;
      var i3 := i2 + |RawGaps(ps.afterColon)|;
      var i4 := i3 + |RawRender(ps.value)|;
      HasAtSplit(t, i, key, r0);
      HasAtSplit(t, i0, RawGaps(ps.beforeColon), r1);
      HasAtSplit(t, i1, [':'], r2);
      HasAtSplit(t, i2, RawGaps(ps.afterColon), r3);
      HasAtSplit(t, i3, RawRender(ps.value), r4);
      HasAtSplit(t, i4, RawGaps(ps.afterValue), RawEnd(ps));
      PassEnd(t, i4 + |RawGaps(ps.afterValue)|, layer, ps);
      PassGaps(t, i4, layer + 1, ps.afterValue);
      PassBoth(t, i4, p, RawGaps(ps.afterValue), Spaces(ps.afterValue), p, RawEnd(ps), CleanEnd(ps),
        Place(layer, false));
      PassDoc(t, i3, layer + 1, ps.value);
      PassBoth(t, i3, p, RawRender(ps.value), Render(Clean(ps.value)), p, r4, k4, Place(layer, false));
      PassGaps(t, i2, layer + 1, ps.afterColon);
      PassBoth(t, i2, p, RawGaps(ps.afterColon), Spaces(ps.afterColon), p, r3, k3, Place(layer, false));
      PunctuationIsPlain();
      PassChar(t, i1, layer + 1, ':');
      PassBoth(t, i1, p, [':'], [':'], p, r2, k2, Place(layer, false));
      PassGaps(t, i0, layer + 1, ps.beforeColon);
      PassBoth(t, i0, p, RawGaps(ps.beforeColon), Spaces(ps.beforeColon), p, r1, k1, Place(layer, false));
      PassString(t, i, layer + 1, ps.key);
      PassBoth(t, i, p, key, name, p, r0, k0, Place(layer, false));
    }
  }

  lemma PunctuationIsPlain()
    ensures !Opener(':') && !Closer(':') && !Opener(',') && !Closer(',')
  {
  }

  /** What follows a value: the closing brace, or a comma and the other pairs. */
  lemma {:induction false} PassEnd(t: string, i: nat, layer: int, ps: RawPairs)
    requires ps.RawPair? && ValidRawPairs(ps) && HasAt(t, i, RawEnd(ps)) && layer >= 0
    ensures Passes(t, i, Place(layer + 1, false), RawEnd(ps), CleanEnd(ps), Place(layer, false))
    decreases ps, 1
  {
    hide *;
    RawPairParts(ps);
    var p, rest, clean := Place(layer + 1, false), RawRenderPairs(ps.rest), RenderPairs(CleanPairs(ps.rest));
    if ps.rest.NoRawPairs? {
      PassPairs(t, i, layer, ps.rest);
    } else {
      HasAtSplit(t, i, [','], RawGaps(ps.afterComma) + rest);
      HasAtSplit(t, i + 1, RawGaps(ps.afterComma), rest);
      PunctuationIsPlain();
      PassChar(t, i, layer + 1, ',');
      PassGaps(t, i + 1, layer + 1, ps.afterComma);
      PassPairs(t, i + 1 + |RawGaps(ps.afterComma)|, layer, ps.rest);
      PassBoth(t, i + 1, p, RawGaps(ps.afterComma), Spaces(ps.afterComma), p, rest, clean, Place(layer, false));
      PassBoth(t, i, p, [','], [','], p, RawGaps(ps.afterComma) + rest, Spaces(ps.afterComma) + clean,
               Place(layer, false));
    }
  }

  function RawTail(es: RawElements): string
    requires es.RawElement? && ValidRawElements(es)
  {
    if es.rest.NoRawElements? then RawRenderElements(es.rest)
    else "," + (RawGaps(es.afterComma) + RawRenderElements(es.rest))
  }

  function CleanTail(es: RawElements): string
    requires es.RawElement? && ValidRawElements(es)
  {
    if es.rest.NoRawElements? then RenderElements(CleanElements(es.rest))
    else "," + (Spaces(es.afterComma) + RenderElements(CleanElements(es.rest)))
  }

  lemma RawElementParts(es: RawElements)
    requires ValidRawElements(es)
    ensures es.NoRawElements? ==> RawRenderElements(es) == [']'] && RenderElements(CleanElements(es)) == [']']
    ensures es.RawElement? ==>
      && ValidRaw(es.value) && ValidGaps(es.afterValue) && ValidGaps(es.afterComma) && ValidRawElements(es.rest)
      && RawRenderElements(es) == RawRender(es.value) + (RawGaps(es.afterValue) + RawTail(es))
      && RenderElements(CleanElements(es)) == Render(Clean(es.value)) + (Spaces(es.afterValue) + CleanTail(es))
      && RawTail(es) == (if es.rest.NoRawElements? then RawRenderElements(es.rest)
           else [','] + (RawGaps(es.afterComma) + RawRenderElements(es.rest)))
      && CleanTail(es) == (if es.rest.NoRawElements? then RenderElements(CleanElements(es.rest))
           else [','] + (Spaces(es.afterComma) + RenderElements(CleanElements(es.rest))))
  {
    hide Render, RawRender, Clean;
  }

  lemma {:induction false} PassElements(t: string, i: nat, layer: int, es: RawElements)
    requires ValidRawElements(es) && HasAt(t, i, RawRenderElements(es)) && layer >= 0
    ensures Passes(t, i, Place(layer + 1, false), RawRenderElements(es), RenderElements(CleanElements(es)),
                   Place(layer, false))
    decreases es, 2
  {
    hide *;
    RawElementParts(es);
    OpenerClosers();
    if es.NoRawElements? {
      CloseMeans(t, i, layer, ']');
    } else {
      var p, i1 := Place(layer + 1, false), i + |RawRender(es.value)|;
      HasAtSplit(t, i, RawRender(es.value), RawGaps(es.afterValue) + RawTail(es));
      HasAtSplit(t, i1, RawGaps(es.afterValue), RawTail(es));
      PassDoc(t, i, layer + 1, es.value);
      PassGaps(t, i1, layer + 1, es.afterValue);
      PassTail(t, i1 + |RawGaps(es.afterValue)|, layer, es);
      PassBoth(t, i1, p, RawGaps(es.afterValue), Spaces(es.afterValue), p, RawTail(es), CleanTail(es),
               Place(layer, false));
      PassBoth(t, i, p, RawRender(es.value), Render(Clean(es.value)), p, RawGaps(es.afterValue) + RawTail(es),
               Spaces(es.afterValue) + CleanTail(es), Place(layer, false));
    }
  }

  lemma {:induction false} PassTail(t: string, i: nat, layer: int, es: RawElements)
    requires es.RawElement? && ValidRawElements(es) && HasAt(t, i, RawTail(es)) && layer >= 0
    ensures Passes(t, i, Place(layer + 1, false), RawTail(es), CleanTail(es), Place(layer, false))
    decreases es, 1
  {
    hide *;
    RawElementParts(es);
    var p, rest, clean := Place(layer + 1, false), RawRenderElements(es.rest), RenderElements(CleanElements(es.rest));
    if es.rest.NoRawElements? {
      PassElements(t, i, layer, es.rest);
    } else {
      HasAtSplit(t, i, [','], RawGaps(es.afterComma) + rest);
      HasAtSplit(t, i + 1, RawGaps(es.afterComma), rest);
      PunctuationIsPlain();
      PassChar(t, i, layer + 1, ',');
      PassGaps(t, i + 1, layer + 1, es.afterComma);
      PassElements(t, i + 1 + |RawGaps(es.afterComma)|, layer, es.rest);
      PassBoth(t, i + 1, p, RawGaps(es.afterComma), Spaces(es.afterComma), p, rest, clean, Place(layer, false));
      PassBoth(t, i, p, [','], [','], p, RawGaps(es.afterComma) + rest, Spaces(es.afterComma) + clean,
               Place(layer, false));
    }
  }

  // Both scans.

  /** What is located is valid JSON. */
  lemma {:induction false} CleanIsValid(d: RawDoc)
    requires ValidRaw(d)
    ensures Valid(Clean(d))
    decreases d
  {
    hide IsSpace, ValidBits, ValidGaps, WellFormed, StringBody;
    match d
    case RawText(text) => EscapedMeansRaw(text.bits);
    case RawNumber(_) =>
    case RawWord(_) =>
    case RawObject(pad, pairs) =>
      SpacesAreSpace(pad);
      CleanPairsAreValid(pairs);
    case RawArray(pad, elements) =>
      SpacesAreSpace(pad);
      CleanElementsAreValid(elements);
  }

  lemma {:induction false} SpacesAreSpace(pad: seq<Gap>)
    requires ValidGaps(pad)
    ensures AllSpace(Spaces(pad))
    decreases |pad|
  {
    if pad != [] { SpacesAreSpace(pad[1..]); }
  }

  lemma {:induction false} CleanPairsAreValid(ps: RawPairs)
    requires ValidRawPairs(ps)
    ensures ValidPairs(CleanPairs(ps))
    decreases ps
  {
    hide IsSpace, ValidBits, ValidGaps, WellFormed, StringBody, AllSpace, Valid, Clean;
    if ps.RawPair? {
      EscapedMeansRaw(ps.key.bits);
      SpacesAreSpace(ps.beforeColon);
      SpacesAreSpace(ps.afterColon);
      SpacesAreSpace(ps.afterValue);
      SpacesAreSpace(ps.afterComma);
      CleanIsValid(ps.value);
      CleanPairsAreValid(ps.rest);
    }
  }

  lemma {:induction false} CleanElementsAreValid(es: RawElements)
    requires ValidRawElements(es)
    ensures ValidElements(CleanElements(es))
    decreases es
  {
    hide IsSpace, ValidGaps, AllSpace, Valid, Clean;
    if es.RawElement? {
      SpacesAreSpace(es.afterValue);
      SpacesAreSpace(es.afterComma);
      CleanIsValid(es.value);
      CleanElementsAreValid(es.rest);
    }
  }

  /** No block starts in such text, and nothing in it hides a bracket. */
  predicate Quiet(before: string) { forall k :: 0 <= k < |before| ==> before[k] != '\\' && !Opener(before[k]) }

  lemma {:induction false} QuietSkipped(t: string, i: nat, j: nat)
    requires i <= j <= |t| && forall k :: i <= k < j ==> t[k] != '\\' && !Opener(t[k])
    ensures AllFrom(t, i) == AllFrom(t, j)
    decreases j - i
  {
    if i < j {
      AllFromTurn(t, i);
      QuietSkipped(t, i + 1, j);
    }
  }

  /**
    On any text that holds such a document behind text without brackets and backslashes, the scan for all blocks
    returns first the document with its line breaks and tabs escaped in strings and everything dropped that does
    not belong outside them, and goes on right behind it. So does the direct scan when only spaces stand before.
   */
  lemma RawIsLocated(before: string, d: RawDoc, after: string)
    requires ValidRaw(d) && (d.RawObject? || d.RawArray?) && Quiet(before)
    ensures var t := before + (RawRender(d) + after);
      && AllBlocks(t) == [Render(Clean(d))] + AllFrom(t, |before| + |RawRender(d)|)
      && (AllSpace(before) ==> DirectRoot(t) == Some(Render(Clean(d))))
    ensures Valid(Clean(d))
  {
    hide *;
    var t, b := before + (RawRender(d) + after), |before|;
    CleanIsValid(d);
    WholeAt(t);
    HasAtSplit(t, 0, before, RawRender(d) + after);
    HasAtSplit(t, b, RawRender(d), after);
    QuietAt(t, before, RawRender(d) + after);
    QuietSkipped(t, 0, b);
    RootFound(t, b, d);
    AllFromTurn(t, b);
    AllBlocksMeans(t);
    if AllSpace(before) {
      BehindSpaces(t, before);
      DirectRootMeans(t);
    }
  }

  lemma WholeAt(t: string)
    ensures HasAt(t, 0, t)
  {
  }

  lemma QuietAt(t: string, before: string, rest: string)
    requires Quiet(before) && t == before + rest
    ensures |before| <= |t| && forall k :: 0 <= k < |before| ==> t[k] != '\\' && !Opener(t[k])
  {
  }

  lemma BehindSpaces(t: string, before: string)
    requires HasAt(t, 0, before) && AllSpace(before) && |before| < |t| && Opener(t[|before|])
    ensures SkipSpace(t, 0) == |before|
  {
    SkipPadding(t, 0, before);
  }

  lemma RootFound(t: string, i: nat, d: RawDoc)
    requires ValidRaw(d) && HasAt(t, i, RawRender(d)) && (d.RawObject? || d.RawArray?)
    ensures i < |t| && Opener(t[i]) && t[i] != '\\' && i + |RawRender(d)| <= |t|
    ensures var block := Some(Block(Render(Clean(d)), i + |RawRender(d)|));
      FindBlock(t, i, 0, false, "") == block && FindBlock(t, i + 1, 1, false, [t[i]]) == block
  {
    hide FindBlock, HasAt, Clean, Render, RawRender;
    PassContainer(t, i, 0, d);
    HasAtFits(t, i, RawRender(d));
    RootStarts(t, i, d);
    OpeningTurn(t, i);
    assert "" + Render(Clean(d)) == Render(Clean(d));
  }

  lemma RootStarts(t: string, i: nat, d: RawDoc)
    requires ValidRaw(d) && HasAt(t, i, RawRender(d)) && (d.RawObject? || d.RawArray?)
    ensures i < |t| && Opener(t[i])
  {
    hide HasAt;
    RawParts(d);
    if d.RawObject? {
      HasAtSplit(t, i, ['{'], RawGaps(d.pad) + RawRenderPairs(d.pairs));
      HasAtChar(t, i, '{');
    } else {
      HasAtSplit(t, i, ['['], RawGaps(d.pad) + RawRenderElements(d.elements));
      HasAtChar(t, i, '[');
    }
  }

  // Replies with several blocks.

  /** A document and the text in front of it. */
  datatype Part = Part(before: string, doc: RawDoc)

  predicate ValidParts(parts: seq<Part>) {
    forall k :: 0 <= k < |parts| ==>
      Quiet(parts[k].before) && ValidRaw(parts[k].doc) && (parts[k].doc.RawObject? || parts[k].doc.RawArray?)
  }

  function ReplyText(parts: seq<Part>, rest: string): string
    requires ValidParts(parts)
  {
    if parts == [] then rest else parts[0].before + (RawRender(parts[0].doc) + ReplyText(parts[1..], rest))
  }

  lemma ReplyParts(parts: seq<Part>, rest: string)
    requires ValidParts(parts)
    ensures parts == [] ==> ReplyText(parts, rest) == rest
    ensures parts != [] ==>
      && ReplyText(parts, rest) == parts[0].before + (RawRender(parts[0].doc) + ReplyText(parts[1..], rest))
      && Quiet(parts[0].before) && ValidRaw(parts[0].doc) && (parts[0].doc.RawObject? || parts[0].doc.RawArray?)
      && ValidParts(parts[1..])
  {
  }

  lemma {:induction false} AllFromParts(t: string, i: nat, parts: seq<Part>, rest: string)
    requires ValidParts(parts) && Quiet(rest) && i <= |t| && t[i..] == ReplyText(parts, rest)
    ensures |AllFrom(t, i)| == |parts|
    ensures forall k :: 0 <= k < |parts| ==> AllFrom(t, i)[k] == Render(Clean(parts[k].doc))
    decreases |parts|
  {
    hide *;
    ReplyParts(parts, rest);
    if parts == [] {
      QuietFrom(t, i, rest, "");
      QuietSkipped(t, i, |t|);
      AllFromTurn(t, |t|);
    } else {
      var raw, more := RawRender(parts[0].doc), ReplyText(parts[1..], rest);
      var b := i + |parts[0].before|;
      QuietFrom(t, i, parts[0].before, raw + more);
      QuietSkipped(t, i, b);
      TailHas(t, b, raw, more);
      RootFound(t, b, parts[0].doc);
      AllFromTurn(t, b);
      AllFromParts(t, b + |raw|, parts[1..], rest);
    }
  }

  lemma QuietFrom(t: string, i: nat, before: string, more: string)
    requires Quiet(before) && i <= |t| && (t[i..] == before + more || (t[i..] == before && more == ""))
    ensures i + |before| <= |t| && t[i + |before|..] == more
    ensures forall k :: i <= k < i + |before| ==> t[k] != '\\' && !Opener(t[k])
  {
    assert forall k :: i <= k < |t| ==> t[k] == t[i..][k - i];
  }

  lemma TailHas(t: string, i: nat, raw: string, more: string)
    requires i <= |t| && t[i..] == raw + more
    ensures HasAt(t, i, raw) && i + |raw| <= |t| && t[i + |raw|..] == more
  {
    assert t[i..i + |raw|] == t[i..][..|raw|] == raw;
  }

  /**
    A reply with any number of such documents, each behind text without brackets and backslashes: the scan for
    all blocks returns all of them, in order, and nothing else.
   */
  lemma AllPartsAreLocated(parts: seq<Part>, rest: string)
    requires ValidParts(parts) && Quiet(rest)
    ensures var blocks := AllBlocks(ReplyText(parts, rest));
      |blocks| == |parts| && forall k :: 0 <= k < |parts| ==> blocks[k] == Render(Clean(parts[k].doc))
  {
    hide *;
    var t := ReplyText(parts, rest);
    assert t[0..] == t;
    AllFromParts(t, 0, parts, rest);
    AllBlocksMeans(t);
  }

  /**
    What is located as the output of such a reply: nothing without a document; a document that only spaces
    precede, or that is alone; and otherwise what is chosen from all of them.
   */
  lemma OutputIs(parts: seq<Part>, rest: string, choose: seq<string> -> string)
    requires ValidParts(parts) && Quiet(rest)
    ensures var t := ReplyText(parts, rest);
      LocateOutput(t, choose) ==
        if parts == [] then None
        else if |parts| == 1 || AllSpace(parts[0].before) then Some(Render(Clean(parts[0].doc)))
        else Some(choose(AllBlocks(t)))
  {
    hide *;
    var t := ReplyText(parts, rest);
    AllPartsAreLocated(parts, rest);
    ReplyParts(parts, rest);
    LocateOutputMeans(t, choose);
    if parts == [] {
      NoDirectRoot(t, rest, "");
    } else {
      var more := RawRender(parts[0].doc) + ReplyText(parts[1..], rest);
      RawIsLocated(parts[0].before, parts[0].doc, ReplyText(parts[1..], rest));
      if !AllSpace(parts[0].before) { NoDirectRoot(t, parts[0].before, more); }
    }
  }

  lemma LocateOutputMeans(t: string, choose: seq<string> -> string)
    ensures LocateOutput(t, choose) ==
      if DirectRoot(t).Some? then DirectRoot(t)
      else if AllBlocks(t) == [] then None
      else if |AllBlocks(t)| == 1 then Some(AllBlocks(t)[0])
      else Some(choose(AllBlocks(t)))
  {
    hide DirectRoot, AllBlocks;
  }

  /** The direct scan finds nothing behind text without brackets. */
  lemma NoDirectRoot(t: string, before: string, more: string)
    requires Quiet(before) && t == before + more && (more == "" || !AllSpace(before))
    ensures DirectRoot(t) == None
  {
    var start := SkipSpace(t, 0);
    DirectRootMeans(t);
    if |before| <= start {
      assert forall k :: 0 <= k < |before| ==> before[k] == t[k];
    } else {
      assert t[start] == before[start];
    }
    hide FindBlock;
  }
}
