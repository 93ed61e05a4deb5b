/**
  The evidence path against rendered documents: on every prefix of a rendering it reports a prefix of the
  document's subvalues in post-order, and on the whole rendering all of them; and on any text at all, each
  value it reports is rendered in full somewhere in that text.
 */
module ObservedDocs {
  import opened Chars
  import opened Tokens
  import opened Documents
  import opened Json
  import opened Observed
  import opened StringBodies

  // What a document means.

  function ValueIn(d: Doc): Value {
    match d
    case TextDoc(body) => Str(Content(body))
    case NumberDoc(lexeme) => Num(lexeme)
    case WordDoc(lexeme) => Word(lexeme)
    case ObjectDoc(_, pairs) => Obj(PutAll([], pairs))
    case ArrayDoc(_, elements) => Arr(ItemsIn(elements))
  }

  function PutAll(members: seq<Member>, ps: Pairs): seq<Member>
    decreases ps
  {
    match ps
    case NoPairs => members
    case Pair(key, _, _, value, _, _, rest) => PutAll(Put(members, Content(key), ValueIn(value)), rest)
  }

  function ItemsIn(es: Elements): seq<Value> {
    match es
    case NoElements => []
    case Element(value, _, _, rest) => [ValueIn(value)] + ItemsIn(rest)
  }

  /** The subvalues of a document with their dot paths, children before parents, without the root. */
  function PostOrder(d: Doc, keys: seq<Key>): seq<Observation>
    decreases d
  {
    match d
    case TextDoc(_) => Report(keys, ValueIn(d))
    case NumberDoc(_) => Report(keys, ValueIn(d))
    case WordDoc(_) => Report(keys, ValueIn(d))
    case ObjectDoc(_, pairs) => PairsPostOrder(pairs, keys) + Report(keys, ValueIn(d))
    case ArrayDoc(_, elements) => ElementsPostOrder(elements, keys, 0) + Report(keys, ValueIn(d))
  }

  function PairsPostOrder(ps: Pairs, keys: seq<Key>): seq<Observation>
    decreases ps
  {
    match ps
    case NoPairs => []
    case Pair(key, _, _, value, _, _, rest) =>
      PostOrder(value, keys + [Name(Content(key))]) + PairsPostOrder(rest, keys)
  }

  function ElementsPostOrder(es: Elements, keys: seq<Key>, index: nat): seq<Observation>
    decreases es
  {
    match es
    case NoElements => []
    case Element(value, _, _, rest) =>
      PostOrder(value, keys + [Index(index)]) + ElementsPostOrder(rest, keys, index + 1)
  }

  predicate Scalar(d: Doc) { d.TextDoc? || d.NumberDoc? || d.WordDoc? }

  // Tokens in a prefix of the text.

  lemma SkipInPrefix(u: string, t: string, i: nat)
    requires u <= t && i <= |u|
    ensures SkipSpace(u, i) == if SkipSpace(t, i) <= |u| then SkipSpace(t, i) else |u|
  {
    var j := if SkipSpace(t, i) <= |u| then SkipSpace(t, i) else |u|;
    assert u[i..j] == t[i..SkipSpace(t, i)][..j - i];
    SkipSpaceUnique(u, i, j);
  }

  lemma {:induction false} StringInPrefix(u: string, t: string, i: nat)
    requires u <= t && i <= |u| && StringEnd(t, i).Some?
    ensures StringEnd(u, i) == if StringEnd(t, i).value <= |u| then StringEnd(t, i) else None
    decreases |u| - i
  {
    if i < |u| && t[i] != '\"' {
      var step := if t[i] != '\\' then 1 else if SimpleEscape(t[i + 1]) then 2 else 6;
      assert StringEnd(t, i) == StringEnd(t, i + step);
      if i + step <= |u| {
        StringInPrefix(u, t, i + step);
      }
    }
  }

  // Numbers.

  predicate NumberChar(c: char) { Digit(c) || c == '.' || c == 'e' || c == 'E' || c == '+' || c == '-' }

  lemma {:induction false} DigitsAt(lexeme: string, k: nat, u: string, i: nat)
    requires k <= |lexeme| && HasAt(u, i, lexeme)
    requires i + |lexeme| < |u| ==> !NumberChar(u[i + |lexeme|])
    ensures SkipDigits(u, i + k) == i + SkipDigits(lexeme, k)
    decreases |lexeme| - k
  {
    if k < |lexeme| {
      assert u[i + k] == u[i..i + |lexeme|][k];
      if Digit(lexeme[k]) { DigitsAt(lexeme, k + 1, u, i); }
    }
  }

  /** The longest number is the whole lexeme when what follows cannot continue a number. */
  lemma NumberAt(lexeme: string, u: string, i: nat)
    requires HasAt(u, i, lexeme) && NumberEnd(lexeme, 0) == Some(|lexeme|)
    requires i + |lexeme| < |u| ==> !NumberChar(u[i + |lexeme|])
    ensures NumberEnd(u, i) == Some(i + |lexeme|)
  {
    forall k | 0 <= k < |lexeme| ensures u[i + k] == lexeme[k] { assert u[i..i + |lexeme|][k] == u[i + k]; }
    forall k | 0 <= k <= |lexeme| ensures SkipDigits(u, i + k) == i + SkipDigits(lexeme, k) {
      DigitsAt(lexeme, k, u, i);
    }
    var j := IntegerEnd(lexeme, 0).value;
    IntegerAt(lexeme, u, i);
    FractionAt(lexeme, j, u, i);
    ExponentAt(lexeme, FractionEnd(lexeme, j), u, i);
  }

  ghost predicate SameAt(lexeme: string, u: string, i: nat) {
    && i + |lexeme| <= |u|
    && (forall k :: 0 <= k < |lexeme| ==> u[i + k] == lexeme[k])
    && (forall k :: 0 <= k <= |lexeme| ==> SkipDigits(u, i + k) == i + SkipDigits(lexeme, k))
    && (i + |lexeme| < |u| ==> !NumberChar(u[i + |lexeme|]))
  }

  lemma IntegerAt(lexeme: string, u: string, i: nat)
    requires SameAt(lexeme, u, i) && IntegerEnd(lexeme, 0).Some?
    ensures IntegerEnd(u, i) == Some(i + IntegerEnd(lexeme, 0).value)
  {
    assert u[i + 0] == lexeme[0];
    var j := if lexeme[0] == '-' then 1 else 0;
    assert u[i + j] == lexeme[j];
    assert SkipDigits(u, i + (j + 1)) == i + SkipDigits(lexeme, j + 1);
  }

  lemma FractionAt(lexeme: string, k: nat, u: string, i: nat)
    requires SameAt(lexeme, u, i) && k <= |lexeme|
    ensures FractionEnd(u, i + k) == i + FractionEnd(lexeme, k)
  {
    if k < |lexeme| { assert u[i + k] == lexeme[k]; }
    if k + 1 < |lexeme| { assert u[i + (k + 1)] == lexeme[k + 1]; }
    if k + 1 <= |lexeme| { assert SkipDigits(u, i + (k + 1)) == i + SkipDigits(lexeme, k + 1); }
  }

  lemma ExponentAt(lexeme: string, k: nat, u: string, i: nat)
    requires SameAt(lexeme, u, i) && k <= |lexeme|
    requires ExponentEnd(lexeme, k) == |lexeme|
    ensures ExponentEnd(u, i + k) == i + ExponentEnd(lexeme, k)
  {
    if k < |lexeme| {
      assert u[i + k] == lexeme[k];
      var m := if k + 1 < |lexeme| && (lexeme[k + 1] == '+' || lexeme[k + 1] == '-') then k + 2 else k + 1;
      assert u[i + (k + 1)] == lexeme[k + 1];
      assert u[i + m] == lexeme[m];
      assert SkipDigits(u, i + m) == i + SkipDigits(lexeme, m);
    }
  }

  // Scalars.

  /** How the outcome of parsing a prefix relates to the full value and its full list of reports. */
  ghost predicate Grows(r: Parsed, end: nat, value: Value, full: seq<Observation>) {
    if r.ok then r == Parsed(value, end, true, full) else r.seen <= full
  }

  /** After a value comes a delimiter, possibly after spaces. */
  predicate Delimited(t: string, i: nat) {
    i <= |t| && SkipSpace(t, i) < |t| && Delimiter(t[SkipSpace(t, i)])
  }

  /** The first character of a token decides its kind. */
  lemma TokenKinds(t: string, i: nat)
    requires i < |t| && ScalarAt(t, i).Some?
    ensures Digit(t[i]) || t[i] == '-' || t[i] == 'N' || t[i] == 'I' ==> ScalarAt(t, i).value.NumberToken?
  {
    if t[i] != '\"' {
      match WordAt(t, i, PLAIN_WORDS)
      case Some(w) => assert t[i..i + |w|][0] == w[0];
      case None =>
    }
  }

  /** A number that is cut, or that ends at the end of the text, is not reported. */
  lemma CutNumberFails(lexeme: string, t: string, u: string, i: nat, keys: seq<Key>)
    requires NumberLexeme(lexeme) && HasAt(t, i, lexeme) && u <= t && i < |u| <= i + |lexeme|
    ensures !ParseScalar(u, i, keys).ok && ParseScalar(u, i, keys).seen == []
  {
    LexemesAreLexemes(lexeme);
    FirstOfNumber(lexeme);
    forall k | i <= k < |u| ensures LexemeChar(u[k]) { HasAtIndex(t, i, lexeme, k - i); }
    HasAtIndex(t, i, lexeme, 0);
    match ScalarAt(u, i)
    case None =>
    case Some(token) =>
      TokenKinds(u, i);
      if token.end < |u| { SkipSpaceUnique(u, token.end, token.end); }
  }

  lemma FirstOfNumber(lexeme: string)
    requires NumberLexeme(lexeme)
    ensures lexeme != "" && (Digit(lexeme[0]) || lexeme[0] == '-' || lexeme[0] == 'N' || lexeme[0] == 'I')
  {
    if lexeme !in NUMBER_WORDS {
      assert IntegerEnd(lexeme, 0).Some?;
    }
  }

  lemma NumberTokenAt(lexeme: string, u: string, i: nat)
    requires NumberLexeme(lexeme) && HasAt(u, i, lexeme)
    requires i + |lexeme| < |u| && !NumberChar(u[i + |lexeme|])
    ensures ScalarAt(u, i) == Some(NumberToken(lexeme, i + |lexeme|))
  {
    FirstOfNumber(lexeme);
    HasAtIndex(u, i, lexeme, 0);
    NoPlainWord(u, i);
    if lexeme in NUMBER_WORDS {
      NumberWordTokenAt(lexeme, u, i);
    } else {
      NumberAt(lexeme, u, i);
    }
  }

  lemma NoPlainWord(u: string, i: nat)
    requires i < |u| && u[i] != 'n' && u[i] != 't' && u[i] != 'f'
    ensures WordAt(u, i, PLAIN_WORDS) == None
  {
    match WordAt(u, i, PLAIN_WORDS)
    case Some(w) => HasAtIndex(u, i, w, 0);
    case None =>
  }

  lemma NumberWordTokenAt(lexeme: string, u: string, i: nat)
    requires lexeme in NUMBER_WORDS && HasAt(u, i, lexeme)
    ensures NumberEnd(u, i) == None && WordAt(u, i, NUMBER_WORDS) == Some(lexeme)
  {
    HasAtIndex(u, i, lexeme, 0);
    HasAtIndex(u, i, lexeme, 1);
    match WordAt(u, i, NUMBER_WORDS)
    case Some(w) => HasAtIndex(u, i, w, 0);
    case None => WordFound(u, i, NUMBER_WORDS, lexeme);
  }

  lemma {:induction false} WordFound(u: string, i: nat, words: seq<string>, w: string)
    requires w in words && HasAt(u, i, w)
    ensures WordAt(u, i, words).Some?
  {
    if words[0] != w { WordFound(u, i, words[1..], w); }
  }

  lemma PlainWordTokenAt(lexeme: string, u: string, i: nat)
    requires lexeme in PLAIN_WORDS && HasAt(u, i, lexeme)
    ensures i < |u| && ScalarAt(u, i) == Some(WordToken(lexeme, i + |lexeme|))
  {
    HasAtIndex(u, i, lexeme, 0);
    WordFound(u, i, PLAIN_WORDS, lexeme);
    var w := WordAt(u, i, PLAIN_WORDS).value;
    HasAtIndex(u, i, w, 0);
  }

  /** A cut word is no token. */
  lemma CutWordFails(lexeme: string, t: string, u: string, i: nat)
    requires lexeme in PLAIN_WORDS && HasAt(t, i, lexeme) && u <= t && i < |u| < i + |lexeme|
    ensures ScalarAt(u, i) == None
  {
    HasAtIndex(t, i, lexeme, 0);
    assert u[i] == lexeme[0];
    match WordAt(u, i, PLAIN_WORDS)
    case Some(w) => HasAtIndex(u, i, w, 0);
    case None =>
    match WordAt(u, i, NUMBER_WORDS)
    case Some(w) => HasAtIndex(u, i, w, 0);
    case None =>
  }

  lemma DelimitedNumber(t: string, i: nat)
    requires Delimited(t, i)
    ensures i < |t| && !NumberChar(t[i])
  {
    if SkipSpace(t, i) > i { assert t[i..SkipSpace(t, i)][0] == t[i]; }
  }

  /** A token followed by a delimiter in `t`, read in the prefix `u`. */
  lemma ScalarInPrefix(token: Token, t: string, u: string, i: nat, keys: seq<Key>)
    requires u <= t && i < |u| && token.end <= |u| && ScalarAt(u, i) == Some(token) && Delimited(t, token.end)
    requires token.NumberToken? ==> token.end < |u|
    ensures var r := ParseScalar(u, i, keys);
            && Grows(r, token.end, TokenValue(token), Report(keys, TokenValue(token)))
            && (|u| > SkipSpace(t, token.end) ==> r.ok)
  {
    hide ScalarAt, TokenValue, Report;
    SkipInPrefix(u, t, token.end);
  }

  lemma {:induction false} NumberOn(d: Doc, t: string, u: string, i: nat, keys: seq<Key>)
    requires d.NumberDoc? && Valid(d) && HasAt(t, i, Render(d)) && u <= t && i < |u| && Delimited(t, i + |Render(d)|)
    ensures var r := ParseScalar(u, i, keys);
            && Grows(r, i + |Render(d)|, ValueIn(d), PostOrder(d, keys))
            && (r.ok ==> i + |Render(d)| <= |u|) && (|u| > SkipSpace(t, i + |Render(d)|) ==> r.ok)
  {
    hide ScalarAt, NumberLexeme, Delimited, Report, SkipSpace, ParseScalar, HasAt;
    var e := i + |d.lexeme|;
    if |u| <= e {
      CutNumberFails(d.lexeme, t, u, i, keys);
    } else {
      HasAtPrefix(t, u, i, d.lexeme);
      DelimitedNumber(t, e);
      NumberTokenAt(d.lexeme, u, i);
      ScalarInPrefix(NumberToken(d.lexeme, e), t, u, i, keys);
    }
  }

  lemma {:induction false} WordOn(d: Doc, t: string, u: string, i: nat, keys: seq<Key>)
    requires d.WordDoc? && Valid(d) && HasAt(t, i, Render(d)) && u <= t && i < |u| && Delimited(t, i + |Render(d)|)
    ensures var r := ParseScalar(u, i, keys);
            && Grows(r, i + |Render(d)|, ValueIn(d), PostOrder(d, keys))
            && (r.ok ==> i + |Render(d)| <= |u|) && (|u| > SkipSpace(t, i + |Render(d)|) ==> r.ok)
  {
    hide Delimited, Report, SkipSpace, HasAt, ScalarAt;
    var e := i + |d.lexeme|;
    if |u| < e {
      CutWordFails(d.lexeme, t, u, i);
    } else {
      HasAtPrefix(t, u, i, d.lexeme);
      PlainWordTokenAt(d.lexeme, u, i);
      ScalarInPrefix(WordToken(d.lexeme, e), t, u, i, keys);
    }
  }

  /** A quoted body in a prefix of the text: read in full or not at all. */
  lemma QuoteInPrefix(body: string, t: string, u: string, i: nat)
    requires HasAt(t, i, Quote(body)) && StringBody(body) && u <= t && i < |u|
    ensures u[i] == '\"'
    ensures var e := i + |Quote(body)|;
            if e <= |u| then StringEnd(u, i + 1) == Some(e) && u[i + 1..e - 1] == body else StringEnd(u, i + 1) == None
  {
    hide HasAt, StringBody, StringEnd;
    QuoteLayout(t, i, body);
    StringInPrefix(u, t, i + 1);
    if i + |body| + 2 <= |u| {
      HasAtPrefix(t, u, i + 1, body);
      HasAtSlice(u, i + 1, body);
    }
  }

  lemma {:induction false} TextOn(d: Doc, t: string, u: string, i: nat, keys: seq<Key>)
    requires d.TextDoc? && Valid(d) && HasAt(t, i, Render(d)) && u <= t && i < |u| && Delimited(t, i + |Render(d)|)
    ensures var r := ParseScalar(u, i, keys);
            && Grows(r, i + |Render(d)|, ValueIn(d), PostOrder(d, keys))
            && (r.ok ==> i + |Render(d)| <= |u|) && (|u| > SkipSpace(t, i + |Render(d)|) ==> r.ok)
  {
    hide *;
    TextParts(d, keys);
    TextRead(d.body, t, u, i);
    var e := i + |Quote(d.body)|;
    if e <= |u| {
      ScalarInPrefix(StringToken(d.body, e), t, u, i, keys);
    } else {
      NoToken(t, u, i, keys, e);
      GrowsFromNothing(ParseScalar(u, i, keys), e, ValueIn(d), PostOrder(d, keys));
    }
  }

  lemma NoToken(t: string, u: string, i: nat, keys: seq<Key>, e: nat)
    requires i < |u| < e && ScalarAt(u, i) == None && Delimited(t, e)
    ensures var r := ParseScalar(u, i, keys); !r.ok && r.seen == [] && |u| <= SkipSpace(t, e)
  {
    hide ScalarAt, SkipSpace;
  }

  lemma TextParts(d: Doc, keys: seq<Key>)
    requires d.TextDoc? && Valid(d)
    ensures Render(d) == Quote(d.body) && StringBody(d.body)
    ensures ValueIn(d) == Str(Content(d.body)) && PostOrder(d, keys) == Report(keys, ValueIn(d))
    ensures forall e :: TokenValue(StringToken(d.body, e)) == ValueIn(d)
  {
    hide Report, Content, Unescape, StringBody, Quote;
    ContentIsDecoded(d.body);
  }

  lemma TextRead(body: string, t: string, u: string, i: nat)
    requires HasAt(t, i, Quote(body)) && StringBody(body) && u <= t && i < |u|
    ensures var e := i + |Quote(body)|;
      ScalarAt(u, i) == if e <= |u| then Some(StringToken(body, e)) else None
  {
    hide HasAt, StringBody, StringEnd, Quote;
    QuoteInPrefix(body, t, u, i);
  }

  // Containers, by induction over the document.

  /** How much of the text after a document must be there before it counts as complete. */
  predicate Settled(d: Doc, t: string, end: nat, n: nat)
    requires end <= |t|
  {
    if Scalar(d) then n > SkipSpace(t, end) else n >= end
  }

  /** What parsing the prefix `u` from the start of the document `d`, rendered in `t` at `i`, gives. */
  ghost predicate ReadsDoc(d: Doc, t: string, u: string, i: nat, keys: seq<Key>)
    requires i <= |u| && i + |Render(d)| <= |t|
  {
    var r, end := ParseValue(u, i, keys), i + |Render(d)|;
    Grows(r, end, ValueIn(d), PostOrder(d, keys)) && (r.ok ==> end <= |u|) && (Settled(d, t, end, |u|) ==> r.ok)
  }

  ghost predicate ReadsPairs(ps: Pairs, u: string, i: nat, keys: seq<Key>, members: seq<Member>)
    requires i <= |u|
  {
    var r, end, value := ParseMembers(u, i, keys, members), i + |RenderPairs(ps)|, Obj(PutAll(members, ps));
    Grows(r, end, value, PairsPostOrder(ps, keys) + Report(keys, value)) && (r.ok <==> end <= |u|)
  }

  ghost predicate ReadsElements(es: Elements, u: string, i: nat, keys: seq<Key>, items: seq<Value>)
    requires i <= |u|
  {
    var r, end, value := ParseItems(u, i, keys, items), i + |RenderElements(es)|, Arr(items + ItemsIn(es));
    Grows(r, end, value, ElementsPostOrder(es, keys, |items|) + Report(keys, value)) && (r.ok <==> end <= |u|)
  }

  lemma FirstVisible(d: Doc, t: string, i: nat)
    requires HasAt(t, i, Render(d)) && Valid(d)
    ensures i < |t| && SkipSpace(t, i) == i
    ensures Scalar(d) ==> t[i] != '{' && t[i] != '['
    ensures d.ObjectDoc? ==> t[i] == '{'
    ensures d.ArrayDoc? ==> t[i] == '['
  {
    if d.NumberDoc? || d.WordDoc? { LexemesAreLexemes(d.lexeme); }
    HasAtIndex(t, i, Render(d), 0);
    SkipSpaceUnique(t, i, i);
  }

  lemma ReadsScalar(d: Doc, t: string, u: string, i: nat, keys: seq<Key>)
    requires Scalar(d) && HasAt(t, i, Render(d)) && Valid(d) && u <= t && i < |u| && Delimited(t, i + |Render(d)|)
    ensures i + |Render(d)| <= |t| && ReadsDoc(d, t, u, i, keys)
  {
    hide Render, ValueIn, PostOrder, Valid, Delimited, ParseScalar, HasAt;
    HasAtFits(t, i, Render(d));
    FirstVisible(d, t, i);
    SkipInPrefix(u, t, i);
    assert ParseValue(u, i, keys) == ParseScalar(u, i, keys);
    match d
    case TextDoc(_) => TextOn(d, t, u, i, keys);
    case NumberDoc(_) => NumberOn(d, t, u, i, keys);
    case WordDoc(_) => WordOn(d, t, u, i, keys);
  }

  /** Nothing is read from the end of the text. */
  lemma NothingLeft(u: string, i: nat, keys: seq<Key>)
    requires i <= |u| && SkipSpace(u, i) == |u|
    ensures !ParseValue(u, i, keys).ok && ParseValue(u, i, keys).seen == []
  {
  }

  /** Leading spaces do not matter. */
  lemma ParseSkips(u: string, i: nat, j: nat, keys: seq<Key>)
    requires i <= |u| && j <= |u| && SkipSpace(u, i) == SkipSpace(u, j)
    ensures ParseValue(u, i, keys) == ParseValue(u, j, keys)
  {
    hide SkipSpace, ParseMembers, ParseItems, ParseScalar, Report;
  }

  /** Padding in a prefix: what follows it is reached, or the prefix ends first. */
  lemma PaddingInPrefix(u: string, t: string, i: nat, pad: string)
    requires u <= t && i <= |u| && HasAt(t, i, pad) && AllSpace(pad)
    requires i + |pad| < |t| && !IsSpace(t[i + |pad|])
    ensures SkipSpace(t, i) == i + |pad|
    ensures SkipSpace(u, i) == if i + |pad| <= |u| then i + |pad| else |u|
  {
    SkipPadding(t, i, pad);
    SkipSpaceUnique(t, i + |pad|, i + |pad|);
    SkipInPrefix(u, t, i);
  }

  lemma ObjectParts(d: Doc, keys: seq<Key>)
    requires d.ObjectDoc? && Valid(d)
    ensures Render(d) == "{" + (d.pad + RenderPairs(d.pairs)) && ValueIn(d) == Obj(PutAll([], d.pairs))
    ensures PostOrder(d, keys) == PairsPostOrder(d.pairs, keys) + Report(keys, ValueIn(d))
    ensures AllSpace(d.pad) && ValidPairs(d.pairs) && !Scalar(d)
    ensures d.pairs.NoPairs? ==>
      RenderPairs(d.pairs) == "}" && PairsPostOrder(d.pairs, keys) == [] && ValueIn(d) == Obj([])
  {
  }

  lemma ArrayParts(d: Doc, keys: seq<Key>)
    requires d.ArrayDoc? && Valid(d)
    ensures Render(d) == "[" + (d.pad + RenderElements(d.elements)) && ValueIn(d) == Arr(ItemsIn(d.elements))
    ensures PostOrder(d, keys) == ElementsPostOrder(d.elements, keys, 0) + Report(keys, ValueIn(d))
    ensures AllSpace(d.pad) && ValidElements(d.elements) && !Scalar(d)
    ensures d.elements.NoElements? ==>
      RenderElements(d.elements) == "]" && ElementsPostOrder(d.elements, keys, 0) == [] && ValueIn(d) == Arr([])
  {
  }

  /** The first branches of the descent, for a text whose first visible character is a bracket. */
  lemma ObjectTurn(u: string, i: nat, keys: seq<Key>, cursor: nat)
    requires i < |u| && u[i] == '{' && SkipSpace(u, i) == i && cursor == SkipSpace(u, i + 1)
    ensures cursor < |u| && u[cursor] == '}' ==>
      ParseValue(u, i, keys) == Parsed(Obj([]), cursor + 1, true, Report(keys, Obj([])))
    ensures cursor == |u| || u[cursor] != '}' ==> ParseValue(u, i, keys) == ParseMembers(u, cursor, keys, [])
  {
    hide SkipSpace, Report;
  }

  lemma ArrayTurn(u: string, i: nat, keys: seq<Key>, cursor: nat)
    requires i < |u| && u[i] == '[' && SkipSpace(u, i) == i && cursor == SkipSpace(u, i + 1)
    ensures cursor < |u| && u[cursor] == ']' ==>
      ParseValue(u, i, keys) == Parsed(Arr([]), cursor + 1, true, Report(keys, Arr([])))
    ensures cursor == |u| || u[cursor] != ']' ==> ParseValue(u, i, keys) == ParseItems(u, cursor, keys, [])
  {
    hide SkipSpace, Report;
  }

  lemma SettledMeans(d: Doc, t: string, end: nat, n: nat)
    requires end <= |t|
    ensures Settled(d, t, end, n) ==> n >= end
    ensures !Scalar(d) ==> (Settled(d, t, end, n) <==> n >= end)
    ensures Scalar(d) ==> (Settled(d, t, end, n) <==> n > SkipSpace(t, end))
  {
  }

  /** Assembles the statement about a document from the facts about its outcome. */
  lemma ReadsDocBy(d: Doc, t: string, u: string, i: nat, keys: seq<Key>, r: Parsed)
    requires i <= |u| && i + |Render(d)| <= |t| && r == ParseValue(u, i, keys) && !Scalar(d)
    requires Grows(r, i + |Render(d)|, ValueIn(d), PostOrder(d, keys)) && (r.ok <==> i + |Render(d)| <= |u|)
    ensures ReadsDoc(d, t, u, i, keys)
  {
    hide Render, ParseValue, ValueIn, PostOrder;
  }

  lemma {:induction false} DocRead(d: Doc, t: string, u: string, i: nat, keys: seq<Key>)
    requires HasAt(t, i, Render(d)) && Valid(d) && u <= t && i < |u|
    requires Scalar(d) ==> Delimited(t, i + |Render(d)|)
    ensures i + |Render(d)| <= |t| && ReadsDoc(d, t, u, i, keys)
    decreases d
  {
    hide *;
    HasAtFits(t, i, Render(d));
    FirstVisible(d, t, i);
    SkipInPrefix(u, t, i);
    if d.ObjectDoc? {
      ObjectParts(d, keys);
      ObjectRead(d, t, u, i, keys);
    } else if d.ArrayDoc? {
      ArrayParts(d, keys);
      ArrayRead(d, t, u, i, keys);
    } else {
      ScalarMeans(d);
      ReadsScalar(d, t, u, i, keys);
    }
  }

  lemma ScalarMeans(d: Doc)
    ensures Scalar(d) <==> !d.ObjectDoc? && !d.ArrayDoc?
  {
  }

  lemma {:induction false} ObjectRead(d: Doc, t: string, u: string, i: nat, keys: seq<Key>)
    requires d.ObjectDoc? && HasAt(t, i, Render(d)) && Valid(d) && u <= t && i < |u|
    ensures i + |Render(d)| <= |t| && ReadsDoc(d, t, u, i, keys)
    decreases d, 0
  {
    hide *;
    HasAtFits(t, i, Render(d));
    FirstVisible(d, t, i);
    SkipInPrefix(u, t, i);
    ObjectParts(d, keys);
    var inside := i + 1 + |d.pad|;
    HasAtSplit(t, i, "{", d.pad + RenderPairs(d.pairs));
    HasAtSplit(t, i + 1, d.pad, RenderPairs(d.pairs));
    PairsStart(d.pairs, t, inside);
    PaddingInPrefix(u, t, i + 1, d.pad);
    var cursor := SkipSpace(u, i + 1);
    ObjectTurn(u, i, keys, cursor);
    var r := ParseValue(u, i, keys);
    if |u| <= inside {
      NothingToRead(u, keys, [], []);
      assert r == ParseMembers(u, |u|, keys, []);
      GrowsFromNothing(r, i + |Render(d)|, ValueIn(d), PostOrder(d, keys));
    } else if d.pairs.NoPairs? {
      EmptyPlus(Report(keys, ValueIn(d)));
      GrowsWhole(r, i + |Render(d)|, ValueIn(d), PostOrder(d, keys));
    } else {
      PairsRead(d.pairs, t, u, inside, keys, []);
      ReadsPairsMeans(d.pairs, u, inside, keys, []);
    }
    ReadsDocBy(d, t, u, i, keys, r);
  }

  lemma PairsStart(ps: Pairs, t: string, i: nat)
    requires HasAt(t, i, RenderPairs(ps))
    ensures i < |t| && !IsSpace(t[i]) && (t[i] == '}' <==> ps.NoPairs?)
  {
    if ps.Pair? {
      hide HasAt, RenderPairs;
      PairLayout(ps, t, i);
      HasAtIndex(t, i, Quote(ps.key), 0);
      HasAtFits(t, i, Quote(ps.key));
    } else {
      HasAtIndex(t, i, "}", 0);
    }
  }

  lemma ElementsStart(es: Elements, t: string, i: nat)
    requires HasAt(t, i, RenderElements(es)) && ValidElements(es)
    ensures i < |t| && !IsSpace(t[i]) && (t[i] == ']' <==> es.NoElements?)
  {
    if es.Element? {
      ElementLayout(es, t, i);
      FirstVisible(es.value, t, i);
      NotACloser(es.value, t, i);
    } else {
      HasAtIndex(t, i, RenderElements(es), 0);
    }
  }

  lemma NotACloser(d: Doc, t: string, i: nat)
    requires HasAt(t, i, Render(d)) && Valid(d)
    ensures i < |t| && t[i] != ']' && !IsSpace(t[i])
  {
    if d.NumberDoc? || d.WordDoc? { LexemesAreLexemes(d.lexeme); }
    HasAtIndex(t, i, Render(d), 0);
  }

  lemma GrowsFromNothing(r: Parsed, end: nat, value: Value, full: seq<Observation>)
    requires !r.ok && r.seen == []
    ensures Grows(r, end, value, full)
  {
  }

  lemma GrowsWhole(r: Parsed, end: nat, value: Value, full: seq<Observation>)
    requires r == Parsed(value, end, true, full)
    ensures Grows(r, end, value, full)
  {
  }

  /** A failed child contributes what it saw. */
  lemma GrowsPartly(r: Parsed, end: nat, value: Value, full: seq<Observation>, first: seq<Observation>,
                    others: seq<Observation>)
    requires !r.ok && r.seen <= first && full == first + others
    ensures Grows(r, end, value, full)
  {
  }

  lemma GrowsWithRest(r: Parsed, rest: Parsed, end: nat, value: Value, first: seq<Observation>,
                      others: seq<Observation>)
    requires r == rest.(seen := first + rest.seen) && Grows(rest, end, value, others)
    ensures Grows(r, end, value, first + others)
  {
  }

  lemma GrowsMeans(r: Parsed, end: nat, value: Value, full: seq<Observation>)
    requires Grows(r, end, value, full)
    ensures if r.ok then r == Parsed(value, end, true, full) else r.seen <= full
  {
  }

  lemma EmptyPlus(s: seq<Observation>)
    ensures [] + s == s
  {
  }

  lemma ReadsDocMeans(d: Doc, t: string, u: string, i: nat, keys: seq<Key>)
    requires i <= |u| && i + |Render(d)| <= |t| && ReadsDoc(d, t, u, i, keys)
    ensures var r, end := ParseValue(u, i, keys), i + |Render(d)|;
            && (if r.ok then r == Parsed(ValueIn(d), end, true, PostOrder(d, keys)) else r.seen <= PostOrder(d, keys))
            && (r.ok ==> end <= |u|) && (Settled(d, t, end, |u|) ==> r.ok)
  {
    hide ParseValue, Render, ValueIn, PostOrder, Settled;
  }

  lemma ReadsPairsMeans(ps: Pairs, u: string, i: nat, keys: seq<Key>, members: seq<Member>)
    requires i <= |u| && ReadsPairs(ps, u, i, keys, members)
    ensures var r, end, value := ParseMembers(u, i, keys, members), i + |RenderPairs(ps)|, Obj(PutAll(members, ps));
            Grows(r, end, value, PairsPostOrder(ps, keys) + Report(keys, value)) && (r.ok <==> end <= |u|)
  {
  }

  lemma ReadsPairsBy(ps: Pairs, u: string, i: nat, keys: seq<Key>, members: seq<Member>, r: Parsed)
    requires i <= |u| && r == ParseMembers(u, i, keys, members)
    requires var end, value := i + |RenderPairs(ps)|, Obj(PutAll(members, ps));
             Grows(r, end, value, PairsPostOrder(ps, keys) + Report(keys, value)) && (r.ok <==> end <= |u|)
    ensures ReadsPairs(ps, u, i, keys, members)
  {
  }

  lemma PairMeans(ps: Pairs, keys: seq<Key>, members: seq<Member>, i: nat)
    requires ps.Pair? && ValidPairs(ps)
    ensures PutAll(members, ps) == PutAll(Put(members, Content(ps.key), ValueIn(ps.value)), ps.rest)
    ensures PairsPostOrder(ps, keys)
      == PostOrder(ps.value, keys + [Name(Content(ps.key))]) + PairsPostOrder(ps.rest, keys)
    ensures ps.rest.NoPairs? ==> PutAll(members, ps) == Put(members, Content(ps.key), ValueIn(ps.value))
    ensures ps.rest.NoPairs? ==> PairsPostOrder(ps.rest, keys) == [] && RenderPairs(ps.rest) == "}"
    ensures StringBody(ps.key) && Valid(ps.value) && ValidPairs(ps.rest)
    ensures AllSpace(ps.beforeColon) && AllSpace(ps.afterColon) && AllSpace(ps.afterValue) && AllSpace(ps.afterComma)
    ensures ColonOf(ps, i) == i + |Quote(ps.key)| + |ps.beforeColon|
    ensures ValueOf(ps, i) == ColonOf(ps, i) + 1 + |ps.afterColon|
    ensures SeparatorOf(ps, i) == ValueOf(ps, i) + |Render(ps.value)| + |ps.afterValue|
    ensures RestOf(ps, i) == if ps.rest.NoPairs? then SeparatorOf(ps, i) else SeparatorOf(ps, i) + 1 + |ps.afterComma|
  {
  }

  /** The key of a pair in a prefix of the text. */
  lemma KeyInPrefix(ps: Pairs, t: string, u: string, i: nat)
    requires ps.Pair? && HasAt(t, i, Quote(ps.key)) && StringBody(ps.key) && u <= t && i < |u|
    ensures var e := i + |Quote(ps.key)|;
            KeyAt(u, i) == if e <= |u| then Some((Content(ps.key), e)) else None
  {
    hide *;
    QuoteInPrefix(ps.key, t, u, i);
    ContentIsDecoded(ps.key);
    KeyMeans(u, i);
  }

  lemma KeyMeans(u: string, i: nat)
    requires i < |u| && u[i] == '\"'
    ensures var end := StringEnd(u, i + 1);
      KeyAt(u, i) == if end.Some? then Some((Unescape(u[i + 1..end.value - 1]), end.value)) else None
  {
    hide StringEnd, Unescape;
  }

  lemma Visible(t: string, i: nat, c: char)
    requires HasAt(t, i, [c]) && (c == ':' || c == ',' || c == '}' || c == ']')
    ensures i < |t| && t[i] == c && !IsSpace(t[i])
  {
  }

  lemma DelimitedBy(t: string, i: nat, pad: string, c: char)
    requires HasAt(t, i, pad) && AllSpace(pad) && HasAt(t, i + |pad|, [c]) && (c == ',' || c == '}' || c == ']')
    ensures Delimited(t, i) && SkipSpace(t, i) == i + |pad|
  {
    Visible(t, i + |pad|, c);
    SkipPadding(t, i, pad);
    SkipSpaceUnique(t, i + |pad|, i + |pad|);
  }

  lemma {:induction false} PairsRead(ps: Pairs, t: string, u: string, i: nat, keys: seq<Key>, members: seq<Member>)
    requires ps.Pair? && HasAt(t, i, RenderPairs(ps)) && ValidPairs(ps) && u <= t && i < |u|
    ensures ReadsPairs(ps, u, i, keys, members)
    decreases ps, 3
  {
    hide *;
    PairLayout(ps, t, i);
    PairMeans(ps, keys, members, i);
    var keyEnd, colon, end := i + |Quote(ps.key)|, ColonOf(ps, i), i + |RenderPairs(ps)|;
    var value := Obj(PutAll(members, ps));
    var full := PairsPostOrder(ps, keys) + Report(keys, value);
    var r := ParseMembers(u, i, keys, members);
    KeyInPrefix(ps, t, u, i);
    Visible(t, colon, ':');
    if |u| <= colon {
      if keyEnd <= |u| { PaddingInPrefix(u, t, keyEnd, ps.beforeColon); }
      MembersStuck(u, i, keys, members);
      GrowsFromNothing(r, end, value, full);
    } else {
      PaddingInPrefix(u, t, keyEnd, ps.beforeColon);
      assert u[colon] == ':';
      PairValueRead(ps, t, u, i, keys, members);
      ReadsPairsMeans(ps, u, i, keys, members);
    }
    ReadsPairsBy(ps, u, i, keys, members, r);
  }

  /** The value of a pair whose colon has been reached. */
  lemma {:induction false} PairChildRead(ps: Pairs, t: string, u: string, i: nat, keys: seq<Key>)
    requires ps.Pair? && HasAt(t, i, RenderPairs(ps)) && ValidPairs(ps) && u <= t && ColonOf(ps, i) < |u|
    ensures var child := ParseValue(u, ColonOf(ps, i) + 1, keys + [Name(Content(ps.key))]);
            var after, first :=
              ValueOf(ps, i) + |Render(ps.value)|, PostOrder(ps.value, keys + [Name(Content(ps.key))]);
            if child.ok then child == Parsed(ValueIn(ps.value), after, true, first) && after <= |u|
            else child.seen <= first && |u| < i + |RenderPairs(ps)|
    decreases ps, 1
  {
    hide *;
    PairLayout(ps, t, i);
    PairMeans(ps, keys, [], i);
    var colon, start, childKeys := ColonOf(ps, i), ValueOf(ps, i), keys + [Name(Content(ps.key))];
    var after, separator := start + |Render(ps.value)|, SeparatorOf(ps, i);
    ValueVisible(ps.value, t, start);
    PaddingInPrefix(u, t, colon + 1, ps.afterColon);
    Visible(t, separator, if ps.rest.NoPairs? then '}' else ',');
    RestIsVisible(ps, t, i);
    if |u| <= start {
      NothingLeft(u, colon + 1, childKeys);
    } else {
      SkipHere(u, t, start);
      ParseSkips(u, colon + 1, start, childKeys);
      DelimitedBy(t, after, ps.afterValue, if ps.rest.NoPairs? then '}' else ',');
      DocRead(ps.value, t, u, start, childKeys);
      ReadsDocMeans(ps.value, t, u, start, childKeys);
      SettledMeans(ps.value, t, after, |u|);
    }
  }

  lemma RestIsVisible(ps: Pairs, t: string, i: nat)
    requires ps.Pair? && HasAt(t, i, RenderPairs(ps))
    ensures SeparatorOf(ps, i) < i + |RenderPairs(ps)|
  {
    hide HasAt, RenderPairs, Render, Quote;
    PairLayout(ps, t, i);
    PairsStart(ps.rest, t, RestOf(ps, i));
    assert |RenderPairs(ps.rest)| > 0;
  }

  /** A pair whose colon has been reached: its value, and what follows it. */
  lemma {:induction false} PairValueRead(ps: Pairs, t: string, u: string, i: nat, keys: seq<Key>, members: seq<Member>)
    requires ps.Pair? && HasAt(t, i, RenderPairs(ps)) && ValidPairs(ps) && u <= t && i < |u|
    requires KeyAt(u, i) == Some((Content(ps.key), i + |Quote(ps.key)|))
    requires SkipSpace(u, i + |Quote(ps.key)|) == ColonOf(ps, i) < |u| && u[ColonOf(ps, i)] == ':'
    ensures ReadsPairs(ps, u, i, keys, members)
    decreases ps, 2
  {
    hide *;
    PairMeans(ps, keys, members, i);
    var key, keyEnd, end := Content(ps.key), i + |Quote(ps.key)|, i + |RenderPairs(ps)|;
    var value := Obj(PutAll(members, ps));
    var first, others := PostOrder(ps.value, keys + [Name(key)]), PairsPostOrder(ps.rest, keys) + Report(keys, value);
    var r, child := ParseMembers(u, i, keys, members), ParseValue(u, ColonOf(ps, i) + 1, keys + [Name(key)]);
    PairChildRead(ps, t, u, i, keys);
    MembersTurn(u, i, keys, members, key, keyEnd, child);
    if child.ok {
      PairSeparatorRead(ps, t, u, i, keys, members, r);
    } else {
      assert PairsPostOrder(ps, keys) + Report(keys, value) == first + others;
      GrowsPartly(r, end, value, PairsPostOrder(ps, keys) + Report(keys, value), first, others);
    }
    ReadsPairsBy(ps, u, i, keys, members, r);
  }

  /** The separator after a value that has been read. */
  lemma {:induction false} PairSeparatorRead(ps: Pairs, t: string, u: string, i: nat, keys: seq<Key>,
                                             members: seq<Member>, r: Parsed)
    requires ps.Pair? && HasAt(t, i, RenderPairs(ps)) && ValidPairs(ps) && u <= t
    requires ValueOf(ps, i) + |Render(ps.value)| <= |u|
    requires var first, next :=
      PostOrder(ps.value, keys + [Name(Content(ps.key))]), SkipSpace(u, ValueOf(ps, i) + |Render(ps.value)|);
             var members' := Put(members, Content(ps.key), ValueIn(ps.value));
             if next < |u| && u[next] == ',' then
               var rest := ParseMembers(u, SkipSpace(u, next + 1), keys, members');
                 r == rest.(seen := first + rest.seen)
             else if next < |u| && u[next] == '}'
               then r == Parsed(Obj(members'), next + 1, true, first + Report(keys, Obj(members')))
             else r == Parsed(Obj(members'), next, false, first)
    ensures var end, value := i + |RenderPairs(ps)|, Obj(PutAll(members, ps));
            Grows(r, end, value, PairsPostOrder(ps, keys) + Report(keys, value)) && (r.ok <==> end <= |u|)
    decreases ps, 1
  {
    hide *;
    PairLayout(ps, t, i);
    PairMeans(ps, keys, members, i);
    var after, separator, end := ValueOf(ps, i) + |Render(ps.value)|, SeparatorOf(ps, i), i + |RenderPairs(ps)|;
    Visible(t, separator, if ps.rest.NoPairs? then '}' else ',');
    PaddingInPrefix(u, t, after, ps.afterValue);
    if |u| <= separator {
      var value, first := Obj(PutAll(members, ps)), PostOrder(ps.value, keys + [Name(Content(ps.key))]);
      var others := PairsPostOrder(ps.rest, keys) + Report(keys, value);
      assert PairsPostOrder(ps, keys) + Report(keys, value) == first + others;
      GrowsPartly(r, end, value, PairsPostOrder(ps, keys) + Report(keys, value), first, others);
    } else {
      assert u[separator] == t[separator];
      PairsRestRead(ps, t, u, i, keys, members, r);
    }
  }

  /** After the separator: the object closes, or the next pair is read. */
  lemma {:induction false} PairsRestRead(ps: Pairs, t: string, u: string, i: nat, keys: seq<Key>,
                                         members: seq<Member>, r: Parsed)
    requires ps.Pair? && HasAt(t, i, RenderPairs(ps)) && ValidPairs(ps) && u <= t && SeparatorOf(ps, i) < |u|
    requires var first := PostOrder(ps.value, keys + [Name(Content(ps.key))]);
             var members' := Put(members, Content(ps.key), ValueIn(ps.value));
             if ps.rest.NoPairs?
               then r == Parsed(Obj(members'), SeparatorOf(ps, i) + 1, true, first + Report(keys, Obj(members')))
             else var rest := ParseMembers(u, SkipSpace(u, SeparatorOf(ps, i) + 1), keys, members');
               r == rest.(seen := first + rest.seen)
    ensures var end, value := i + |RenderPairs(ps)|, Obj(PutAll(members, ps));
            Grows(r, end, value, PairsPostOrder(ps, keys) + Report(keys, value)) && (r.ok <==> end <= |u|)
    decreases ps, 0
  {
    hide *;
    PairLayout(ps, t, i);
    PairMeans(ps, keys, members, i);
    var separator, end, value := SeparatorOf(ps, i), i + |RenderPairs(ps)|, Obj(PutAll(members, ps));
    var first := PostOrder(ps.value, keys + [Name(Content(ps.key))]);
    var others := PairsPostOrder(ps.rest, keys) + Report(keys, value);
    assert PairsPostOrder(ps, keys) + Report(keys, value) == first + others;
    if ps.rest.NoPairs? {
      EmptyPlus(Report(keys, value));
      GrowsWhole(r, end, value, first + others);
    } else {
      var members', next := Put(members, Content(ps.key), ValueIn(ps.value)), RestOf(ps, i);
      PairsStart(ps.rest, t, next);
      PaddingInPrefix(u, t, separator + 1, ps.afterComma);
      var rest := ParseMembers(u, SkipSpace(u, separator + 1), keys, members');
      if |u| <= next {
        NothingToRead(u, keys, members', []);
        GrowsFromNothing(rest, end, value, others);
      } else {
        PairsRead(ps.rest, t, u, next, keys, members');
        ReadsPairsMeans(ps.rest, u, next, keys, members');
      }
      GrowsWithRest(r, rest, end, value, first, others);
    }
  }

  lemma ValueVisible(d: Doc, t: string, i: nat)
    requires HasAt(t, i, Render(d)) && Valid(d)
    ensures i < |t| && !IsSpace(t[i])
  {
    NotACloser(d, t, i);
  }

  lemma SkipHere(u: string, t: string, i: nat)
    requires u <= t && i < |u| && !IsSpace(t[i])
    ensures SkipSpace(u, i) == i
  {
  }

  lemma {:induction false} ArrayRead(d: Doc, t: string, u: string, i: nat, keys: seq<Key>)
    requires d.ArrayDoc? && HasAt(t, i, Render(d)) && Valid(d) && u <= t && i < |u|
    ensures i + |Render(d)| <= |t| && ReadsDoc(d, t, u, i, keys)
    decreases d, 0
  {
    hide *;
    HasAtFits(t, i, Render(d));
    FirstVisible(d, t, i);
    SkipInPrefix(u, t, i);
    ArrayParts(d, keys);
    var inside := i + 1 + |d.pad|;
    HasAtSplit(t, i, "[", d.pad + RenderElements(d.elements));
    HasAtSplit(t, i + 1, d.pad, RenderElements(d.elements));
    ElementsStart(d.elements, t, inside);
    PaddingInPrefix(u, t, i + 1, d.pad);
    var cursor := SkipSpace(u, i + 1);
    ArrayTurn(u, i, keys, cursor);
    var r := ParseValue(u, i, keys);
    if |u| <= inside {
      NothingToRead(u, keys, [], []);
      assert r == ParseItems(u, |u|, keys, []);
      GrowsFromNothing(r, i + |Render(d)|, ValueIn(d), PostOrder(d, keys));
    } else if d.elements.NoElements? {
      EmptyPlus(Report(keys, ValueIn(d)));
      GrowsWhole(r, i + |Render(d)|, ValueIn(d), PostOrder(d, keys));
    } else {
      ElementsRead(d.elements, t, u, inside, keys, []);
      ReadsElementsMeans(d.elements, u, inside, keys, []);
      assert [] + ItemsIn(d.elements) == ItemsIn(d.elements);
    }
    ReadsDocBy(d, t, u, i, keys, r);
  }

  lemma ReadsElementsMeans(es: Elements, u: string, i: nat, keys: seq<Key>, items: seq<Value>)
    requires i <= |u| && ReadsElements(es, u, i, keys, items)
    ensures var r, end, value := ParseItems(u, i, keys, items), i + |RenderElements(es)|, Arr(items + ItemsIn(es));
            Grows(r, end, value, ElementsPostOrder(es, keys, |items|) + Report(keys, value)) && (r.ok <==> end <= |u|)
  {
  }

  lemma ReadsElementsBy(es: Elements, u: string, i: nat, keys: seq<Key>, items: seq<Value>, r: Parsed)
    requires i <= |u| && r == ParseItems(u, i, keys, items)
    requires var end, value := i + |RenderElements(es)|, Arr(items + ItemsIn(es));
             Grows(r, end, value, ElementsPostOrder(es, keys, |items|) + Report(keys, value)) && (r.ok <==> end <= |u|)
    ensures ReadsElements(es, u, i, keys, items)
  {
  }

  lemma ElementMeans(es: Elements, keys: seq<Key>, items: seq<Value>, i: nat)
    requires es.Element? && ValidElements(es)
    ensures items + ItemsIn(es) == items + [ValueIn(es.value)] + ItemsIn(es.rest)
    ensures ElementsPostOrder(es, keys, |items|)
              == PostOrder(es.value, keys + [Index(|items|)]) + ElementsPostOrder(es.rest, keys, |items| + 1)
    ensures es.rest.NoElements? ==> items + ItemsIn(es) == items + [ValueIn(es.value)]
    ensures es.rest.NoElements? ==>
      ElementsPostOrder(es.rest, keys, |items| + 1) == [] && RenderElements(es.rest) == "]"
    ensures Valid(es.value) && ValidElements(es.rest) && AllSpace(es.afterValue) && AllSpace(es.afterComma)
    ensures CommaOf(es, i) == i + |Render(es.value)| + |es.afterValue|
    ensures TailOf(es, i) == if es.rest.NoElements? then CommaOf(es, i) else CommaOf(es, i) + 1 + |es.afterComma|
  {
    hide Valid, AllSpace, Render, ValueIn, PostOrder;
    assert items + ([ValueIn(es.value)] + ItemsIn(es.rest)) == items + [ValueIn(es.value)] + ItemsIn(es.rest);
  }

  lemma {:induction false} ElementsRead(es: Elements, t: string, u: string, i: nat, keys: seq<Key>, items: seq<Value>)
    requires es.Element? && HasAt(t, i, RenderElements(es)) && ValidElements(es) && u <= t && i < |u|
    ensures ReadsElements(es, u, i, keys, items)
    decreases es, 1
  {
    hide *;
    ElementLayout(es, t, i);
    ElementMeans(es, keys, items, i);
    var after, comma, end := i + |Render(es.value)|, CommaOf(es, i), i + |RenderElements(es)|;
    var value := Arr(items + ItemsIn(es));
    var childKeys := keys + [Index(|items|)];
    var first := PostOrder(es.value, childKeys);
    var others := ElementsPostOrder(es.rest, keys, |items| + 1) + Report(keys, value);
    var full := ElementsPostOrder(es, keys, |items|) + Report(keys, value);
    assert full == first + others;
    var r, child := ParseItems(u, i, keys, items), ParseValue(u, i, childKeys);
    ItemsTurn(u, i, keys, items, child);
    Visible(t, comma, if es.rest.NoElements? then ']' else ',');
    DelimitedBy(t, after, es.afterValue, if es.rest.NoElements? then ']' else ',');
    DocRead(es.value, t, u, i, childKeys);
    ReadsDocMeans(es.value, t, u, i, childKeys);
    SettledMeans(es.value, t, after, |u|);
    if !child.ok {
      GrowsPartly(r, end, value, full, first, others);
    } else {
      PaddingInPrefix(u, t, after, es.afterValue);
      if |u| <= comma {
        GrowsPartly(r, end, value, full, first, others);
      } else {
        assert u[comma] == t[comma];
        ElementsRestRead(es, t, u, i, keys, items, r);
      }
    }
    ReadsElementsBy(es, u, i, keys, items, r);
  }

  /** After the separator: the array closes, or the next element is read. */
  lemma {:induction false} ElementsRestRead(es: Elements, t: string, u: string, i: nat, keys: seq<Key>,
                                            items: seq<Value>, r: Parsed)
    requires es.Element? && HasAt(t, i, RenderElements(es)) && ValidElements(es) && u <= t && CommaOf(es, i) < |u|
    requires var first, items' := PostOrder(es.value, keys + [Index(|items|)]), items + [ValueIn(es.value)];
             if es.rest.NoElements?
               then r == Parsed(Arr(items'), CommaOf(es, i) + 1, true, first + Report(keys, Arr(items')))
             else var rest := ParseItems(u, SkipSpace(u, CommaOf(es, i) + 1), keys, items');
               r == rest.(seen := first + rest.seen)
    ensures var end, value := i + |RenderElements(es)|, Arr(items + ItemsIn(es));
            Grows(r, end, value, ElementsPostOrder(es, keys, |items|) + Report(keys, value)) && (r.ok <==> end <= |u|)
    decreases es, 0
  {
    hide *;
    ElementLayout(es, t, i);
    ElementMeans(es, keys, items, i);
    var comma, end, value := CommaOf(es, i), i + |RenderElements(es)|, Arr(items + ItemsIn(es));
    var first := PostOrder(es.value, keys + [Index(|items|)]);
    var others := ElementsPostOrder(es.rest, keys, |items| + 1) + Report(keys, value);
    assert ElementsPostOrder(es, keys, |items|) + Report(keys, value) == first + others;
    if es.rest.NoElements? {
      EmptyPlus(Report(keys, value));
      GrowsWhole(r, end, value, first + others);
    } else {
      var items', next := items + [ValueIn(es.value)], TailOf(es, i);
      ElementsStart(es.rest, t, next);
      PaddingInPrefix(u, t, comma + 1, es.afterComma);
      var rest := ParseItems(u, SkipSpace(u, comma + 1), keys, items');
      if |u| <= next {
        NothingToRead(u, keys, [], items');
        GrowsFromNothing(rest, end, value, others);
      } else {
        ElementsRead(es.rest, t, u, next, keys, items');
        ReadsElementsMeans(es.rest, u, next, keys, items');
      }
      GrowsWithRest(r, rest, end, value, first, others);
    }
  }

  // The main statement about renderings.

  /** A rendering of a container inside a reply: text without brackets before it, anything after it. */
  ghost predicate ReplyWith(t: string, before: string, d: Doc) {
    && Valid(d) && !Scalar(d) && HasAt(t, 0, before) && HasAt(t, |before|, Render(d))
    && forall k :: 0 <= k < |before| ==> before[k] != '{' && before[k] != '['
  }

  /**
    No boundary is reported early or with a value that later changes: on every prefix of a reply, what is
    observed is a prefix of the post-order list of the document's subvalues; and it is the whole list as
    soon as the document is.
   */
  lemma ObservedOnPrefix(t: string, before: string, d: Doc, u: string)
    requires ReplyWith(t, before, d) && u <= t
    ensures ObservedValues(u) <= PostOrder(d, [])
    ensures |u| >= |before| + |Render(d)| ==> ObservedValues(u) == PostOrder(d, [])
  {
    hide *;
    var b := |before|;
    ReplyParts(t, before, d, u);
    if b < |u| {
      DocRead(d, t, u, b, []);
      ReadsDocMeans(d, t, u, b, []);
      SettledMeans(d, t, b + |Render(d)|, |u|);
      ObservedStart(u, b);
    } else {
      ObservedStart(u, |u|);
      RenderNotEmpty(d, t, b);
    }
  }

  lemma RenderNotEmpty(d: Doc, t: string, i: nat)
    requires HasAt(t, i, Render(d)) && Valid(d)
    ensures |Render(d)| > 0
  {
    FirstVisible(d, t, i);
    if |Render(d)| == 0 { if d.NumberDoc? || d.WordDoc? { LexemesAreLexemes(d.lexeme); } }
  }

  lemma ReplyParts(t: string, before: string, d: Doc, u: string)
    requires ReplyWith(t, before, d) && u <= t
    ensures Valid(d) && !Scalar(d) && HasAt(t, |before|, Render(d))
    ensures FirstBracket(u, 0) == if |before| < |u| then |before| else |u|
    ensures |before| + |Render(d)| <= |t|
  {
    hide Render, Valid;
    FirstVisible(d, t, |before|);
    forall k | 0 <= k < |before| ensures t[k] == before[k] { HasAtIndex(t, 0, before, k); }
  }

  lemma ObservedStart(u: string, b: nat)
    requires b <= |u| && FirstBracket(u, 0) == b
    ensures ObservedValues(u) == if b == |u| then [] else ParseValue(u, b, []).seen
  {
  }

  /** So what is observed on a prefix is a prefix of what is observed on the full reply. */
  lemma ObservedOnlyGrows(t: string, before: string, d: Doc, u: string)
    requires ReplyWith(t, before, d) && u <= t
    ensures ObservedValues(u) <= ObservedValues(t) == PostOrder(d, [])
  {
    hide *;
    ReplyParts(t, before, d, t);
    ObservedOnPrefix(t, before, d, u);
    ObservedOnPrefix(t, before, d, t);
  }
}
