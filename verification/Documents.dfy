/**
  JSON values, and documents: values together with every rendering choice (the whitespace between tokens
  and the escapes inside strings), following sections 2 to 7 of RFC 8259.
 */
module Documents {
  import opened Chars
  import opened Tokens

  datatype Doc =
    | TextDoc(body: string)
    | NumberDoc(lexeme: string)
    | WordDoc(lexeme: string)
    | ObjectDoc(pad: string, pairs: Pairs)
    | ArrayDoc(pad: string, elements: Elements)

  /** The members of an object up to its closing brace. */
  datatype Pairs =
    | NoPairs
    | Pair(key: string, beforeColon: string, afterColon: string, value: Doc,
           afterValue: string, afterComma: string, rest: Pairs)

  /** The elements of an array up to its closing bracket. */
  datatype Elements =
    | NoElements
    | Element(value: Doc, afterValue: string, afterComma: string, rest: Elements)

  function Render(d: Doc): (r: string)
    ensures r != "" || d.NumberDoc? || d.WordDoc?
  {
    match d
    case TextDoc(body) => Quote(body)
    case NumberDoc(lexeme) => lexeme
    case WordDoc(lexeme) => lexeme
    case ObjectDoc(pad, pairs) => "{" + (pad + RenderPairs(pairs))
    case ArrayDoc(pad, elements) => "[" + (pad + RenderElements(elements))
  }

  /** A string in quotes. */
  function Quote(body: string): string { "\"" + (body + "\"") }

  function RenderPairs(ps: Pairs): (r: string)
    ensures r != ""
  {
    match ps
    case NoPairs => "}"
    case Pair(key, beforeColon, afterColon, value, afterValue, afterComma, rest) =>
      Quote(key) + (beforeColon + (":" + (afterColon + (Render(value) + (afterValue +
        (if rest.NoPairs? then RenderPairs(rest) else "," + (afterComma + RenderPairs(rest))))))))
  }

  function RenderElements(es: Elements): (r: string)
    ensures r != ""
  {
    match es
    case NoElements => "]"
    case Element(value, afterValue, afterComma, rest) =>
      Render(value) + (afterValue +
        (if rest.NoElements? then RenderElements(rest) else "," + (afterComma + RenderElements(rest))))
  }

  /** The tokens are tokens and the padding is whitespace. */
  predicate Valid(d: Doc) {
    match d
    case TextDoc(body) => StringBody(body)
    case NumberDoc(lexeme) => NumberLexeme(lexeme)
    case WordDoc(lexeme) => WordLexeme(lexeme)
    case ObjectDoc(pad, pairs) => AllSpace(pad) && ValidPairs(pairs)
    case ArrayDoc(pad, elements) => AllSpace(pad) && ValidElements(elements)
  }

  predicate ValidPairs(ps: Pairs) {
    match ps
    case NoPairs => true
    case Pair(key, beforeColon, afterColon, value, afterValue, afterComma, rest) =>
      && StringBody(key) && AllSpace(beforeColon) && AllSpace(afterColon) && Valid(value)
      && AllSpace(afterValue) && AllSpace(afterComma) && ValidPairs(rest)
  }

  predicate ValidElements(es: Elements) {
    match es
    case NoElements => true
    case Element(value, afterValue, afterComma, rest) =>
      Valid(value) && AllSpace(afterValue) && AllSpace(afterComma) && ValidElements(rest)
  }

  // Where a rendering sits in a text.

  lemma HasAtSplit(t: string, i: nat, a: string, b: string)
    ensures HasAt(t, i, a + b) <==> HasAt(t, i, a) && HasAt(t, i + |a|, b)
  {
    if i + |a| + |b| <= |t| {
      assert t[i..i + |a + b|] == t[i..i + |a|] + t[i + |a|..i + |a| + |b|];
      assert (a + b)[..|a|] == a && (a + b)[|a|..] == b;
    }
  }

  lemma HasAtSlice(t: string, i: nat, a: string)
    requires HasAt(t, i, a)
    ensures i + |a| <= |t| && t[i..i + |a|] == a
  {
  }

  lemma HasAtFits(t: string, i: nat, a: string)
    requires HasAt(t, i, a)
    ensures i + |a| <= |t|
  {
  }

  lemma HasAtIndex(t: string, i: nat, a: string, k: nat)
    requires HasAt(t, i, a) && k < |a|
    ensures t[i + k] == a[k]
  {
    assert t[i..i + |a|][k] == t[i + k];
  }

  lemma HasAtPrefix(t: string, u: string, i: nat, a: string)
    requires HasAt(t, i, a) && u <= t && i + |a| <= |u|
    ensures HasAt(u, i, a)
  {
    assert u[i..i + |a|] == t[i..i + |a|];
  }

  lemma HasAtChar(t: string, i: nat, c: char)
    ensures HasAt(t, i, [c]) <==> i < |t| && t[i] == c
  {
  }

  /** After padding, the next visible character is the one that follows it. */
  lemma SkipPadding(t: string, i: nat, pad: string)
    requires HasAt(t, i, pad) && AllSpace(pad)
    ensures SkipSpace(t, i) == SkipSpace(t, i + |pad|)
    decreases |pad|
  {
    var j := i + |pad|;
    assert t[i..SkipSpace(t, j)] == t[i..j] + t[j..SkipSpace(t, j)];
    SkipSpaceUnique(t, i, SkipSpace(t, j));
  }

  lemma QuoteLayout(t: string, i: nat, body: string)
    requires HasAt(t, i, Quote(body)) && StringBody(body)
    ensures i + |body| + 2 <= |t| && t[i] == '\"' && t[i + 1 + |body|] == '\"'
    ensures HasAt(t, i + 1, body + "\"") && HasAt(t, i + 1, body)
    ensures StringEnd(t, i + 1) == Some(i + |body| + 2)
  {
    hide HasAt, StringBody, StringEnd;
    HasAtSplit(t, i, "\"", body + "\"");
    HasAtSplit(t, i + 1, body, "\"");
    HasAtChar(t, i, '\"');
    HasAtChar(t, i + 1 + |body|, '\"');
    HasAtFits(t, i + 1, body + "\"");
    StringBodyAt(t, i + 1, body);
  }

  // The positions of the parts of a pair, or an element, that is rendered at `i`.

  function ColonOf(ps: Pairs, i: nat): nat
    requires ps.Pair?
  {
    i + |Quote(ps.key)| + |ps.beforeColon|
  }

  function ValueOf(ps: Pairs, i: nat): nat
    requires ps.Pair?
  {
    ColonOf(ps, i) + 1 + |ps.afterColon|
  }

  function SeparatorOf(ps: Pairs, i: nat): nat
    requires ps.Pair?
  {
    ValueOf(ps, i) + |Render(ps.value)| + |ps.afterValue|
  }

  function RestOf(ps: Pairs, i: nat): nat
    requires ps.Pair?
  {
    if ps.rest.NoPairs? then SeparatorOf(ps, i) else SeparatorOf(ps, i) + 1 + |ps.afterComma|
  }

  lemma PairLayout(ps: Pairs, t: string, i: nat)
    requires ps.Pair? && HasAt(t, i, RenderPairs(ps))
    ensures HasAt(t, i, Quote(ps.key)) && HasAt(t, i + |Quote(ps.key)|, ps.beforeColon)
    ensures HasAt(t, ColonOf(ps, i), ":") && HasAt(t, ColonOf(ps, i) + 1, ps.afterColon)
    ensures HasAt(t, ValueOf(ps, i), Render(ps.value))
    ensures HasAt(t, ValueOf(ps, i) + |Render(ps.value)|, ps.afterValue)
    ensures HasAt(t, SeparatorOf(ps, i), if ps.rest.NoPairs? then "}" else ",")
    ensures ps.rest.Pair? ==> HasAt(t, SeparatorOf(ps, i) + 1, ps.afterComma)
    ensures HasAt(t, RestOf(ps, i), RenderPairs(ps.rest))
    ensures RestOf(ps, i) + |RenderPairs(ps.rest)| == i + |RenderPairs(ps)|
  {
    hide HasAt, Quote, Render;
    var last := if ps.rest.NoPairs? then RenderPairs(ps.rest) else "," + (ps.afterComma + RenderPairs(ps.rest));
    var fromAfter := ps.afterValue + last;
    var fromValue := Render(ps.value) + fromAfter;
    var fromColon := ":" + (ps.afterColon + fromValue);
    HasAtSplit(t, i, Quote(ps.key), ps.beforeColon + fromColon);
    HasAtSplit(t, i + |Quote(ps.key)|, ps.beforeColon, fromColon);
    HasAtSplit(t, ColonOf(ps, i), ":", ps.afterColon + fromValue);
    HasAtSplit(t, ColonOf(ps, i) + 1, ps.afterColon, fromValue);
    HasAtSplit(t, ValueOf(ps, i), Render(ps.value), fromAfter);
    HasAtSplit(t, ValueOf(ps, i) + |Render(ps.value)|, ps.afterValue, last);
    if ps.rest.Pair? {
      HasAtSplit(t, SeparatorOf(ps, i), ",", ps.afterComma + RenderPairs(ps.rest));
      HasAtSplit(t, SeparatorOf(ps, i) + 1, ps.afterComma, RenderPairs(ps.rest));
    }
  }

  function CommaOf(es: Elements, i: nat): nat
    requires es.Element?
  {
    i + |Render(es.value)| + |es.afterValue|
  }

  function TailOf(es: Elements, i: nat): nat
    requires es.Element?
  {
    if es.rest.NoElements? then CommaOf(es, i) else CommaOf(es, i) + 1 + |es.afterComma|
  }

  lemma ElementLayout(es: Elements, t: string, i: nat)
    requires es.Element? && HasAt(t, i, RenderElements(es))
    ensures HasAt(t, i, Render(es.value)) && HasAt(t, i + |Render(es.value)|, es.afterValue)
    ensures HasAt(t, CommaOf(es, i), if es.rest.NoElements? then "]" else ",")
    ensures es.rest.Element? ==> HasAt(t, CommaOf(es, i) + 1, es.afterComma)
    ensures HasAt(t, TailOf(es, i), RenderElements(es.rest))
    ensures TailOf(es, i) + |RenderElements(es.rest)| == i + |RenderElements(es)|
  {
    hide HasAt, Render;
    var last := if es.rest.NoElements? then RenderElements(es.rest)
      else "," + (es.afterComma + RenderElements(es.rest));
    HasAtSplit(t, i, Render(es.value), es.afterValue + last);
    HasAtSplit(t, i + |Render(es.value)|, es.afterValue, last);
    if es.rest.Element? {
      HasAtSplit(t, CommaOf(es, i), ",", es.afterComma + RenderElements(es.rest));
      HasAtSplit(t, CommaOf(es, i) + 1, es.afterComma, RenderElements(es.rest));
    }
  }

  /** The definitions for one pair, unfolded once. */
  lemma PairPlaces(ps: Pairs, i: nat)
    requires ValidPairs(ps)
    ensures ps.NoPairs? ==> RenderPairs(ps) == "}"
    ensures ps.Pair? ==>
      && StringBody(ps.key) && Valid(ps.value) && ValidPairs(ps.rest)
      && AllSpace(ps.beforeColon) && AllSpace(ps.afterColon) && AllSpace(ps.afterValue) && AllSpace(ps.afterComma)
      && ColonOf(ps, i) == i + |Quote(ps.key)| + |ps.beforeColon|
      && ValueOf(ps, i) == ColonOf(ps, i) + 1 + |ps.afterColon|
      && SeparatorOf(ps, i) == ValueOf(ps, i) + |Render(ps.value)| + |ps.afterValue|
      && RestOf(ps, i) == if ps.rest.NoPairs? then SeparatorOf(ps, i) else SeparatorOf(ps, i) + 1 + |ps.afterComma|
  {
  }

  lemma ElementPlaces(es: Elements, i: nat)
    requires ValidElements(es)
    ensures es.NoElements? ==> RenderElements(es) == "]"
    ensures es.Element? ==>
      && Valid(es.value) && ValidElements(es.rest) && AllSpace(es.afterValue) && AllSpace(es.afterComma)
      && CommaOf(es, i) == i + |Render(es.value)| + |es.afterValue|
      && TailOf(es, i) == if es.rest.NoElements? then CommaOf(es, i) else CommaOf(es, i) + 1 + |es.afterComma|
  {
  }
}
