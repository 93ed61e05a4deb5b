/**
  Nothing is accepted that is not closed in the raw text: on any text, whatever it holds, each value that the
  descent accepts at a position is the value of a complete rendering there.
 */
module ObservedClosed {
  import opened Chars
  import opened Tokens
  import opened Documents
  import opened Json
  import opened Observed
  import opened StringBodies
  import opened ObservedDocs

  // Tokens that were read are tokens by themselves.

  lemma {:induction false} DigitsInSlice(t: string, i: nat, e: nat, k: nat)
    requires i <= i + k <= e <= |t|
    ensures SkipDigits(t[i..e], k) == if SkipDigits(t, i + k) <= e then SkipDigits(t, i + k) - i else e - i
    decreases e - i - k
  {
    if i + k < e && Digit(t[i + k]) { DigitsInSlice(t, i, e, k + 1); }
  }

  lemma NumberInSlice(t: string, i: nat)
    requires i <= |t| && NumberEnd(t, i).Some?
    ensures NumberLexeme(t[i..NumberEnd(t, i).value])
  {
    var e := NumberEnd(t, i).value;
    var lexeme := t[i..e];
    forall k | 0 <= k <= e - i
      ensures SkipDigits(lexeme, k) == if SkipDigits(t, i + k) <= e then SkipDigits(t, i + k) - i else e - i
    {
      DigitsInSlice(t, i, e, k);
    }
    hide SkipDigits;
    var j := IntegerEnd(t, i).value;
    var f := FractionEnd(t, j);
    assert IntegerEnd(lexeme, 0) == Some(j - i) by { IntegerInSlice(t, i, e); }
    assert FractionEnd(lexeme, j - i) == f - i by { FractionInSlice(t, i, e, j); }
    assert ExponentEnd(lexeme, f - i) == e - i by { ExponentInSlice(t, i, e, f); }
  }

  ghost predicate DigitsAgree(t: string, i: nat, e: nat)
    requires i <= e <= |t|
  {
    forall k :: 0 <= k <= e - i ==>
      SkipDigits(t[i..e], k) == if SkipDigits(t, i + k) <= e then SkipDigits(t, i + k) - i else e - i
  }

  lemma IntegerInSlice(t: string, i: nat, e: nat)
    requires i <= e <= |t| && DigitsAgree(t, i, e) && IntegerEnd(t, i).Some? && IntegerEnd(t, i).value <= e
    ensures IntegerEnd(t[i..e], 0) == Some(IntegerEnd(t, i).value - i)
  {
    hide SkipDigits;
    var k := if t[i] == '-' then 1 else 0;
    assert k < e - i && t[i..e][k] == t[i + k] && t[i..e][0] == t[i];
    assert SkipDigits(t[i..e], k + 1)
      == if SkipDigits(t, i + (k + 1)) <= e then SkipDigits(t, i + (k + 1)) - i else e - i;
  }

  lemma FractionInSlice(t: string, i: nat, e: nat, j: nat)
    requires i <= j <= e <= |t| && DigitsAgree(t, i, e) && FractionEnd(t, j) <= e
    ensures FractionEnd(t[i..e], j - i) == FractionEnd(t, j) - i
  {
    if j + 1 < |t| && t[j] == '.' && Digit(t[j + 1]) {
      assert SkipDigits(t, j + 1) == SkipDigits(t, j + 2);
      assert j + 1 < e;
      assert t[i..e][j - i] == t[j] && t[i..e][j - i + 1] == t[j + 1];
      assert SkipDigits(t[i..e], j - i + 1)
        == if SkipDigits(t, i + (j - i + 1)) <= e then SkipDigits(t, i + (j - i + 1)) - i else e - i;
    }
  }

  lemma ExponentInSlice(t: string, i: nat, e: nat, f: nat)
    requires i <= f <= e <= |t| && DigitsAgree(t, i, e) && ExponentEnd(t, f) == e
    ensures ExponentEnd(t[i..e], f - i) == e - i
  {
    if f < e {
      var k := if f + 1 < |t| && (t[f + 1] == '+' || t[f + 1] == '-') then f + 2 else f + 1;
      assert SkipDigits(t, k) == e && k < e;
      assert t[i..e][f - i] == t[f] && t[i..e][f - i + 1] == t[f + 1] && t[i..e][k - i] == t[k];
      assert SkipDigits(t[i..e], k - i)
        == if SkipDigits(t, i + (k - i)) <= e then SkipDigits(t, i + (k - i)) - i else e - i;
    }
  }

  lemma StringInSlice(t: string, i: nat)
    requires i <= |t| && StringEnd(t, i).Some?
    ensures StringBody(t[i..StringEnd(t, i).value - 1])
    ensures i >= 1 && t[i - 1] == '\"' ==> HasAt(t, i - 1, Quote(t[i..StringEnd(t, i).value - 1]))
  {
    hide StringEnd;
    var e := StringEnd(t, i).value;
    var body := t[i..e - 1];
    StringEndLocal(t, i, body + "\"", 0);
    if i >= 1 && t[i - 1] == '\"' { assert t[i - 1..e] == Quote(body); }
  }

  /** A scalar that was accepted is a rendered document. */
  lemma ScalarRendered(t: string, i: nat, keys: seq<Key>) returns (d: Doc)
    requires i < |t| && ParseScalar(t, i, keys).ok
    ensures Valid(d) && HasAt(t, i, Render(d))
    ensures ParseScalar(t, i, keys) == Parsed(ValueIn(d), i + |Render(d)|, true, PostOrder(d, keys))
  {
    hide SkipSpace, StringEnd, StringBody, NumberLexeme, Content, Unescape, NumberEnd, Report, DotPath;
    var token := ScalarAt(t, i).value;
    match token
    case StringToken(raw, end) =>
      StringInSlice(t, i + 1);
      ContentIsDecoded(raw);
      d := TextDoc(raw);
    case WordToken(raw, end) =>
      d := WordDoc(raw);
    case NumberToken(raw, end) =>
      d := NumberDoc(raw);
      if NumberEnd(t, i).Some? { NumberInSlice(t, i); } else { NumberWordIsLexeme(raw); }
  }

  lemma NumberWordIsLexeme(raw: string)
    requires raw in NUMBER_WORDS
    ensures NumberLexeme(raw)
  {
  }

  // Containers that were accepted.

  lemma SkippedIsPadding(t: string, i: nat)
    requires i <= |t|
    ensures var pad := t[i..SkipSpace(t, i)]; AllSpace(pad) && HasAt(t, i, pad) && i + |pad| == SkipSpace(t, i)
  {
  }

  /** What is rendered from the value of a pair on. */
  function FromValue(ps: Pairs): string
    requires ps.Pair?
  {
    Render(ps.value)
      + (ps.afterValue
        + (if ps.rest.NoPairs? then RenderPairs(ps.rest) else "," + (ps.afterComma + RenderPairs(ps.rest))))
  }

  lemma FromValueFound(ps: Pairs, t: string, i: nat)
    requires ps.Pair? && HasAt(t, ValueOf(ps, i), Render(ps.value))
    requires HasAt(t, ValueOf(ps, i) + |Render(ps.value)|, ps.afterValue)
    requires ps.rest.Pair? ==> HasAt(t, SeparatorOf(ps, i), ",") && HasAt(t, SeparatorOf(ps, i) + 1, ps.afterComma)
    requires HasAt(t, RestOf(ps, i), RenderPairs(ps.rest))
    ensures HasAt(t, ValueOf(ps, i), FromValue(ps))
    ensures RestOf(ps, i) + |RenderPairs(ps.rest)| == ValueOf(ps, i) + |FromValue(ps)|
  {
    hide HasAt, Quote, Render, RenderPairs, ColonOf, ValueOf;
    var last := if ps.rest.NoPairs? then RenderPairs(ps.rest) else "," + (ps.afterComma + RenderPairs(ps.rest));
    if ps.rest.Pair? {
      HasAtSplit(t, SeparatorOf(ps, i) + 1, ps.afterComma, RenderPairs(ps.rest));
      HasAtSplit(t, SeparatorOf(ps, i), ",", ps.afterComma + RenderPairs(ps.rest));
    }
    HasAtSplit(t, ValueOf(ps, i) + |Render(ps.value)|, ps.afterValue, last);
    HasAtSplit(t, ValueOf(ps, i), Render(ps.value), ps.afterValue + last);
  }

  lemma PairIsKeyAndValue(ps: Pairs)
    requires ps.Pair?
    ensures RenderPairs(ps) == Quote(ps.key) + (ps.beforeColon + (":" + (ps.afterColon + FromValue(ps))))
  {
    hide Quote, Render;
  }

  /** The parts of a pair found one after the other make the rendering of the pair. */
  lemma PairFound(ps: Pairs, t: string, i: nat)
    requires ps.Pair? && HasAt(t, i, Quote(ps.key)) && HasAt(t, i + |Quote(ps.key)|, ps.beforeColon)
    requires HasAt(t, ColonOf(ps, i), ":") && HasAt(t, ColonOf(ps, i) + 1, ps.afterColon)
    requires HasAt(t, ValueOf(ps, i), Render(ps.value))
    requires HasAt(t, ValueOf(ps, i) + |Render(ps.value)|, ps.afterValue)
    requires ps.rest.Pair? ==> HasAt(t, SeparatorOf(ps, i), ",") && HasAt(t, SeparatorOf(ps, i) + 1, ps.afterComma)
    requires HasAt(t, RestOf(ps, i), RenderPairs(ps.rest))
    ensures HasAt(t, i, RenderPairs(ps))
    ensures RestOf(ps, i) + |RenderPairs(ps.rest)| == i + |RenderPairs(ps)|
  {
    hide *;
    PairPositions(ps, i);
    FromValueFound(ps, t, i);
    PairIsKeyAndValue(ps);
    HasAtSplit(t, ColonOf(ps, i) + 1, ps.afterColon, FromValue(ps));
    HasAtSplit(t, ColonOf(ps, i), ":", ps.afterColon + FromValue(ps));
    HasAtSplit(t, i + |Quote(ps.key)|, ps.beforeColon, ":" + (ps.afterColon + FromValue(ps)));
    HasAtSplit(t, i, Quote(ps.key), ps.beforeColon + (":" + (ps.afterColon + FromValue(ps))));
  }

  lemma ElementFound(es: Elements, t: string, i: nat)
    requires es.Element? && HasAt(t, i, Render(es.value)) && HasAt(t, i + |Render(es.value)|, es.afterValue)
    requires es.rest.Element? ==> HasAt(t, CommaOf(es, i), ",") && HasAt(t, CommaOf(es, i) + 1, es.afterComma)
    requires HasAt(t, TailOf(es, i), RenderElements(es.rest))
    ensures HasAt(t, i, RenderElements(es))
    ensures TailOf(es, i) + |RenderElements(es.rest)| == i + |RenderElements(es)|
  {
    hide HasAt, Render;
    var last := if es.rest.NoElements? then RenderElements(es.rest)
      else "," + (es.afterComma + RenderElements(es.rest));
    if es.rest.Element? {
      HasAtSplit(t, CommaOf(es, i) + 1, es.afterComma, RenderElements(es.rest));
      HasAtSplit(t, CommaOf(es, i), ",", es.afterComma + RenderElements(es.rest));
    }
    HasAtSplit(t, i + |Render(es.value)|, es.afterValue, last);
    HasAtSplit(t, i, Render(es.value), es.afterValue + last);
  }

  /** What `ok` means for the loops: a key, a colon, a child that is ok, a separator. */
  lemma MembersOk(t: string, i: nat, keys: seq<Key>, members: seq<Member>)
    returns (key: string, end: nat, child: Parsed, next: nat)
    requires i <= |t| && ParseMembers(t, i, keys, members).ok
    ensures KeyAt(t, i) == Some((key, end)) && SkipSpace(t, end) < |t| && t[SkipSpace(t, end)] == ':'
    ensures child == ParseValue(t, SkipSpace(t, end) + 1, keys + [Name(key)]) && child.ok && i < child.cursor <= |t|
    ensures next == SkipSpace(t, child.cursor) < |t|
    ensures var r, members' := ParseMembers(t, i, keys, members), Put(members, key, child.value);
            || (t[next] == '}' && r == Parsed(Obj(members'), next + 1, true, child.seen + Report(keys, Obj(members'))))
            || (t[next] == ',' && var rest := ParseMembers(t, SkipSpace(t, next + 1), keys, members');
                rest.ok && r == rest.(seen := child.seen + rest.seen))
  {
    hide KeyAt, SkipSpace, ParseValue, Put, Report;
    var pair := KeyAt(t, i).value;
    key, end := pair.0, pair.1;
    child := ParseValue(t, SkipSpace(t, end) + 1, keys + [Name(key)]);
    next := SkipSpace(t, child.cursor);
  }

  lemma ItemsOk(t: string, i: nat, keys: seq<Key>, items: seq<Value>) returns (child: Parsed, next: nat)
    requires i <= |t| && ParseItems(t, i, keys, items).ok
    ensures i < |t| && child == ParseValue(t, i, keys + [Index(|items|)]) && child.ok && i < child.cursor <= |t|
    ensures next == SkipSpace(t, child.cursor) < |t|
    ensures var r, items' := ParseItems(t, i, keys, items), items + [child.value];
            || (t[next] == ']' && r == Parsed(Arr(items'), next + 1, true, child.seen + Report(keys, Arr(items'))))
            || (t[next] == ',' && var rest := ParseItems(t, SkipSpace(t, next + 1), keys, items');
                rest.ok && r == rest.(seen := child.seen + rest.seen))
  {
    hide SkipSpace, ParseValue, Report;
    child := ParseValue(t, i, keys + [Index(|items|)]);
    next := SkipSpace(t, child.cursor);
  }

  lemma KeyFound(t: string, i: nat) returns (body: string)
    requires i <= |t| && KeyAt(t, i).Some?
    ensures StringBody(body) && HasAt(t, i, Quote(body)) && KeyAt(t, i) == Some((Content(body), i + |Quote(body)|))
  {
    hide *;
    KeyMeans(t, i);
    StringInSlice(t, i + 1);
    body := t[i + 1..StringEnd(t, i + 1).value - 1];
    ContentIsDecoded(body);
    QuoteLength(body);
  }

  lemma KeyMeans(t: string, i: nat)
    requires i <= |t| && KeyAt(t, i).Some?
    ensures i < |t| && t[i] == '\"' && StringEnd(t, i + 1).Some? && i + 1 < StringEnd(t, i + 1).value
    ensures var end := StringEnd(t, i + 1).value; KeyAt(t, i) == Some((Unescape(t[i + 1..end - 1]), end))
  {
    hide StringEnd, Unescape;
  }

  lemma QuoteLength(body: string)
    ensures |Quote(body)| == |body| + 2
  {
  }

  lemma PairPositions(ps: Pairs, i: nat)
    requires ps.Pair?
    ensures ColonOf(ps, i) == i + |Quote(ps.key)| + |ps.beforeColon|
    ensures ValueOf(ps, i) == ColonOf(ps, i) + 1 + |ps.afterColon|
    ensures SeparatorOf(ps, i) == ValueOf(ps, i) + |Render(ps.value)| + |ps.afterValue|
    ensures RestOf(ps, i) == if ps.rest.NoPairs? then SeparatorOf(ps, i) else SeparatorOf(ps, i) + 1 + |ps.afterComma|
    ensures ValidPairs(ps)
      == (StringBody(ps.key) && AllSpace(ps.beforeColon) && AllSpace(ps.afterColon) && Valid(ps.value)
                               && AllSpace(ps.afterValue) && AllSpace(ps.afterComma) && ValidPairs(ps.rest))
    ensures ValidPairs(NoPairs) && RenderPairs(NoPairs) == "}"
  {
  }

  lemma ElementPositions(es: Elements, i: nat)
    requires es.Element?
    ensures CommaOf(es, i) == i + |Render(es.value)| + |es.afterValue|
    ensures TailOf(es, i) == if es.rest.NoElements? then CommaOf(es, i) else CommaOf(es, i) + 1 + |es.afterComma|
    ensures Valid(es.value) && AllSpace(es.afterValue) && AllSpace(es.afterComma) && ValidElements(es.rest) ==>
      ValidElements(es)
    ensures ValidElements(NoElements) && RenderElements(NoElements) == "]"
  {
  }

  lemma {:induction false} MembersRendered(t: string, i: nat, keys: seq<Key>, members: seq<Member>) returns (ps: Pairs)
    requires i <= |t| && ParseMembers(t, i, keys, members).ok
    ensures ps.Pair? && ValidPairs(ps) && HasAt(t, i, RenderPairs(ps))
    ensures var r, value := ParseMembers(t, i, keys, members), Obj(PutAll(members, ps));
            r == Parsed(value, i + |RenderPairs(ps)|, true, PairsPostOrder(ps, keys) + Report(keys, value))
    decreases |t| - i, 1
  {
    hide *;
    var key, end, child, next := MembersOk(t, i, keys, members);
    var colon := SkipSpace(t, end);
    var body, beforeColon, afterColon := KeyPieces(t, i, colon);
    var d := ValueRendered(t, colon + 1, keys + [Name(key)]);
    var afterValue := Padding(t, child.cursor);
    if t[next] == '}' {
      ps := Pair(body, beforeColon, afterColon, d, afterValue, "", NoPairs);
      HasAtChar(t, next, '}');
      NoSpace();
    } else {
      var rest := MembersRendered(t, SkipSpace(t, next + 1), keys, Put(members, key, child.value));
      var afterComma := Padding(t, next + 1);
      ps := Pair(body, beforeColon, afterColon, d, afterValue, afterComma, rest);
      HasAtChar(t, next, ',');
    }
    PairPositions(ps, i);
    PairAssembled(ps, t, i, keys, members);
  }

  lemma Padding(t: string, i: nat) returns (pad: string)
    requires i <= |t|
    ensures AllSpace(pad) && HasAt(t, i, pad) && i + |pad| == SkipSpace(t, i)
  {
    pad := t[i..SkipSpace(t, i)];
    SkippedIsPadding(t, i);
  }

  lemma KeyPieces(t: string, i: nat, colon: nat) returns (body: string, beforeColon: string, afterColon: string)
    requires i <= |t| && KeyAt(t, i).Some? && colon == SkipSpace(t, KeyAt(t, i).value.1) < |t| && t[colon] == ':'
    ensures StringBody(body) && HasAt(t, i, Quote(body)) && KeyAt(t, i) == Some((Content(body), i + |Quote(body)|))
    ensures AllSpace(beforeColon) && HasAt(t, i + |Quote(body)|, beforeColon)
      && colon == i + |Quote(body)| + |beforeColon|
    ensures HasAt(t, colon, ":")
    ensures AllSpace(afterColon) && HasAt(t, colon + 1, afterColon)
      && SkipSpace(t, colon + 1) == colon + 1 + |afterColon|
  {
    hide *;
    body := KeyFound(t, i);
    beforeColon := Padding(t, i + |Quote(body)|);
    HasAtChar(t, colon, ':');
    afterColon := Padding(t, colon + 1);
  }

  lemma PairAssembled(ps: Pairs, t: string, i: nat, keys: seq<Key>, members: seq<Member>)
    requires ps.Pair? && ValidPairs(ps) && HasAt(t, i, Quote(ps.key)) && HasAt(t, i + |Quote(ps.key)|, ps.beforeColon)
    requires HasAt(t, ColonOf(ps, i), ":") && HasAt(t, ColonOf(ps, i) + 1, ps.afterColon)
    requires HasAt(t, ValueOf(ps, i), Render(ps.value))
    requires HasAt(t, ValueOf(ps, i) + |Render(ps.value)|, ps.afterValue)
    requires ps.rest.Pair? ==> HasAt(t, SeparatorOf(ps, i), ",") && HasAt(t, SeparatorOf(ps, i) + 1, ps.afterComma)
    requires HasAt(t, RestOf(ps, i), RenderPairs(ps.rest))
    ensures HasAt(t, i, RenderPairs(ps))
    ensures RestOf(ps, i) + |RenderPairs(ps.rest)| == i + |RenderPairs(ps)|
    ensures PutAll(members, ps) == PutAll(Put(members, Content(ps.key), ValueIn(ps.value)), ps.rest)
    ensures PairsPostOrder(ps, keys)
      == PostOrder(ps.value, keys + [Name(Content(ps.key))]) + PairsPostOrder(ps.rest, keys)
    ensures ps.rest.NoPairs? ==>
      && PutAll(members, ps) == Put(members, Content(ps.key), ValueIn(ps.value)) && RenderPairs(ps.rest) == "}"
      && PairsPostOrder(ps, keys) == PostOrder(ps.value, keys + [Name(Content(ps.key))])
  {
    hide *;
    PairFound(ps, t, i);
    PairMeans(ps, keys, members, i);
    if ps.rest.NoPairs? { EndsEmpty(PostOrder(ps.value, keys + [Name(Content(ps.key))])); }
  }

  lemma EndsEmpty(s: seq<Observation>)
    ensures s + [] == s
  {
  }

  lemma NoSpace()
    ensures AllSpace("")
  {
  }

  lemma {:induction false} ItemsRendered(t: string, i: nat, keys: seq<Key>, items: seq<Value>) returns (es: Elements)
    requires i < |t| && !IsSpace(t[i]) && ParseItems(t, i, keys, items).ok
    ensures es.Element? && ValidElements(es) && HasAt(t, i, RenderElements(es))
    ensures var r, value := ParseItems(t, i, keys, items), Arr(items + ItemsIn(es));
            r == Parsed(value, i + |RenderElements(es)|, true,
              ElementsPostOrder(es, keys, |items|) + Report(keys, value))
    decreases |t| - i, 1
  {
    hide *;
    var child, next := ItemsOk(t, i, keys, items);
    SkipsNothing(t, i);
    var d := ValueRendered(t, i, keys + [Index(|items|)]);
    var items' := items + [child.value];
    var afterValue := t[child.cursor..next];
    SkippedIsPadding(t, child.cursor);
    if t[next] == ']' {
      es := Element(d, afterValue, "", NoElements);
      HasAtChar(t, next, ']');
      ElementPositions(es, i);
      NoSpace();
      ElementFound(es, t, i);
      ElementMeans(es, keys, items, i);
      assert PostOrder(d, keys + [Index(|items|)]) + [] == PostOrder(d, keys + [Index(|items|)]);
    } else {
      var after := SkipSpace(t, next + 1);
      SkippedIsPadding(t, next + 1);
      ItemsNeedText(t, keys, items');
      var rest := ItemsRendered(t, after, keys, items');
      es := Element(d, afterValue, t[next + 1..after], rest);
      HasAtChar(t, next, ',');
      ElementPositions(es, i);
      ElementFound(es, t, i);
      ElementMeans(es, keys, items, i);
    }
  }

  lemma SkipsNothing(t: string, i: nat)
    requires i < |t| && !IsSpace(t[i])
    ensures SkipSpace(t, i) == i
  {
  }

  lemma ItemsNeedText(t: string, keys: seq<Key>, items: seq<Value>)
    ensures !ParseItems(t, |t|, keys, items).ok
  {
  }

  /** Whatever the text, an accepted value is the value of a document rendered there, and it is reported so. */
  lemma {:induction false} ValueRendered(t: string, i: nat, keys: seq<Key>) returns (d: Doc)
    requires i <= |t| && ParseValue(t, i, keys).ok
    ensures Valid(d) && HasAt(t, SkipSpace(t, i), Render(d))
    ensures ParseValue(t, i, keys) == Parsed(ValueIn(d), SkipSpace(t, i) + |Render(d)|, true, PostOrder(d, keys))
    decreases |t| - i, 0
  {
    hide *;
    var start := SkipSpace(t, i);
    OkStarts(t, i, keys);
    SkipsNothing(t, start);
    ParseSkips(t, i, start, keys);
    if t[start] == '{' {
      var cursor := SkipSpace(t, start + 1);
      ObjectTurn(t, start, keys, cursor);
      var pairs := NoPairs;
      PairPositions(Pair("", "", "", TextDoc(""), "", "", NoPairs), 0);
      if cursor < |t| && t[cursor] == '}' {
        HasAtChar(t, cursor, '}');
      } else {
        pairs := MembersRendered(t, cursor, keys, []);
      }
      d := ObjectFound(t, start, cursor, keys, pairs);
    } else if t[start] == '[' {
      var cursor := SkipSpace(t, start + 1);
      ArrayTurn(t, start, keys, cursor);
      var elements := NoElements;
      ElementPositions(Element(TextDoc(""), "", "", NoElements), 0);
      if cursor < |t| && t[cursor] == ']' {
        HasAtChar(t, cursor, ']');
      } else {
        if cursor == |t| { ItemsNeedText(t, keys, []); }
        elements := ItemsRendered(t, cursor, keys, []);
      }
      d := ArrayFound(t, start, cursor, keys, elements);
    } else {
      ScalarTurn(t, start, keys);
      d := ScalarRendered(t, start, keys);
    }
  }

  lemma OkStarts(t: string, i: nat, keys: seq<Key>)
    requires i <= |t| && ParseValue(t, i, keys).ok
    ensures SkipSpace(t, i) < |t| && !IsSpace(t[SkipSpace(t, i)])
  {
  }

  lemma ScalarTurn(t: string, i: nat, keys: seq<Key>)
    requires i < |t| && SkipSpace(t, i) == i && t[i] != '{' && t[i] != '['
    ensures ParseValue(t, i, keys) == ParseScalar(t, i, keys)
  {
  }

  lemma ObjectFound(t: string, start: nat, cursor: nat, keys: seq<Key>, pairs: Pairs) returns (d: Doc)
    requires start < |t| && t[start] == '{' && cursor == SkipSpace(t, start + 1)
    requires ValidPairs(pairs) && HasAt(t, cursor, RenderPairs(pairs))
    ensures d.ObjectDoc? && Valid(d) && HasAt(t, start, Render(d))
      && start + |Render(d)| == cursor + |RenderPairs(pairs)|
    ensures ValueIn(d) == Obj(PutAll([], pairs))
      && PostOrder(d, keys) == PairsPostOrder(pairs, keys) + Report(keys, ValueIn(d))
    ensures pairs.NoPairs? ==> ValueIn(d) == Obj([]) && PostOrder(d, keys) == Report(keys, Obj([]))
  {
    hide *;
    var pad := t[start + 1..cursor];
    d := ObjectDoc(pad, pairs);
    ObjectParts(d, keys);
    SkippedIsPadding(t, start + 1);
    HasAtChar(t, start, '{');
    HasAtSplit(t, start + 1, pad, RenderPairs(pairs));
    HasAtSplit(t, start, "{", pad + RenderPairs(pairs));
  }

  lemma ObjectParts(d: Doc, keys: seq<Key>)
    requires d.ObjectDoc?
    ensures Render(d) == "{" + (d.pad + RenderPairs(d.pairs))
    ensures Valid(d) <==> AllSpace(d.pad) && ValidPairs(d.pairs)
    ensures ValueIn(d) == Obj(PutAll([], d.pairs))
    ensures PostOrder(d, keys) == PairsPostOrder(d.pairs, keys) + Report(keys, ValueIn(d))
    ensures d.pairs.NoPairs? ==> ValueIn(d) == Obj([]) && PostOrder(d, keys) == Report(keys, Obj([]))
  {
    hide AllSpace, Report, RenderPairs, ValidPairs;
    assert [] + Report(keys, Obj([])) == Report(keys, Obj([]));
  }

  lemma ArrayFound(t: string, start: nat, cursor: nat, keys: seq<Key>, elements: Elements) returns (d: Doc)
    requires start < |t| && t[start] == '[' && cursor == SkipSpace(t, start + 1)
    requires ValidElements(elements) && HasAt(t, cursor, RenderElements(elements))
    ensures d.ArrayDoc? && Valid(d) && HasAt(t, start, Render(d))
      && start + |Render(d)| == cursor + |RenderElements(elements)|
    ensures ValueIn(d) == Arr([] + ItemsIn(elements))
    ensures PostOrder(d, keys) == ElementsPostOrder(elements, keys, 0) + Report(keys, ValueIn(d))
    ensures elements.NoElements? ==> ValueIn(d) == Arr([]) && PostOrder(d, keys) == Report(keys, Arr([]))
  {
    hide *;
    var pad := t[start + 1..cursor];
    d := ArrayDoc(pad, elements);
    ArrayParts(d, keys);
    SkippedIsPadding(t, start + 1);
    HasAtChar(t, start, '[');
    HasAtSplit(t, start + 1, pad, RenderElements(elements));
    HasAtSplit(t, start, "[", pad + RenderElements(elements));
  }

  lemma ArrayParts(d: Doc, keys: seq<Key>)
    requires d.ArrayDoc?
    ensures Render(d) == "[" + (d.pad + RenderElements(d.elements))
    ensures Valid(d) <==> AllSpace(d.pad) && ValidElements(d.elements)
    ensures ValueIn(d) == Arr([] + ItemsIn(d.elements))
    ensures PostOrder(d, keys) == ElementsPostOrder(d.elements, keys, 0) + Report(keys, ValueIn(d))
    ensures d.elements.NoElements? ==> ValueIn(d) == Arr([]) && PostOrder(d, keys) == Report(keys, Arr([]))
  {
    hide AllSpace, Report, RenderElements, ValidElements;
    assert [] + ItemsIn(d.elements) == ItemsIn(d.elements);
    assert [] + Report(keys, Arr([])) == Report(keys, Arr([]));
  }
}
