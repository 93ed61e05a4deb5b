/**
  Repair undoes widening: whatever structural punctuation and string delimiters of a rendering are replaced
  by full-width or curly forms, repair gives the rendering back.
 */
module RepairWidening {
  import opened Chars
  import opened Tokens
  import opened Documents
  import opened Repair

  function Keeps(n: nat): (r: seq<bool>)
    ensures |r| == n && forall i :: 0 <= i < n ==> !r[i]
  {
    seq(n, i => false)
  }

  /** Which characters of a rendering are structure: punctuation and string delimiters. */
  function Marks(d: Doc): (r: seq<bool>)
    ensures |r| == |Render(d)|
  {
    match d
    case TextDoc(body) => QuoteMarks(body)
    case NumberDoc(lexeme) => Keeps(|lexeme|)
    case WordDoc(lexeme) => Keeps(|lexeme|)
    case ObjectDoc(pad, pairs) => [true] + (Keeps(|pad|) + PairsMarks(pairs))
    case ArrayDoc(pad, elements) => [true] + (Keeps(|pad|) + ElementsMarks(elements))
  }

  function QuoteMarks(body: string): (r: seq<bool>)
    ensures |r| == |Quote(body)|
  {
    [true] + (Keeps(|body|) + [true])
  }

  function PairsMarks(ps: Pairs): (r: seq<bool>)
    ensures |r| == |RenderPairs(ps)|
  {
    match ps
    case NoPairs => [true]
    case Pair(key, beforeColon, afterColon, value, afterValue, afterComma, rest) =>
      QuoteMarks(key) + (Keeps(|beforeColon|) + ([true] + (Keeps(|afterColon|) + (Marks(value) + (Keeps(|afterValue|) +
        (if rest.NoPairs? then PairsMarks(rest) else [true] + (Keeps(|afterComma|) + PairsMarks(rest))))))))
  }

  function ElementsMarks(es: Elements): (r: seq<bool>)
    ensures |r| == |RenderElements(es)|
  {
    match es
    case NoElements => [true]
    case Element(value, afterValue, afterComma, rest) =>
      Marks(value) + (Keeps(|afterValue|) +
        (if rest.NoElements? then ElementsMarks(rest) else [true] + (Keeps(|afterComma|) + ElementsMarks(rest))))
  }

  /** The wide characters, each with the character it stands for: punctuation, then double and single quotes. */
  const WIDE_FORMS: seq<(char, char)> := [
    ('\U{FF1A}', ':'), ('\U{FF0C}', ','), ('\U{FF5B}', '{'), ('\U{FF5D}', '}'), ('\U{FF3B}', '['), ('\U{FF3D}', ']'),
    ('\U{201C}', '\"'), ('\U{201D}', '\"'), ('\U{FF02}', '\"'),
    ('\U{2018}', '\''), ('\U{2019}', '\''), ('\U{FF07}', '\'')]

  /** `wide` is `c` itself or one of its wide forms. */
  predicate FormOf(wide: char, c: char) { wide == c || (wide, c) in WIDE_FORMS }

  predicate WideQuote(c: char) { (c, '\"') in WIDE_FORMS }

  /** What comes after a key is a colon, what comes after a value is a comma or a closer; the text may end there. */
  predicate MayFollow(next: Option<char>, role: Role) {
    match next
    case None => role == Value
    case Some(c) => if role == Key then FormOf(c, ':') else FormOf(c, ',') || FormOf(c, '}') || FormOf(c, ']')
  }

  /** No curly or full-width quote of the string is followed, after spaces, by what would let it close. */
  predicate SafeContent(body: string, role: Role) {
    forall k :: 0 <= k < |body| && WideQuote(body[k]) ==> !MayFollow(NextVisible(body + "\"", k + 1), role)
  }

  /** The table is the one of the automaton, in both directions. */
  lemma FormsAreAscii(c: char, d: char)
    ensures (c, d) in WIDE_FORMS <==> c != d && Ascii(c) == d
  {
  }

  lemma FollowMeans(next: Option<char>, role: Role)
    ensures MayFollow(next, role) <==> CanClose(next, role)
  {
    if next.Some? {
      FormsAreAscii(next.value, ':');
      FormsAreAscii(next.value, ',');
      FormsAreAscii(next.value, '}');
      FormsAreAscii(next.value, ']');
      hide WIDE_FORMS;
    }
  }

  /** Every string of the document is safe in its role. */
  predicate SafeTexts(d: Doc) {
    match d
    case TextDoc(body) => SafeContent(body, Value)
    case NumberDoc(_) => true
    case WordDoc(_) => true
    case ObjectDoc(_, pairs) => SafePairs(pairs)
    case ArrayDoc(_, elements) => SafeElements(elements)
  }

  predicate SafePairs(ps: Pairs) {
    match ps
    case NoPairs => true
    case Pair(key, _, _, value, _, _, rest) => SafeContent(key, Key) && SafeTexts(value) && SafePairs(rest)
  }

  predicate SafeElements(es: Elements) {
    match es
    case NoElements => true
    case Element(value, _, _, rest) => SafeTexts(value) && SafeElements(rest)
  }

  // One turn at a time.

  /** A run of characters that each leave the state alone is kept. */
  lemma {:induction false} RunKept(t: string, i: nat, j: nat, s: State)
    requires i <= j <= |t| && Ok(s)
    requires forall k :: i <= k < j ==> TakeTurn(s, t[k], NextVisible(t, k + 1)) == Turn(s, true, false)
    ensures Rewrites(t, i, s) == Keeps(j - i) + Rewrites(t, j, s)
    decreases j - i
  {
    hide *;
    if i < j {
      RewritesTurn(t, i, s);
      RunKept(t, i + 1, j, s);
      assert Keeps(j - i) == [false] + Keeps(j - i - 1);
    }
  }

  lemma SpaceTurns(contexts: seq<Context>, c: char, next: Option<char>)
    requires IsSpace(c) && Ok(State(contexts, Plain))
    ensures var s := State(contexts, Plain); TakeTurn(s, c, next) == Turn(s, true, false)
  {
  }

  lemma SpacesKept(t: string, i: nat, pad: string, contexts: seq<Context>)
    requires HasAt(t, i, pad) && AllSpace(pad) && Ok(State(contexts, Plain))
    ensures var s := State(contexts, Plain); Rewrites(t, i, s) == Keeps(|pad|) + Rewrites(t, i + |pad|, s)
  {
    hide Rewrites, TakeTurn, NextVisible, IsSpace, Ok;
    var s, j := State(contexts, Plain), i + |pad|;
    forall k | i <= k < j ensures TakeTurn(s, t[k], NextVisible(t, k + 1)) == Turn(s, true, false) {
      assert t[k] == t[i..j][k - i] == pad[k - i];
      SpaceTurns(contexts, t[k], NextVisible(t, k + 1));
    }
    RunKept(t, i, j, s);
  }

  lemma LexemeCharTurns(s: State, c: char, next: Option<char>)
    requires LexemeChar(c) && Ok(s)
    ensures s.mode == InPrimitive(Value) ==> TakeTurn(s, c, next) == Turn(s, true, false)
    ensures s.mode.Plain? && Awaits(Top(s.contexts), Value) ==>
              TakeTurn(s, c, next) == Turn(s.(mode := InPrimitive(Value)), true, false)
  {
    assert Normalized(c) == c && !IsSpace(c) && !QuoteVariant(c, '\"') && !QuoteVariant(c, '\'');
  }

  /** What may follow a value: the end, or a comma or closer after spaces. */
  predicate Follows(t: string, i: nat)
    requires i <= |t|
  {
    CanClose(NextVisible(t, i), Value)
  }

  /** A pending primitive ends at whatever may follow a value. */
  lemma PrimitiveSettles(t: string, i: nat, contexts: seq<Context>)
    requires i <= |t| && Follows(t, i) && Ok(State(contexts, InPrimitive(Value)))
    ensures Rewrites(t, i, State(contexts, InPrimitive(Value))) == Rewrites(t, i, State(MarkCompleted(contexts), Plain))
  {
  }

  lemma LexemeRewritten(t: string, i: nat, lexeme: string, contexts: seq<Context>)
    requires HasAt(t, i, lexeme) && lexeme != "" && forall k :: 0 <= k < |lexeme| ==> LexemeChar(lexeme[k])
    requires Ok(State(contexts, Plain)) && Awaits(Top(contexts), Value) && Follows(t, i + |lexeme|)
    ensures Rewrites(t, i, State(contexts, Plain))
              == Keeps(|lexeme|) + Rewrites(t, i + |lexeme|, State(MarkCompleted(contexts), Plain))
  {
    hide *;
    var e, inside := i + |lexeme|, State(contexts, InPrimitive(Value));
    HasAtFits(t, i, lexeme);
    InsideOk(contexts);
    forall k | i <= k < e
      ensures LexemeChar(t[k])
      ensures TakeTurn(inside, t[k], NextVisible(t, k + 1)) == Turn(inside, true, false)
    {
      HasAtIndex(t, i, lexeme, k - i);
      LexemeCharTurns(inside, t[k], NextVisible(t, k + 1));
    }
    LexemeCharTurns(State(contexts, Plain), t[i], NextVisible(t, i + 1));
    RewritesTurn(t, i, State(contexts, Plain));
    RunKept(t, i + 1, e, inside);
    PrimitiveSettles(t, e, contexts);
    KeepsJoin(|lexeme|, Rewrites(t, e, State(MarkCompleted(contexts), Plain)));
  }

  lemma InsideOk(contexts: seq<Context>)
    requires Ok(State(contexts, Plain))
    ensures |contexts| >= 1 && (Awaits(Top(contexts), Value) ==> Ok(State(contexts, InPrimitive(Value))))
    ensures Ok(State(MarkCompleted(contexts), Plain))
  {
  }

  lemma KeepsJoin(n: nat, tail: seq<bool>)
    requires n > 0
    ensures [false] + (Keeps(n - 1) + tail) == Keeps(n) + tail
  {
    assert Keeps(n) == [false] + Keeps(n - 1);
  }

  lemma QuoteMarksJoin(body: string, tail: seq<bool>)
    ensures [true] + (Keeps(|body|) + ([true] + tail)) == QuoteMarks(body) + tail
  {
  }

  // Strings.

  lemma ContentTurns(contexts: seq<Context>, role: Role, c: char, next: Option<char>)
    requires Ok(State(contexts, InString('\"', role, false)))
    ensures var s := State(contexts, InString('\"', role, false));
            && (c != '\"' && c != '\\' && (WideQuote(c) ==> !CanClose(next, role)) ==>
              TakeTurn(s, c, next) == Turn(s, true, false))
            && (c == '\\' ==> TakeTurn(s, c, next) == Turn(State(contexts, InString('\"', role, true)), true, false))
            && TakeTurn(State(contexts, InString('\"', role, true)), c, next) == Turn(s, true, false)
  {
  }

  /** An escape is kept: the backslash, what it escapes, and the digits of a code point. */
  lemma EscapeKept(t: string, i: nat, step: nat, contexts: seq<Context>, role: Role)
    requires i + 2 <= i + step <= |t| && t[i] == '\\'
    requires forall k :: i + 2 <= k < i + step ==> HexDigit(t[k])
    requires Ok(State(contexts, InString('\"', role, false)))
    ensures var s := State(contexts, InString('\"', role, false));
            Rewrites(t, i, s) == Keeps(step) + Rewrites(t, i + step, s)
  {
    hide *;
    var s, escaped := State(contexts, InString('\"', role, false)), State(contexts, InString('\"', role, true));
    ContentTurns(contexts, role, t[i], NextVisible(t, i + 1));
    RewritesTurn(t, i, s);
    ContentTurns(contexts, role, t[i + 1], NextVisible(t, i + 2));
    RewritesTurn(t, i + 1, escaped);
    forall k | i + 2 <= k < i + step ensures TakeTurn(s, t[k], NextVisible(t, k + 1)) == Turn(s, true, false) {
      HexIsPlain(t[k]);
      ContentTurns(contexts, role, t[k], NextVisible(t, k + 1));
    }
    RunKept(t, i + 2, i + step, s);
    KeepsJoin(step - 1, Rewrites(t, i + step, s));
    KeepsJoin(step, Rewrites(t, i + step, s));
  }

  /** String contents are kept, character by character. */
  lemma {:induction false} ContentKept(t: string, i: nat, contexts: seq<Context>, role: Role)
    requires i <= |t| && StringEnd(t, i).Some?
    requires forall k :: i <= k < StringEnd(t, i).value && WideQuote(t[k]) ==> !CanClose(NextVisible(t, k + 1), role)
    requires Ok(State(contexts, InString('\"', role, false)))
    ensures var s, e := State(contexts, InString('\"', role, false)), StringEnd(t, i).value - 1;
            Rewrites(t, i, s) == Keeps(e - i) + Rewrites(t, e, s)
    decreases |t| - i
  {
    hide Rewrites, TakeTurn, NextVisible, WideQuote, Ok, IsSpace, CanClose;
    var s, e := State(contexts, InString('\"', role, false)), StringEnd(t, i).value - 1;
    if t[i] != '\"' {
      var step := if t[i] != '\\' then 1 else if SimpleEscape(t[i + 1]) then 2 else 6;
      assert StringEnd(t, i) == StringEnd(t, i + step);
      if step == 1 {
        ContentTurns(contexts, role, t[i], NextVisible(t, i + 1));
        RewritesTurn(t, i, s);
      } else {
        EscapeKept(t, i, step, contexts, role);
      }
      ContentKept(t, i + step, contexts, role);
      assert Keeps(e - i) == Keeps(step) + Keeps(e - i - step);
      if step == 1 { assert Keeps(1) == [false]; }
    }
  }

  function After(contexts: seq<Context>, role: Role): seq<Context>
    requires |contexts| >= 1
  {
    if role == Key then SetPhase(contexts, Colon) else MarkCompleted(contexts)
  }

  lemma QuoteTurns(contexts: seq<Context>, role: Role, next: Option<char>)
    requires Ok(State(contexts, Plain)) && Awaits(Top(contexts), role)
    ensures Ok(State(contexts, InString('\"', role, false))) && Ok(State(After(contexts, role), Plain))
    ensures var inside := State(contexts, InString('\"', role, false));
            && TakeTurn(State(contexts, Plain), '\"', next) == Turn(inside, true, true)
            && (CanClose(next, role) ==>
              TakeTurn(inside, '\"', next) == Turn(State(After(contexts, role), Plain), true, true))
  {
  }

  lemma SpaceStops(t: string, i: nat, j: nat)
    requires i <= j < |t| && !IsSpace(t[j])
    ensures SkipSpace(t, i) <= j
    decreases j - i
  {
    if IsSpace(t[i]) { SpaceStops(t, i + 1, j); }
  }

  /** What is seen next from inside a string does not depend on what follows the string. */
  lemma VisibleInside(t: string, i: nat, body: string, k: nat)
    requires HasAt(t, i, body + "\"") && k <= |body|
    ensures i + k <= |t| && NextVisible(t, i + k) == NextVisible(body + "\"", k)
  {
    var u := body + "\"";
    var j := SkipSpace(u, k);
    SpaceStops(u, k, |body|);
    forall m | 0 <= m <= |body| ensures t[i + m] == u[m] {
      assert t[i..i + |u|][m] == t[i + m];
    }
    assert t[i + k..i + j] == u[k..j];
    SkipSpaceUnique(t, i + k, i + j);
  }

  lemma SafeAt(t: string, i: nat, body: string, role: Role, k: nat)
    requires HasAt(t, i, body + "\"") && SafeContent(body, role) && i <= k < i + |body| + 1 && WideQuote(t[k])
    ensures !CanClose(NextVisible(t, k + 1), role)
  {
    assert t[i..i + |body| + 1][k - i] == t[k] == (body + "\"")[k - i];
    if k == i + |body| { StraightIsNotWide(); } else { VisibleInside(t, i, body, k - i + 1); }
  }

  /** A quoted string is rewritten at its two quotes, when what follows lets it close. */
  lemma QuoteRewritten(t: string, i: nat, body: string, contexts: seq<Context>, role: Role)
    requires HasAt(t, i, Quote(body)) && StringBody(body) && SafeContent(body, role)
    requires Ok(State(contexts, Plain)) && Awaits(Top(contexts), role)
    requires CanClose(NextVisible(t, i + |Quote(body)|), role)
    ensures Ok(State(After(contexts, role), Plain))
    ensures Rewrites(t, i, State(contexts, Plain))
              == QuoteMarks(body) + Rewrites(t, i + |Quote(body)|, State(After(contexts, role), Plain))
  {
    hide *;
    QuoteLayout(t, i, body);
    var e := i + 1 + |body|;
    QuoteFits(body);
    forall k | i + 1 <= k < e + 1 && WideQuote(t[k]) ensures !CanClose(NextVisible(t, k + 1), role) {
      SafeAt(t, i + 1, body, role, k);
    }
    QuoteTurns(contexts, role, NextVisible(t, i + 1));
    RewritesTurn(t, i, State(contexts, Plain));
    ContentKept(t, i + 1, contexts, role);
    QuoteTurns(contexts, role, NextVisible(t, e + 1));
    RewritesTurn(t, e, State(contexts, InString('\"', role, false)));
    InsideOk(contexts);
    QuoteMarksJoin(body, Rewrites(t, e + 1, State(After(contexts, role), Plain)));
  }

  lemma QuoteFits(body: string)
    ensures |Quote(body)| == |body| + 2
  {
  }

  lemma StraightIsNotWide()
    ensures !WideQuote('\"')
  {
  }

  lemma HexIsPlain(c: char)
    requires HexDigit(c)
    ensures !WideQuote(c) && c != '\"' && c != '\\'
  {
  }

  // Punctuation.

  lemma OpenerTurns(contexts: seq<Context>, next: Option<char>)
    requires Ok(State(contexts, Plain)) && Awaits(Top(contexts), Value)
    ensures Ok(State(contexts + [Context(ObjectContainer, KeyOrEnd)], Plain))
    ensures Ok(State(contexts + [Context(ArrayContainer, ValueOrEnd)], Plain))
    ensures TakeTurn(State(contexts, Plain), '{', next)
              == Turn(State(contexts + [Context(ObjectContainer, KeyOrEnd)], Plain), true, true)
    ensures TakeTurn(State(contexts, Plain), '[', next)
              == Turn(State(contexts + [Context(ArrayContainer, ValueOrEnd)], Plain), true, true)
  {
  }

  function In(outer: seq<Context>, container: Container, phase: Phase): (r: State)
    ensures r.mode == Plain && |r.contexts| == |outer| + 1
  {
    State(outer + [Context(container, phase)], Plain)
  }

  lemma CloserTurns(outer: seq<Context>, container: Container, phase: Phase, next: Option<char>)
    requires Ok(State(outer, Plain)) && !container.RootContainer? && ContextOk(Context(container, phase))
    requires phase == KeyOrEnd || phase == CommaOrEnd || phase == ValueOrEnd
    ensures Ok(In(outer, container, phase)) && Ok(State(MarkCompleted(outer), Plain))
    ensures TakeTurn(In(outer, container, phase), if container.ObjectContainer? then '}' else ']', next)
              == Turn(State(MarkCompleted(outer), Plain), true, true)
  {
    assert (outer + [Context(container, phase)])[..|outer|] == outer;
  }

  lemma ColonTurns(outer: seq<Context>, next: Option<char>)
    requires Ok(State(outer, Plain))
    ensures Ok(In(outer, ObjectContainer, Colon)) && Ok(In(outer, ObjectContainer, ValueNext))
    ensures TakeTurn(In(outer, ObjectContainer, Colon), ':', next)
      == Turn(In(outer, ObjectContainer, ValueNext), true, true)
  {
  }

  lemma CommaTurns(outer: seq<Context>, container: Container, next: Option<char>)
    requires Ok(State(outer, Plain)) && !container.RootContainer?
    ensures var again := In(outer, container, if container.ObjectContainer? then KeyOrEnd else ValueOrEnd);
            && Ok(In(outer, container, CommaOrEnd)) && Ok(again)
            && TakeTurn(In(outer, container, CommaOrEnd), ',', next) == Turn(again, true, true)
  {
  }

  lemma VisibleAfter(t: string, i: nat, pad: string, c: char)
    requires HasAt(t, i, pad) && AllSpace(pad) && HasAt(t, i + |pad|, [c]) && !IsSpace(c)
    ensures NextVisible(t, i) == Some(c)
  {
    SkipPadding(t, i, pad);
    HasAtChar(t, i + |pad|, c);
  }

  // The induction over a document, with what follows it as the continuation.

  lemma {:induction false} DocRewritten(d: Doc, t: string, i: nat, contexts: seq<Context>)
    requires HasAt(t, i, Render(d)) && Valid(d) && SafeTexts(d)
    requires Ok(State(contexts, Plain)) && Awaits(Top(contexts), Value)
    requires d.ObjectDoc? || d.ArrayDoc? || Follows(t, i + |Render(d)|)
    ensures Ok(State(MarkCompleted(contexts), Plain))
    ensures Rewrites(t, i, State(contexts, Plain))
              == Marks(d) + Rewrites(t, i + |Render(d)|, State(MarkCompleted(contexts), Plain))
    decreases d
  {
    hide *;
    OkNonEmpty(State(contexts, Plain));
    CompletedOk(contexts);
    DocParts(d);
    match d
    case TextDoc(body) =>
      HasAtFits(t, i, Quote(body));
      FollowsCloses(t, i + |Quote(body)|);
      QuoteRewritten(t, i, body, contexts, Value);
    case NumberDoc(lexeme) =>
      LexemesAreLexemes(lexeme);
      LexemeRewritten(t, i, lexeme, contexts);
    case WordDoc(lexeme) =>
      LexemesAreLexemes(lexeme);
      LexemeRewritten(t, i, lexeme, contexts);
    case ObjectDoc(pad, pairs) =>
      OpeningRewritten(t, i, '{', pad, RenderPairs(pairs), contexts);
      PairsRewritten(pairs, t, i + 1 + |pad|, contexts, KeyOrEnd);
    case ArrayDoc(pad, elements) =>
      OpeningRewritten(t, i, '[', pad, RenderElements(elements), contexts);
      ElementsRewritten(elements, t, i + 1 + |pad|, contexts, ValueOrEnd);
  }

  lemma FollowsCloses(t: string, i: nat)
    requires i <= |t| && Follows(t, i)
    ensures CanClose(NextVisible(t, i), Value)
  {
  }

  /** The definitions for one document, unfolded once. */
  lemma DocParts(d: Doc)
    requires Valid(d)
    ensures d.TextDoc? ==> Render(d) == Quote(d.body) && Marks(d) == QuoteMarks(d.body) && StringBody(d.body)
    ensures d.TextDoc? ==> (SafeTexts(d) <==> SafeContent(d.body, Value))
    ensures d.TextDoc? ==> forall contexts :: |contexts| >= 1 ==> After(contexts, Value) == MarkCompleted(contexts)
    ensures d.NumberDoc? ==>
      Render(d) == d.lexeme && Marks(d) == Keeps(|d.lexeme|) && NumberLexeme(d.lexeme) && SafeTexts(d)
    ensures d.WordDoc? ==>
      Render(d) == d.lexeme && Marks(d) == Keeps(|d.lexeme|) && WordLexeme(d.lexeme) && SafeTexts(d)
    ensures d.ObjectDoc? ==>
      && Render(d) == ['{'] + (d.pad + RenderPairs(d.pairs))
        && Marks(d) == [true] + (Keeps(|d.pad|) + PairsMarks(d.pairs))
      && AllSpace(d.pad) && ValidPairs(d.pairs) && (SafeTexts(d) <==> SafePairs(d.pairs))
    ensures d.ArrayDoc? ==>
      && Render(d) == ['['] + (d.pad + RenderElements(d.elements))
        && Marks(d) == [true] + (Keeps(|d.pad|) + ElementsMarks(d.elements))
      && AllSpace(d.pad) && ValidElements(d.elements) && (SafeTexts(d) <==> SafeElements(d.elements))
  {
  }

  lemma PairParts(ps: Pairs, i: nat)
    requires ps.Pair? && ValidPairs(ps)
    ensures PairsMarks(ps) == QuoteMarks(ps.key) + (Keeps(|ps.beforeColon|) + ([true] + (Keeps(|ps.afterColon|)
              + (Marks(ps.value) + (Keeps(|ps.afterValue|)
              + (if ps.rest.NoPairs? then PairsMarks(ps.rest)
                else [true] + (Keeps(|ps.afterComma|) + PairsMarks(ps.rest))))))))
    ensures StringBody(ps.key) && Valid(ps.value) && ValidPairs(ps.rest)
    ensures AllSpace(ps.beforeColon) && AllSpace(ps.afterColon) && AllSpace(ps.afterValue) && AllSpace(ps.afterComma)
    ensures SafePairs(ps) <==> SafeContent(ps.key, Key) && SafeTexts(ps.value) && SafePairs(ps.rest)
    ensures ColonOf(ps, i) == i + |Quote(ps.key)| + |ps.beforeColon|
    ensures ValueOf(ps, i) == ColonOf(ps, i) + 1 + |ps.afterColon|
    ensures SeparatorOf(ps, i) == ValueOf(ps, i) + |Render(ps.value)| + |ps.afterValue|
    ensures RestOf(ps, i) == if ps.rest.NoPairs? then SeparatorOf(ps, i) else SeparatorOf(ps, i) + 1 + |ps.afterComma|
  {
  }

  lemma ElementParts(es: Elements, i: nat)
    requires es.Element? && ValidElements(es)
    ensures ElementsMarks(es) == Marks(es.value) + (Keeps(|es.afterValue|)
              + (if es.rest.NoElements? then ElementsMarks(es.rest)
                else [true] + (Keeps(|es.afterComma|) + ElementsMarks(es.rest))))
    ensures Valid(es.value) && ValidElements(es.rest) && AllSpace(es.afterValue) && AllSpace(es.afterComma)
    ensures SafeElements(es) <==> SafeTexts(es.value) && SafeElements(es.rest)
    ensures CommaOf(es, i) == i + |Render(es.value)| + |es.afterValue|
    ensures TailOf(es, i) == if es.rest.NoElements? then CommaOf(es, i) else CommaOf(es, i) + 1 + |es.afterComma|
  {
  }

  lemma OkNonEmpty(s: State)
    requires Ok(s)
    ensures |s.contexts| >= 1
  {
  }

  lemma CompletedOk(contexts: seq<Context>)
    requires Ok(State(contexts, Plain))
    ensures Ok(State(MarkCompleted(contexts), Plain))
  {
  }

  /** A single punctuation character whose turn is known. */
  lemma PunctuationRewritten(t: string, i: nat, c: char, s: State, s': State)
    requires HasAt(t, i, [c]) && Ok(s) && forall next :: TakeTurn(s, c, next) == Turn(s', true, true)
    ensures i + 1 <= |t| && Ok(s') && Rewrites(t, i, s) == [true] + Rewrites(t, i + 1, s')
  {
    HasAtChar(t, i, c);
    hide *;
    assert TakeTurn(s, t[i], NextVisible(t, i + 1)) == Turn(s', true, true);
    RewritesTurn(t, i, s);
  }

  /** An opening bracket and the padding after it. */
  lemma OpeningRewritten(t: string, i: nat, opener: char, pad: string, rest: string, contexts: seq<Context>)
    requires opener == '{' || opener == '['
    requires HasAt(t, i, [opener] + (pad + rest)) && AllSpace(pad)
    requires Ok(State(contexts, Plain)) && Awaits(Top(contexts), Value)
    ensures HasAt(t, i + 1 + |pad|, rest) && i + 1 + |pad| <= |t|
    ensures var inner := if opener == '{' then In(contexts, ObjectContainer, KeyOrEnd)
      else In(contexts, ArrayContainer, ValueOrEnd);
            Ok(inner)
              && Rewrites(t, i, State(contexts, Plain)) == [true] + (Keeps(|pad|) + Rewrites(t, i + 1 + |pad|, inner))
  {
    hide *;
    HasAtSplit(t, i, [opener], pad + rest);
    HasAtSplit(t, i + 1, pad, rest);
    HasAtFits(t, i + 1, pad);
    OpenersTurn(contexts);
    if opener == '{' {
      OpenerRewritten(t, i, opener, pad, State(contexts, Plain), In(contexts, ObjectContainer, KeyOrEnd));
    } else {
      OpenerRewritten(t, i, opener, pad, State(contexts, Plain), In(contexts, ArrayContainer, ValueOrEnd));
    }
  }

  lemma OpenerRewritten(t: string, i: nat, c: char, pad: string, s: State, inner: State)
    requires HasAt(t, i, [c]) && i + 1 <= |t| && HasAt(t, i + 1, pad) && AllSpace(pad)
    requires Ok(s) && inner.mode == Plain && forall next :: TakeTurn(s, c, next) == Turn(inner, true, true)
    ensures Ok(inner) && i + 1 + |pad| <= |t|
    ensures Rewrites(t, i, s) == [true] + (Keeps(|pad|) + Rewrites(t, i + 1 + |pad|, inner))
  {
    hide *;
    PunctuationRewritten(t, i, c, s, inner);
    HasAtFits(t, i + 1, pad);
    SpacesKept(t, i + 1, pad, inner.contexts);
  }

  lemma OpenersTurn(contexts: seq<Context>)
    requires Ok(State(contexts, Plain)) && Awaits(Top(contexts), Value)
    ensures Ok(In(contexts, ObjectContainer, KeyOrEnd)) && Ok(In(contexts, ArrayContainer, ValueOrEnd))
    ensures forall next ::
      TakeTurn(State(contexts, Plain), '{', next) == Turn(In(contexts, ObjectContainer, KeyOrEnd), true, true)
    ensures forall next ::
      TakeTurn(State(contexts, Plain), '[', next) == Turn(In(contexts, ArrayContainer, ValueOrEnd), true, true)
  {
    hide TakeTurn;
    forall next
      ensures TakeTurn(State(contexts, Plain), '{', next) == Turn(In(contexts, ObjectContainer, KeyOrEnd), true, true)
      ensures TakeTurn(State(contexts, Plain), '[', next) == Turn(In(contexts, ArrayContainer, ValueOrEnd), true, true)
    {
      OpenerTurns(contexts, next);
    }
    OpenerTurns(contexts, None);
  }

  /** The closing bracket. */
  lemma ClosingRewritten(t: string, i: nat, outer: seq<Context>, container: Container, phase: Phase)
    requires Ok(State(outer, Plain)) && !container.RootContainer? && ContextOk(Context(container, phase))
    requires phase == KeyOrEnd || phase == CommaOrEnd || phase == ValueOrEnd
    requires HasAt(t, i, if container.ObjectContainer? then "}" else "]")
    ensures i + 1 <= |t| && Ok(In(outer, container, phase)) && Ok(State(MarkCompleted(outer), Plain))
    ensures Rewrites(t, i, In(outer, container, phase))
      == [true] + Rewrites(t, i + 1, State(MarkCompleted(outer), Plain))
  {
    hide *;
    var c := if container.ObjectContainer? then '}' else ']';
    OkNonEmpty(State(outer, Plain));
    CloserTurns(outer, container, phase, None);
    forall next
      ensures TakeTurn(In(outer, container, phase), c, next) == Turn(State(MarkCompleted(outer), Plain), true, true) {
      CloserTurns(outer, container, phase, next);
    }
    PunctuationRewritten(t, i, c, In(outer, container, phase), State(MarkCompleted(outer), Plain));
  }

  /** A comma and the padding after it. */
  lemma CommaRewritten(t: string, i: nat, pad: string, outer: seq<Context>, container: Container)
    requires Ok(State(outer, Plain)) && !container.RootContainer?
    requires HasAt(t, i, ",") && HasAt(t, i + 1, pad) && AllSpace(pad)
    ensures i + 1 + |pad| <= |t|
    ensures var again := In(outer, container, if container.ObjectContainer? then KeyOrEnd else ValueOrEnd);
            && Ok(In(outer, container, CommaOrEnd)) && Ok(again)
            && Rewrites(t, i, In(outer, container, CommaOrEnd))
              == [true] + (Keeps(|pad|) + Rewrites(t, i + 1 + |pad|, again))
  {
    hide *;
    var again := In(outer, container, if container.ObjectContainer? then KeyOrEnd else ValueOrEnd);
    HasAtFits(t, i + 1, pad);
    CommaTurns(outer, container, None);
    forall next ensures TakeTurn(In(outer, container, CommaOrEnd), ',', next) == Turn(again, true, true) {
      CommaTurns(outer, container, next);
    }
    PunctuationRewritten(t, i, ',', In(outer, container, CommaOrEnd), again);
    SpacesKept(t, i + 1, pad, again.contexts);
  }

  /** A colon and the padding after it. */
  lemma ColonRewritten(t: string, i: nat, pad: string, outer: seq<Context>)
    requires Ok(State(outer, Plain))
    requires HasAt(t, i, ":") && HasAt(t, i + 1, pad) && AllSpace(pad)
    ensures i + 1 + |pad| <= |t|
    ensures Ok(In(outer, ObjectContainer, Colon)) && Ok(In(outer, ObjectContainer, ValueNext))
    ensures Rewrites(t, i, In(outer, ObjectContainer, Colon))
              == [true] + (Keeps(|pad|) + Rewrites(t, i + 1 + |pad|, In(outer, ObjectContainer, ValueNext)))
  {
    hide *;
    HasAtFits(t, i + 1, pad);
    ColonTurns(outer, None);
    forall next
      ensures TakeTurn(In(outer, ObjectContainer, Colon), ':', next)
      == Turn(In(outer, ObjectContainer, ValueNext), true, true) {
      ColonTurns(outer, next);
    }
    PunctuationRewritten(t, i, ':', In(outer, ObjectContainer, Colon), In(outer, ObjectContainer, ValueNext));
    SpacesKept(t, i + 1, pad, In(outer, ObjectContainer, ValueNext).contexts);
  }

  lemma KeyState(outer: seq<Context>)
    requires Ok(State(outer, Plain))
    ensures Ok(In(outer, ObjectContainer, KeyOrEnd)) && Awaits(Top(In(outer, ObjectContainer, KeyOrEnd).contexts), Key)
    ensures State(After(In(outer, ObjectContainer, KeyOrEnd).contexts, Key), Plain) == In(outer, ObjectContainer, Colon)
  {
  }

  lemma KeyCloses(t: string, i: nat, pad: string)
    requires HasAt(t, i, pad) && AllSpace(pad) && HasAt(t, i + |pad|, ":")
    ensures i <= |t| && CanClose(NextVisible(t, i), Key)
  {
    VisibleAfter(t, i, pad, ':');
  }

  /** A key with its colon and the padding around it. */
  lemma KeyRewritten(ps: Pairs, t: string, i: nat, outer: seq<Context>)
    requires ps.Pair? && HasAt(t, i, RenderPairs(ps)) && ValidPairs(ps) && SafeContent(ps.key, Key)
    requires Ok(State(outer, Plain))
    ensures ValueOf(ps, i) <= |t| && Ok(In(outer, ObjectContainer, KeyOrEnd))
      && Ok(In(outer, ObjectContainer, ValueNext))
    ensures Rewrites(t, i, In(outer, ObjectContainer, KeyOrEnd))
              == QuoteMarks(ps.key) + (Keeps(|ps.beforeColon|) + ([true] + (Keeps(|ps.afterColon|)
                 + Rewrites(t, ValueOf(ps, i), In(outer, ObjectContainer, ValueNext)))))
  {
    hide *;
    PairLayout(ps, t, i);
    PairParts(ps, i);
    var k, colon := i + |Quote(ps.key)|, ColonOf(ps, i);
    KeyState(outer);
    KeyCloses(t, k, ps.beforeColon);
    QuoteRewritten(t, i, ps.key, In(outer, ObjectContainer, KeyOrEnd).contexts, Key);
    SpacesKept(t, k, ps.beforeColon, In(outer, ObjectContainer, Colon).contexts);
    ColonRewritten(t, colon, ps.afterColon, outer);
  }

  lemma NothingLeft()
    ensures RenderPairs(NoPairs) == "}" && PairsMarks(NoPairs) == [true]
    ensures RenderElements(NoElements) == "]" && ElementsMarks(NoElements) == [true]
  {
  }

  lemma ObjectPhaseOk(phase: Phase)
    ensures phase == KeyOrEnd || phase == CommaOrEnd ==> ContextOk(Context(ObjectContainer, phase))
    ensures phase == ValueOrEnd || phase == CommaOrEnd ==> ContextOk(Context(ArrayContainer, phase))
    ensures ContextOk(Context(ObjectContainer, ValueNext))
  {
  }

  /** A value inside a container, and the padding after it. */
  lemma ValueState(outer: seq<Context>, container: Container, phase: Phase)
    requires Ok(State(outer, Plain)) && !container.RootContainer? && ContextOk(Context(container, phase))
    requires phase == ValueNext || phase == ValueOrEnd
    ensures Ok(In(outer, container, phase)) && Awaits(Top(In(outer, container, phase).contexts), Value)
    ensures State(MarkCompleted(In(outer, container, phase).contexts), Plain) == In(outer, container, CommaOrEnd)
    ensures Ok(In(outer, container, CommaOrEnd))
  {
  }

  lemma ValueFollows(t: string, i: nat, pad: string, separator: string)
    requires HasAt(t, i, pad) && AllSpace(pad) && HasAt(t, i + |pad|, separator)
    requires separator == "," || separator == "}" || separator == "]"
    ensures i <= |t| && Follows(t, i)
  {
    VisibleAfter(t, i, pad, separator[0]);
  }

  lemma {:induction false} PairsRewritten(ps: Pairs, t: string, i: nat, outer: seq<Context>, phase: Phase)
    requires HasAt(t, i, RenderPairs(ps)) && ValidPairs(ps) && SafePairs(ps)
    requires Ok(State(outer, Plain)) && (phase == KeyOrEnd || (phase == CommaOrEnd && ps.NoPairs?))
    ensures Ok(In(outer, ObjectContainer, phase)) && Ok(State(MarkCompleted(outer), Plain))
    ensures Rewrites(t, i, In(outer, ObjectContainer, phase))
              == PairsMarks(ps) + Rewrites(t, i + |RenderPairs(ps)|, State(MarkCompleted(outer), Plain))
    decreases ps
  {
    hide *;
    if ps.NoPairs? {
      NothingLeft();
      ObjectPhaseOk(phase);
      ClosingRewritten(t, i, outer, ObjectContainer, phase);
    } else {
      PairLayout(ps, t, i);
      PairParts(ps, i);
      var value, after, separator := ValueOf(ps, i), ValueOf(ps, i) + |Render(ps.value)|, SeparatorOf(ps, i);
      KeyRewritten(ps, t, i, outer);
      ObjectPhaseOk(ValueNext);
      ValueState(outer, ObjectContainer, ValueNext);
      ValueFollows(t, after, ps.afterValue, if ps.rest.NoPairs? then "}" else ",");
      DocRewritten(ps.value, t, value, In(outer, ObjectContainer, ValueNext).contexts);
      SpacesKept(t, after, ps.afterValue, In(outer, ObjectContainer, CommaOrEnd).contexts);
      if ps.rest.Pair? { CommaRewritten(t, separator, ps.afterComma, outer, ObjectContainer); }
      PairsRewritten(ps.rest, t, RestOf(ps, i), outer, if ps.rest.NoPairs? then CommaOrEnd else KeyOrEnd);
    }
  }

  /** The rewrites of an element, its separator and the elements behind it, put together. */
  lemma ElementJoined(es: Elements, t: string, i: nat, outer: seq<Context>)
    requires es.Element? && ValidElements(es) && Ok(State(outer, Plain)) && |outer| >= 1
    requires Ok(In(outer, ArrayContainer, ValueOrEnd)) && Ok(In(outer, ArrayContainer, CommaOrEnd))
    requires Ok(State(MarkCompleted(outer), Plain))
    requires var after := i + |Render(es.value)|;
      && after <= |t| && CommaOf(es, i) <= |t| && TailOf(es, i) <= |t| && i + |RenderElements(es)| <= |t|
      && Rewrites(t, i, In(outer, ArrayContainer, ValueOrEnd))
        == Marks(es.value) + Rewrites(t, after, In(outer, ArrayContainer, CommaOrEnd))
      && Rewrites(t, after, In(outer, ArrayContainer, CommaOrEnd))
        == Keeps(|es.afterValue|) + Rewrites(t, CommaOf(es, i), In(outer, ArrayContainer, CommaOrEnd))
    requires es.rest.Element? ==>
      Rewrites(t, CommaOf(es, i), In(outer, ArrayContainer, CommaOrEnd))
        == [true] + (Keeps(|es.afterComma|) + Rewrites(t, TailOf(es, i), In(outer, ArrayContainer, ValueOrEnd)))
    requires var phase := if es.rest.NoElements? then CommaOrEnd else ValueOrEnd;
      Rewrites(t, TailOf(es, i), In(outer, ArrayContainer, phase))
        == ElementsMarks(es.rest) + Rewrites(t, i + |RenderElements(es)|, State(MarkCompleted(outer), Plain))
    ensures Rewrites(t, i, In(outer, ArrayContainer, ValueOrEnd))
      == ElementsMarks(es) + Rewrites(t, i + |RenderElements(es)|, State(MarkCompleted(outer), Plain))
  {
    hide *;
    ElementParts(es, i);
  }

  lemma {:induction false} ElementsRewritten(es: Elements, t: string, i: nat, outer: seq<Context>, phase: Phase)
    requires HasAt(t, i, RenderElements(es)) && ValidElements(es) && SafeElements(es)
    requires Ok(State(outer, Plain)) && (phase == ValueOrEnd || (phase == CommaOrEnd && es.NoElements?))
    ensures Ok(In(outer, ArrayContainer, phase)) && Ok(State(MarkCompleted(outer), Plain))
    ensures Rewrites(t, i, In(outer, ArrayContainer, phase))
              == ElementsMarks(es) + Rewrites(t, i + |RenderElements(es)|, State(MarkCompleted(outer), Plain))
    decreases es
  {
    hide *;
    if es.NoElements? {
      NothingLeft();
      ObjectPhaseOk(phase);
      ClosingRewritten(t, i, outer, ArrayContainer, phase);
    } else {
      ElementLayout(es, t, i);
      ElementParts(es, i);
      var after, separator := i + |Render(es.value)|, CommaOf(es, i);
      ObjectPhaseOk(ValueOrEnd);
      ValueState(outer, ArrayContainer, ValueOrEnd);
      ValueFollows(t, after, es.afterValue, if es.rest.NoElements? then "]" else ",");
      DocRewritten(es.value, t, i, In(outer, ArrayContainer, ValueOrEnd).contexts);
      SpacesKept(t, after, es.afterValue, In(outer, ArrayContainer, CommaOrEnd).contexts);
      if es.rest.Element? { CommaRewritten(t, separator, es.afterComma, outer, ArrayContainer); }
      ElementsRewritten(es.rest, t, TailOf(es, i), outer, if es.rest.NoElements? then CommaOrEnd else ValueOrEnd);
      OkNonEmpty(State(outer, Plain));
      ElementJoined(es, t, i, outer);
    }
  }

  /** `w` is `r` with some marked characters replaced by wide forms of them. */
  ghost predicate Widened(w: string, r: string, marks: seq<bool>)
    requires |marks| == |r|
  {
    |w| == |r| && forall i :: 0 <= i < |r| ==> w[i] == r[i] || (marks[i] && (w[i], r[i]) in WIDE_FORMS)
  }

  /** Whatever the text, repair only ever turns a wide form into the character it stands for. */
  lemma OnlyWideFormsChange(t: string, i: nat)
    requires i < |t|
    ensures |Repaired(t)| == |t| && (Repaired(t)[i] == t[i] || (t[i], Repaired(t)[i]) in WIDE_FORMS)
  {
    FormsAreAscii(t[i], Ascii(t[i]));
    hide WIDE_FORMS, Ascii, Rewrites;
  }

  /** What may stand behind a document: spaces, and anything at all behind a closed root bracket. */
  predicate Behind(d: Doc, after: string) { d.ObjectDoc? || d.ArrayDoc? || AllSpace(after) }

  /**
    Repair undoes widening: take any rendering whose strings hold no curly or full-width double quote that
    could close them, widen any of its punctuation and string delimiters, and repair returns the rendering
    exactly, with whatever stands behind it.
   */
  lemma RepairUndoesWidening(d: Doc, before: string, after: string, w: string)
    requires Valid(d) && SafeTexts(d) && AllSpace(before) && Behind(d, after)
    requires Widened(w, before + (Render(d) + after), Keeps(|before|) + (Marks(d) + Keeps(|after|)))
    ensures Repaired(w) == before + (Render(d) + after)
  {
    hide *;
    var r, marks := before + (Render(d) + after), Keeps(|before|) + (Marks(d) + Keeps(|after|));
    RenderingRewritten(d, before, after);
    WidenedSameKinds(w, r, marks);
    StartOk();
    RewritesSeeKinds(w, r, 0, START);
    DocMarksAscii(d);
    KeptMarksAscii(before);
    KeptMarksAscii(after);
    JoinMarksAscii(Render(d), Marks(d), after, Keeps(|after|));
    JoinMarksAscii(before, Keeps(|before|), Render(d) + after, Marks(d) + Keeps(|after|));
    RewrittenBack(w, r, marks);
  }

  lemma RewrittenBack(w: string, r: string, marks: seq<bool>)
    requires |marks| == |r| && Widened(w, r, marks) && MarksAscii(r, marks)
    requires Rewrites(w, 0, START) == marks
    ensures Repaired(w) == r
  {
    hide Rewrites, WIDE_FORMS, Ascii;
    forall i | 0 <= i < |r| ensures Repaired(w)[i] == r[i] { FormsAreAscii(w[i], r[i]); }
  }

  /** Every marked character is the ASCII form of its kind already. */
  ghost predicate MarksAscii(r: string, marks: seq<bool>) {
    |r| == |marks| && forall i :: 0 <= i < |r| && marks[i] ==> Ascii(r[i]) == r[i]
  }

  lemma KeptMarksAscii(r: string)
    ensures MarksAscii(r, Keeps(|r|))
  {
  }

  lemma JoinMarksAscii(a: string, m: seq<bool>, b: string, n: seq<bool>)
    requires MarksAscii(a, m) && MarksAscii(b, n)
    ensures MarksAscii(a + b, m + n)
  {
    hide Ascii;
  }

  lemma PunctuationMarksAscii()
    ensures MarksAscii("{", [true]) && MarksAscii("}", [true]) && MarksAscii("[", [true]) && MarksAscii("]", [true])
    ensures MarksAscii(":", [true]) && MarksAscii(",", [true]) && MarksAscii("\"", [true])
  {
  }

  lemma QuoteMarksAscii(body: string)
    ensures MarksAscii(Quote(body), QuoteMarks(body))
  {
    hide MarksAscii;
    PunctuationMarksAscii();
    KeptMarksAscii(body);
    JoinMarksAscii(body, Keeps(|body|), "\"", [true]);
    JoinMarksAscii("\"", [true], body + "\"", Keeps(|body|) + [true]);
  }

  lemma {:induction false} DocMarksAscii(d: Doc)
    ensures MarksAscii(Render(d), Marks(d))
    decreases d
  {
    hide MarksAscii, Quote, QuoteMarks;
    PunctuationMarksAscii();
    match d
    case TextDoc(body) => QuoteMarksAscii(body);
    case NumberDoc(lexeme) => KeptMarksAscii(lexeme);
    case WordDoc(lexeme) => KeptMarksAscii(lexeme);
    case ObjectDoc(pad, pairs) =>
      KeptMarksAscii(pad);
      PairsMarksAscii(pairs);
      JoinMarksAscii(pad, Keeps(|pad|), RenderPairs(pairs), PairsMarks(pairs));
      JoinMarksAscii("{", [true], pad + RenderPairs(pairs), Keeps(|pad|) + PairsMarks(pairs));
    case ArrayDoc(pad, elements) =>
      KeptMarksAscii(pad);
      ElementsMarksAscii(elements);
      JoinMarksAscii(pad, Keeps(|pad|), RenderElements(elements), ElementsMarks(elements));
      JoinMarksAscii("[", [true], pad + RenderElements(elements), Keeps(|pad|) + ElementsMarks(elements));
  }

  /** What follows a value: the closer, or a comma, padding and the rest. */
  lemma TailMarksAscii(value: string, v: seq<bool>, pad: string, last: bool, comma: string, rest: string, n: seq<bool>)
    requires MarksAscii(value, v) && MarksAscii(rest, n)
    ensures MarksAscii(value + (pad + (if last then rest else "," + (comma + rest))),
                       v + (Keeps(|pad|) + (if last then n else [true] + (Keeps(|comma|) + n))))
  {
    hide MarksAscii, Keeps;
    PunctuationMarksAscii();
    KeptMarksAscii(pad);
    KeptMarksAscii(comma);
    JoinMarksAscii(comma, Keeps(|comma|), rest, n);
    JoinMarksAscii(",", [true], comma + rest, Keeps(|comma|) + n);
    var end, ends := if last then rest else "," + (comma + rest), if last then n else [true] + (Keeps(|comma|) + n);
    JoinMarksAscii(pad, Keeps(|pad|), end, ends);
    JoinMarksAscii(value, v, pad + end, Keeps(|pad|) + ends);
  }

  lemma {:induction false} PairsMarksAscii(ps: Pairs)
    ensures MarksAscii(RenderPairs(ps), PairsMarks(ps))
    decreases ps
  {
    hide MarksAscii, Quote, QuoteMarks, Keeps;
    PunctuationMarksAscii();
    match ps
    case NoPairs =>
    case Pair(key, beforeColon, afterColon, value, afterValue, afterComma, rest) =>
      QuoteMarksAscii(key);
      KeptMarksAscii(beforeColon);
      KeptMarksAscii(afterColon);
      DocMarksAscii(value);
      PairsMarksAscii(rest);
      TailMarksAscii(Render(value), Marks(value), afterValue, rest.NoPairs?, afterComma, RenderPairs(rest),
        PairsMarks(rest));
      var a := Render(value)
        + (afterValue + (if rest.NoPairs? then RenderPairs(rest) else "," + (afterComma + RenderPairs(rest))));
      var m := Marks(value) + (Keeps(|afterValue|)
        + (if rest.NoPairs? then PairsMarks(rest) else [true] + (Keeps(|afterComma|) + PairsMarks(rest))));
      JoinMarksAscii(afterColon, Keeps(|afterColon|), a, m);
      JoinMarksAscii(":", [true], afterColon + a, Keeps(|afterColon|) + m);
      JoinMarksAscii(beforeColon, Keeps(|beforeColon|), ":" + (afterColon + a), [true] + (Keeps(|afterColon|) + m));
      JoinMarksAscii(Quote(key), QuoteMarks(key), beforeColon + (":" + (afterColon + a)),
                     Keeps(|beforeColon|) + ([true] + (Keeps(|afterColon|) + m)));
  }

  lemma {:induction false} ElementsMarksAscii(es: Elements)
    ensures MarksAscii(RenderElements(es), ElementsMarks(es))
    decreases es
  {
    hide MarksAscii, Keeps;
    PunctuationMarksAscii();
    match es
    case NoElements =>
    case Element(value, afterValue, afterComma, rest) =>
      DocMarksAscii(value);
      ElementsMarksAscii(rest);
      TailMarksAscii(Render(value), Marks(value), afterValue, rest.NoElements?, afterComma, RenderElements(rest),
        ElementsMarks(rest));
  }

  lemma WidenedSameKinds(w: string, r: string, marks: seq<bool>)
    requires |marks| == |r| && Widened(w, r, marks)
    ensures SameKinds(w, r)
  {
    forall i | 0 <= i < |r| ensures SameKind(w[i], r[i]) { FormsAreAscii(w[i], r[i]); }
  }

  /** On the rendering itself, exactly the marked characters are rewritten. */
  lemma RenderingRewritten(d: Doc, before: string, after: string)
    requires Valid(d) && SafeTexts(d) && AllSpace(before) && Behind(d, after)
    ensures Rewrites(before + (Render(d) + after), 0, START) == Keeps(|before|) + (Marks(d) + Keeps(|after|))
  {
    hide *;
    var r := before + (Render(d) + after);
    WholeTextAt(r);
    HasAtSplit(r, 0, before, Render(d) + after);
    var end := |before| + |Render(d)|;
    assert HasAt(r, end, after) && HasAt(r, |before|, Render(d)) by { HasAtSplit(r, |before|, Render(d), after); }
    assert |r| == end + |after|;
    RenderingRewrittenAt(d, before, after, r);
  }

  lemma RenderingRewrittenAt(d: Doc, before: string, after: string, r: string)
    requires Valid(d) && SafeTexts(d) && AllSpace(before) && Behind(d, after)
    requires HasAt(r, 0, before) && HasAt(r, |before|, Render(d)) && HasAt(r, |before| + |Render(d)|, after)
    requires |r| == |before| + |Render(d)| + |after|
    ensures Rewrites(r, 0, START) == Keeps(|before|) + (Marks(d) + Keeps(|after|))
  {
    hide *;
    var end := |before| + |Render(d)|;
    StartOk();
    SpacesKept(r, 0, before, START.contexts);
    if !(d.ObjectDoc? || d.ArrayDoc?) {
      BehindMeans(d, after);
      NothingFollows(r, end, after);
    }
    DocRewritten(d, r, |before|, START.contexts);
    RestKept(r, end);
  }

  lemma BehindMeans(d: Doc, after: string)
    ensures Behind(d, after) <==> d.ObjectDoc? || d.ArrayDoc? || AllSpace(after)
  {
  }

  /** Behind the root nothing is touched. */
  lemma {:induction false} RestKept(t: string, i: nat)
    requires i <= |t|
    ensures Ok(State(MarkCompleted(START.contexts), Plain))
    ensures Rewrites(t, i, State(MarkCompleted(START.contexts), Plain)) == Keeps(|t| - i)
    decreases |t| - i
  {
    hide *;
    DoneTurns('a');
    RewritesNothing(t, i, State(MarkCompleted(START.contexts), Plain));
    if i == |t| {
      NoKeeps();
    } else {
      DoneTurns(t[i]);
      RewritesTurn(t, i, State(MarkCompleted(START.contexts), Plain));
      RestKept(t, i + 1);
      KeepsJoin(|t| - i, []);
      assert [false] + (Keeps(|t| - i - 1) + []) == [false] + Keeps(|t| - i - 1);
      assert Keeps(|t| - i) + [] == Keeps(|t| - i);
    }
  }

  lemma NoKeeps()
    ensures Keeps(0) == []
  {
  }

  lemma DoneTurns(c: char)
    ensures |START.contexts| == 1 && Ok(State(MarkCompleted(START.contexts), Plain))
    ensures var s := State(MarkCompleted(START.contexts), Plain);
      forall next :: TakeTurn(s, c, next) == Turn(s, true, false)
  {
  }

  lemma StartOk()
    ensures Ok(START) && START == State(START.contexts, Plain) && |START.contexts| == 1
      && Awaits(Top(START.contexts), Value)
  {
  }

  lemma WholeTextAt(r: string)
    ensures HasAt(r, 0, r)
  {
  }

  lemma NothingFollows(t: string, i: nat, after: string)
    requires HasAt(t, i, after) && AllSpace(after) && i + |after| == |t|
    ensures i <= |t| && Follows(t, i)
  {
    SkipPadding(t, i, after);
  }

  // The converse: a quote that can close its string too early is rewritten.

  /** Between `i` and `j`, some curly or full-width quote is written as a straight one. */
  ghost predicate Spoiled(t: string, i: nat, j: nat, s: State)
    requires i <= |t| && Ok(s)
  {
    exists k :: i <= k < j && k < |t| && WideQuote(t[k]) && Rewrites(t, i, s)[k - i]
  }

  lemma SpoiledLater(t: string, i: nat, s: State, marks: seq<bool>, i': nat, s': State, j': nat, j: nat)
    requires i <= i' <= |t| && j' <= j && Ok(s) && Ok(s') && |marks| == i' - i
    requires Rewrites(t, i, s) == marks + Rewrites(t, i', s') && Spoiled(t, i', j', s')
    ensures Spoiled(t, i, j, s)
  {
    hide Rewrites, Ok, WideQuote;
    var k :| i' <= k < j' && k < |t| && WideQuote(t[k]) && Rewrites(t, i', s')[k - i'];
    assert Rewrites(t, i, s)[k - i];
  }

  /** Some wide quote between `i` and `j` can close a string of this role. */
  ghost predicate Unsafe(t: string, i: nat, j: nat, role: Role) {
    exists k :: i <= k < j && k < |t| && WideQuote(t[k]) && CanClose(NextVisible(t, k + 1), role)
  }

  lemma ClosingTurn(contexts: seq<Context>, role: Role, c: char, next: Option<char>)
    requires Ok(State(contexts, InString('\"', role, false))) && WideQuote(c) && CanClose(next, role)
    ensures TakeTurn(State(contexts, InString('\"', role, false)), c, next).rewrite
    ensures TakeTurn(State(contexts, InString('\"', role, false)), c, next).advance
  {
  }

  lemma {:induction false} ContentSpoiled(t: string, i: nat, contexts: seq<Context>, role: Role)
    requires i <= |t| && StringEnd(t, i).Some? && Unsafe(t, i, StringEnd(t, i).value, role)
    requires Ok(State(contexts, InString('\"', role, false)))
    ensures Spoiled(t, i, StringEnd(t, i).value, State(contexts, InString('\"', role, false)))
    decreases |t| - i
  {
    hide Rewrites, TakeTurn, NextVisible, WideQuote, Ok, IsSpace, CanClose;
    var s, e := State(contexts, InString('\"', role, false)), StringEnd(t, i).value;
    if WideQuote(t[i]) && CanClose(NextVisible(t, i + 1), role) {
      ClosingTurn(contexts, role, t[i], NextVisible(t, i + 1));
      RewritesTurn(t, i, s);
      assert Rewrites(t, i, s)[i - i];
    } else if t[i] == '\"' {
      StraightIsNotWide();
    } else {
      var step := if t[i] != '\\' then 1 else if SimpleEscape(t[i + 1]) then 2 else 6;
      assert StringEnd(t, i) == StringEnd(t, i + step);
      if step == 1 {
        ContentTurns(contexts, role, t[i], NextVisible(t, i + 1));
        RewritesTurn(t, i, s);
        assert Keeps(1) == [false];
      } else {
        EscapeKept(t, i, step, contexts, role);
      }
      StepIsNotWide(t, i, step);
      ContentSpoiled(t, i + step, contexts, role);
      SpoiledLater(t, i, s, Keeps(step), i + step, s, e, e);
    }
  }

  lemma StepIsNotWide(t: string, i: nat, step: nat)
    requires i + step <= |t| && StringEnd(t, i).Some? && t[i] != '\"'
    requires step == if t[i] != '\\' then 1 else if SimpleEscape(t[i + 1]) then 2 else 6
    ensures forall k :: i < k < i + step ==> !WideQuote(t[k])
    ensures t[i] == '\\' ==> !WideQuote(t[i])
  {
  }

  lemma QuoteSpoiled(t: string, i: nat, body: string, contexts: seq<Context>, role: Role)
    requires HasAt(t, i, Quote(body)) && StringBody(body) && !SafeContent(body, role)
    requires Ok(State(contexts, Plain)) && Awaits(Top(contexts), role)
    ensures Spoiled(t, i, i + |Quote(body)|, State(contexts, Plain))
  {
    hide Rewrites, TakeTurn, WideQuote, Ok, CanClose, MayFollow, NextVisible, IsSpace, HasAt;
    QuoteLayout(t, i, body);
    var k :| 0 <= k < |body| && WideQuote(body[k]) && MayFollow(NextVisible(body + "\"", k + 1), role);
    FollowMeans(NextVisible(body + "\"", k + 1), role);
    VisibleInside(t, i + 1, body, k + 1);
    HasAtIndex(t, i + 1, body, k);
    assert t[i + 1 + k] == body[k];
    QuoteTurns(contexts, role, NextVisible(t, i + 1));
    RewritesTurn(t, i, State(contexts, Plain));
    ContentSpoiled(t, i + 1, contexts, role);
    var e := i + |body| + 2;
    SpoiledLater(t, i, State(contexts, Plain), [true], i + 1, State(contexts, InString('\"', role, false)), e, e);
  }

  lemma {:induction false} DocSpoiled(d: Doc, t: string, i: nat, contexts: seq<Context>)
    requires HasAt(t, i, Render(d)) && Valid(d) && !SafeTexts(d)
    requires Ok(State(contexts, Plain)) && Awaits(Top(contexts), Value)
    ensures Spoiled(t, i, i + |Render(d)|, State(contexts, Plain))
    decreases d
  {
    hide *;
    HasAtFits(t, i, Render(d));
    DocParts(d);
    match d
    case TextDoc(body) =>
      QuoteSpoiled(t, i, body, contexts, Value);
    case NumberDoc(lexeme) =>
    case WordDoc(lexeme) =>
    case ObjectDoc(pad, pairs) =>
      OpeningRewritten(t, i, '{', pad, RenderPairs(pairs), contexts);
      PairsSpoiled(pairs, t, i + 1 + |pad|, contexts);
      SpoiledLater(t, i, State(contexts, Plain), [true] + Keeps(|pad|), i + 1 + |pad|,
                   In(contexts, ObjectContainer, KeyOrEnd), i + |Render(d)|, i + |Render(d)|);
    case ArrayDoc(pad, elements) =>
      OpeningRewritten(t, i, '[', pad, RenderElements(elements), contexts);
      ElementsSpoiled(elements, t, i + 1 + |pad|, contexts);
      SpoiledLater(t, i, State(contexts, Plain), [true] + Keeps(|pad|), i + 1 + |pad|,
                   In(contexts, ArrayContainer, ValueOrEnd), i + |Render(d)|, i + |Render(d)|);
  }

  /** A pair whose key and value are safe, up to the next pair. */
  lemma PairRewritten(ps: Pairs, t: string, i: nat, outer: seq<Context>) returns (marks: seq<bool>)
    requires ps.Pair? && HasAt(t, i, RenderPairs(ps)) && ValidPairs(ps) && SafeContent(ps.key, Key)
      && SafeTexts(ps.value)
    requires Ok(State(outer, Plain)) && ps.rest.Pair?
    ensures Ok(In(outer, ObjectContainer, KeyOrEnd)) && RestOf(ps, i) <= |t| && |marks| == RestOf(ps, i) - i
    ensures Rewrites(t, i, In(outer, ObjectContainer, KeyOrEnd))
              == marks + Rewrites(t, RestOf(ps, i), In(outer, ObjectContainer, KeyOrEnd))
  {
    hide *;
    PairLayout(ps, t, i);
    PairParts(ps, i);
    var value, after, separator := ValueOf(ps, i), ValueOf(ps, i) + |Render(ps.value)|, SeparatorOf(ps, i);
    KeyRewritten(ps, t, i, outer);
    ObjectPhaseOk(ValueNext);
    ValueState(outer, ObjectContainer, ValueNext);
    ValueFollows(t, after, ps.afterValue, ",");
    DocRewritten(ps.value, t, value, In(outer, ObjectContainer, ValueNext).contexts);
    SpacesKept(t, after, ps.afterValue, In(outer, ObjectContainer, CommaOrEnd).contexts);
    CommaRewritten(t, separator, ps.afterComma, outer, ObjectContainer);
    marks := QuoteMarks(ps.key) + (Keeps(|ps.beforeColon|) + ([true] + (Keeps(|ps.afterColon|)
      + (Marks(ps.value) + (Keeps(|ps.afterValue|) + ([true] + Keeps(|ps.afterComma|)))))));
  }

  lemma {:induction false} PairsSpoiled(ps: Pairs, t: string, i: nat, outer: seq<Context>)
    requires HasAt(t, i, RenderPairs(ps)) && ValidPairs(ps) && !SafePairs(ps) && Ok(State(outer, Plain))
    ensures Ok(In(outer, ObjectContainer, KeyOrEnd)) && i <= |t|
    ensures Spoiled(t, i, i + |RenderPairs(ps)|, In(outer, ObjectContainer, KeyOrEnd))
    decreases ps
  {
    hide *;
    NoPairsSafe(ps);
    PairLayout(ps, t, i);
    PairParts(ps, i);
    HasAtFits(t, i, RenderPairs(ps));
    KeyState(outer);
    var end, start := i + |RenderPairs(ps)|, In(outer, ObjectContainer, KeyOrEnd);
    if !SafeContent(ps.key, Key) {
      QuoteSpoiled(t, i, ps.key, start.contexts, Key);
      SpoiledLater(t, i, start, [], i, start, i + |Quote(ps.key)|, end);
    } else if !SafeTexts(ps.value) {
      KeyRewritten(ps, t, i, outer);
      ObjectPhaseOk(ValueNext);
      ValueState(outer, ObjectContainer, ValueNext);
      DocSpoiled(ps.value, t, ValueOf(ps, i), In(outer, ObjectContainer, ValueNext).contexts);
      SpoiledLater(t, i, start, QuoteMarks(ps.key) + (Keeps(|ps.beforeColon|) + ([true] + Keeps(|ps.afterColon|))),
                   ValueOf(ps, i), In(outer, ObjectContainer, ValueNext), ValueOf(ps, i) + |Render(ps.value)|, end);
    } else {
      NoPairsSafe(ps.rest);
      PairsSpoiled(ps.rest, t, RestOf(ps, i), outer);
      var marks := PairRewritten(ps, t, i, outer);
      SpoiledLater(t, i, start, marks, RestOf(ps, i), start, end, end);
    }
  }

  lemma NoPairsSafe(ps: Pairs)
    requires !SafePairs(ps)
    ensures ps.Pair?
  {
  }

  lemma NoElementsSafe(es: Elements)
    requires !SafeElements(es)
    ensures es.Element?
  {
  }

  lemma {:induction false} ElementsSpoiled(es: Elements, t: string, i: nat, outer: seq<Context>)
    requires HasAt(t, i, RenderElements(es)) && ValidElements(es) && !SafeElements(es) && Ok(State(outer, Plain))
    ensures Ok(In(outer, ArrayContainer, ValueOrEnd)) && i <= |t|
    ensures Spoiled(t, i, i + |RenderElements(es)|, In(outer, ArrayContainer, ValueOrEnd))
    decreases es
  {
    hide *;
    NoElementsSafe(es);
    ElementLayout(es, t, i);
    ElementParts(es, i);
    HasAtFits(t, i, RenderElements(es));
    ObjectPhaseOk(ValueOrEnd);
    ValueState(outer, ArrayContainer, ValueOrEnd);
    var end, start := i + |RenderElements(es)|, In(outer, ArrayContainer, ValueOrEnd);
    var after, separator := i + |Render(es.value)|, CommaOf(es, i);
    if !SafeTexts(es.value) {
      DocSpoiled(es.value, t, i, start.contexts);
      SpoiledLater(t, i, start, [], i, start, after, end);
    } else {
      NoElementsSafe(es.rest);
      ElementsSpoiled(es.rest, t, TailOf(es, i), outer);
      ValueFollows(t, after, es.afterValue, ",");
      DocRewritten(es.value, t, i, start.contexts);
      SpacesKept(t, after, es.afterValue, In(outer, ArrayContainer, CommaOrEnd).contexts);
      CommaRewritten(t, separator, es.afterComma, outer, ArrayContainer);
      SpoiledLater(t, i, start, Marks(es.value) + (Keeps(|es.afterValue|) + ([true] + Keeps(|es.afterComma|))),
                   TailOf(es, i), start, end, end);
    }
  }

  /** A rendering with an unsafe string is itself damaged by repair. */
  lemma RepairSpoilsUnsafe(d: Doc, before: string, after: string)
    requires Valid(d) && !SafeTexts(d) && AllSpace(before)
    ensures Repaired(before + (Render(d) + after)) != before + (Render(d) + after)
  {
    hide *;
    var r := before + (Render(d) + after);
    StartOk();
    WholeTextAt(r);
    HasAtSplit(r, 0, before, Render(d) + after);
    HasAtSplit(r, |before|, Render(d), after);
    HasAtFits(r, |before|, Render(d));
    SpacesKept(r, 0, before, START.contexts);
    DocSpoiled(d, r, |before|, START.contexts);
    SpoiledLater(r, 0, START, Keeps(|before|), |before|, START, |before| + |Render(d)|, |r|);
    SpoiledDiffers(r);
  }

  lemma SpoiledDiffers(t: string)
    requires Spoiled(t, 0, |t|, START)
    ensures Repaired(t) != t
  {
    hide Rewrites;
    var k :| 0 <= k < |t| && WideQuote(t[k]) && Rewrites(t, 0, START)[k - 0];
    assert Repaired(t)[k] == '\"';
  }

  /**
    The exact condition: repair undoes every widening of a rendering if and only if no curly or full-width
    quote inside a string is followed by a character that would let it close the string.
   */
  lemma RepairUndoesWideningIff(d: Doc, before: string, after: string)
    requires Valid(d) && AllSpace(before) && Behind(d, after)
    ensures var r, marks := before + (Render(d) + after), Keeps(|before|) + (Marks(d) + Keeps(|after|));
            (forall w :: Widened(w, r, marks) ==> Repaired(w) == r) <==> SafeTexts(d)
  {
    var r, marks := before + (Render(d) + after), Keeps(|before|) + (Marks(d) + Keeps(|after|));
    if SafeTexts(d) {
      forall w | Widened(w, r, marks) ensures Repaired(w) == r { RepairUndoesWidening(d, before, after, w); }
    } else {
      assert Widened(r, r, marks);
      RepairSpoilsUnsafe(d, before, after);
    }
  }
}
