/**
  The completer and the locator compose: what the completer makes of a cut JSON text is found by the direct
  scan and returned unchanged, exactly when the cut does not fall after an unpaired backslash.
 */
module CompletedIsLocated {
  import opened Chars
  import opened Tokens
  import opened Documents
  import opened Completer
  import Locator

  /**
    The characters from `i` on are those of a JSON text as far as brackets and strings go: nothing but JSON
    punctuation opens anything, every closer matches, and strings hold no raw line breaks or tabs. Nothing is
    asked of what follows the root's closer.
   */
  predicate LexicalFrom(t: string, i: nat, s: State)
    requires i <= |t|
    decreases |t| - i
  {
    if i == |t| then true
    else
      match s.mode
      case Code =>
        var turn := CodeTurn(s.stack, t[i], None);
        && t[i] != '\\' && t[i] != '\'' && t[i] != '/' && !(Closer(t[i]) && turn.state == s)
        && (turn.root || LexicalFrom(t, i + 1, turn.state))
      case Quoted(q, escape) =>
        && (escape || (t[i] != '\n' && t[i] != '\t'))
        && LexicalFrom(t, i + 1, TakeTurn(s, t[i], None).state)
      case LineComment => false
      case BlockComment => false
  }

  predicate Lexical(t: string) { t != "" && Opener(t[0]) && LexicalFrom(t, 0, START) }

  /** In such a text no turn of the completer looks ahead. */
  lemma LexicalTurn(t: string, i: nat, s: State, next: Option<char>)
    requires i < |t| && LexicalFrom(t, i, s)
    ensures TakeTurn(s, t[i], next) == TakeTurn(s, t[i], None) && TakeTurn(s, t[i], None).width == 1
    ensures !TakeTurn(s, t[i], None).root ==> LexicalFrom(t, i + 1, TakeTurn(s, t[i], None).state)
  {
  }

  lemma ScanTurn(t: string, i: nat, s: State)
    requires i < |t| && LexicalFrom(t, i, s)
    ensures var turn := TakeTurn(s, t[i], None);
            Scan(t, i, s) == if turn.root then Root(i) else Scan(t, i + 1, turn.state)
  {
    LexicalTurn(t, i, s, At(t, i + 1));
  }

  lemma {:induction false} LexicalPrefix(u: string, t: string, i: nat, s: State)
    requires u <= t && i <= |u| && LexicalFrom(t, i, s)
    ensures LexicalFrom(u, i, s)
    decreases |u| - i
  {
    if i < |u| {
      var turn := TakeTurn(s, t[i], None);
      if !turn.root {
        LexicalTurn(t, i, s, None);
        LexicalPrefix(u, t, i + 1, turn.state);
      }
    }
  }

  lemma {:induction false} LexicalSeam(p: string, ext: string, i: nat, s: State)
    requires i <= |p| && LexicalFrom(p, i, s) && Scan(p, i, s).Open?
    requires LexicalFrom(p + ext, |p|, Scan(p, i, s).state)
    ensures LexicalFrom(p + ext, i, s)
    decreases |p| - i
  {
    if i < |p| {
      var turn := TakeTurn(s, p[i], None);
      ScanTurn(p, i, s);
      LexicalTurn(p, i, s, None);
      assert (p + ext)[i] == p[i];
      if !turn.root { LexicalSeam(p, ext, i + 1, turn.state); }
    }
  }

  /** Only double quotes open strings here, and no comment is ever open. */
  predicate JsonMode(mode: Mode) { mode == Code || (mode.Quoted? && mode.quote == '\"') }

  lemma {:induction false} LexicalModes(t: string, i: nat, s: State)
    requires i <= |t| && LexicalFrom(t, i, s) && JsonMode(s.mode)
    ensures Scan(t, i, s).Open? ==> JsonMode(Scan(t, i, s).state.mode)
    decreases |t| - i
  {
    if i < |t| {
      var turn := TakeTurn(s, t[i], None);
      ScanTurn(t, i, s);
      LexicalTurn(t, i, s, None);
      if !turn.root { LexicalModes(t, i + 1, turn.state); }
    }
  }

  lemma {:induction false} ClosersLexical(t: string, i: nat, stack: string)
    requires i <= |t| && OnlyOpeners(stack) && t[i..] == Closers(stack)
    ensures LexicalFrom(t, i, State(stack, Code))
    decreases |stack|
  {
    if stack != "" {
      var rest := stack[..|stack| - 1];
      assert t[i] == t[i..][0] == ClosingOf(stack[|stack| - 1]);
      assert t[i + 1..] == t[i..][1..] == Closers(rest);
      ClosersLexical(t, i + 1, rest);
    }
  }

  lemma {:induction false} ClosersInString(t: string, i: nat, s: State)
    requires i <= |t| && s.mode == Quoted('\"', false) && forall k :: i <= k < |t| ==> Closer(t[k])
    ensures LexicalFrom(t, i, s)
    decreases |t| - i
  {
    if i < |t| { ClosersInString(t, i + 1, s); }
  }

  lemma EndingLexical(t: string, i: nat, s: State)
    requires i <= |t| && OnlyOpeners(s.stack) && JsonMode(s.mode) && t[i..] == Ending(s.mode) + Closers(s.stack)
    ensures LexicalFrom(t, i, s)
  {
    if s.mode == Code {
      ClosersLexical(t, i, s.stack);
    } else {
      assert t[i] == t[i..][0] == '\"';
      assert t[i + 1..] == t[i..][1..] == Closers(s.stack);
      if s.mode.escape {
        ClosersAreClosers(s.stack);
        forall k | i + 1 <= k < |t| ensures Closer(t[k]) { assert t[k] == t[i + 1..][k - i - 1]; }
        ClosersInString(t, i + 1, State(s.stack, Quoted('\"', false)));
      } else {
        ClosersLexical(t, i + 1, s.stack);
      }
    }
  }

  /** What the completer appends keeps the text lexical. */
  lemma CompletedLexical(p: string)
    requires Lexical(p)
    ensures Lexical(Completed(p))
  {
    var c := Completed(p);
    match Scan(p, 0, START)
    case Root(k) => LexicalPrefix(c, p, 0, START);
    case Open(s) =>
      var ext := Ending(s.mode) + Closers(s.stack);
      assert c == p + ext;
      ScanKeepsOpeners(p, 0, START);
      LexicalModes(p, 0, START);
      assert c[|p|..] == ext;
      EndingLexical(c, |p|, s);
      LexicalSeam(p, ext, 0, START);
  }

  // The two scans in lockstep.

  /** One turn outside strings. */
  lemma CodeLockstep(t: string, i: nat, stack: string)
    requires i < |t| && LexicalFrom(t, i, State(stack, Code)) && (stack == "" ==> Opener(t[i]))
    ensures var turn := TakeTurn(State(stack, Code), t[i], None);
            Locator.TakeTurn(|stack|, false, t[i], At(t, i + 1))
              == Locator.Turn(|turn.state.stack|, turn.state.mode.Quoted?, [t[i]], 1)
            && (turn.root <==> |turn.state.stack| == 0)
              && (turn.state.mode == Code || turn.state.mode == Quoted('\"', false))
  {
  }

  /** One turn, or one escape, inside a string. */
  lemma QuotedLockstep(t: string, i: nat, stack: string)
    requires i < |t| && LexicalFrom(t, i, State(stack, Quoted('\"', false)))
    ensures t[i] != '\\' ==>
      var turn := TakeTurn(State(stack, Quoted('\"', false)), t[i], None);
      && Locator.TakeTurn(|stack|, true, t[i], At(t, i + 1))
        == Locator.Turn(|stack|, turn.state.mode.Quoted?, [t[i]], 1)
      && turn.state.stack == stack && (turn.state.mode == Code || turn.state.mode == Quoted('\"', false)) && !turn.root
    ensures t[i] == '\\' && i + 1 < |t| ==>
      && Locator.TakeTurn(|stack|, true, t[i], At(t, i + 1)) == Locator.Turn(|stack|, true, [t[i], t[i + 1]], 2)
      && LexicalFrom(t, i + 2, State(stack, Quoted('\"', false)))
      && Scan(t, i, State(stack, Quoted('\"', false))) == Scan(t, i + 2, State(stack, Quoted('\"', false)))
    ensures t[i] == '\\' && i + 1 == |t| ==>
      && Locator.TakeTurn(|stack|, true, t[i], At(t, i + 1)).width == 1
      && Locator.TakeTurn(|stack|, true, t[i], At(t, i + 1)).layer == |stack|
      && Scan(t, i, State(stack, Quoted('\"', false))).Open?
  {
    var s := State(stack, Quoted('\"', false));
    ScanTurn(t, i, s);
    if t[i] == '\\' && i + 1 < |t| { ScanTurn(t, i + 1, State(stack, Quoted('\"', true))); }
  }

  /** What the locator finds, told from where the completer's scan stops. */
  function Expected(t: string, i: nat, written: string, o: Outcome): Option<Locator.Block>
    requires o.Root? ==> i <= o.at < |t|
  {
    if o.Root? then Some(Locator.Block(written + t[i..o.at + 1], o.at + 1)) else None
  }

  lemma ExpectedLater(t: string, i: nat, j: nat, written: string, o: Outcome)
    requires i <= j <= |t| && (o.Root? ==> j <= o.at < |t|)
    ensures Expected(t, i, written, o) == Expected(t, j, written + t[i..j], o)
  {
    if o.Root? { assert written + t[i..o.at + 1] == written + t[i..j] + t[j..o.at + 1]; }
  }

  lemma {:induction false} Lockstep(t: string, i: nat, s: State, written: string)
    requires i <= |t| && LexicalFrom(t, i, s)
    requires s.mode == Code || s.mode == Quoted('\"', false)
    requires s.stack == "" ==> s.mode == Code && i < |t| && Opener(t[i])
    ensures Locator.FindBlock(t, i, |s.stack|, s.mode.Quoted?, written) == Expected(t, i, written, Scan(t, i, s))
    decreases |t| - i
  {
    hide TakeTurn, Locator.TakeTurn, LexicalFrom, Expected;
    if i == |t| {
      Locator.FindBlockTurn(t, |t|, |s.stack|, s.mode.Quoted?, written);
      ExpectedNone(t, i, written, s);
    } else {
      ScanTurn(t, i, s);
      LexicalTurn(t, i, s, None);
      Locator.FindBlockTurn(t, i, |s.stack|, s.mode.Quoted?, written);
      var turn := TakeTurn(s, t[i], None);
      assert t[i..i + 1] == [t[i]];
      if s.mode == Code {
        CodeLockstep(t, i, s.stack);
        if turn.root {
          ExpectedRoot(t, i, written);
        } else {
          Lockstep(t, i + 1, turn.state, written + [t[i]]);
          ExpectedLater(t, i, i + 1, written, Scan(t, i, s));
        }
      } else {
        QuotedLockstep(t, i, s.stack);
        if t[i] != '\\' {
          Lockstep(t, i + 1, turn.state, written + [t[i]]);
          ExpectedLater(t, i, i + 1, written, Scan(t, i, s));
        } else if i + 1 < |t| {
          assert t[i..i + 2] == [t[i], t[i + 1]];
          Lockstep(t, i + 2, s, written + [t[i], t[i + 1]]);
          ExpectedLater(t, i, i + 2, written, Scan(t, i, s));
        } else {
          ExpectedNone(t, i, written, Scan(t, i, s).state);
        }
      }
    }
  }

  lemma ExpectedNone(t: string, i: nat, written: string, s: State)
    ensures Expected(t, i, written, Open(s)) == None
  {
  }

  lemma ExpectedRoot(t: string, i: nat, written: string)
    requires i < |t|
    ensures Expected(t, i, written, Root(i)) == Some(Locator.Block(written + [t[i]], i + 1))
  {
    assert t[i..i + 1] == [t[i]];
  }

  /** On a lexical text, the locator finds what the completer's scan delimits. */
  lemma LocatedIsScanned(t: string)
    requires Lexical(t)
    ensures Locator.DirectRoot(t) == match Scan(t, 0, START) case Root(k) => Some(t[..k + 1]) case Open(_) => None
  {
    SkipSpaceUnique(t, 0, 0);
    Lockstep(t, 0, START, "");
    var o := Scan(t, 0, START);
    if o.Root? { assert "" + t[0..o.at + 1] == t[..o.at + 1]; }
  }

  /** The composition, for every lexical text. */
  lemma CompletedTextIsLocated(p: string)
    requires Lexical(p)
    ensures Locator.DirectRoot(Completed(p)) == if EndsOnEscape(p) then None else Some(Completed(p))
  {
    var c := Completed(p);
    CompletedLexical(p);
    LocatedIsScanned(c);
    match Scan(p, 0, START)
    case Root(k) =>
      ScanStopsForGood(p, c, 0, START);
      assert c[..|c|] == c;
    case Open(s) =>
      CompletedScan(p);
      StackNotEmpty(p);
      assert c[..|c|] == c;
  }

  /** After the root opener, the stack is not empty until the root closer. */
  lemma StackNotEmpty(p: string)
    requires Lexical(p) && Scan(p, 0, START).Open?
    ensures Scan(p, 0, START).state.stack != ""
  {
    ScanTurn(p, 0, START);
    StackStays(p, 1, TakeTurn(START, p[0], None).state);
  }

  lemma {:induction false} StackStays(t: string, i: nat, s: State)
    requires i <= |t| && LexicalFrom(t, i, s) && s.stack != "" && Scan(t, i, s).Open?
    ensures Scan(t, i, s).state.stack != ""
    decreases |t| - i
  {
    if i < |t| {
      ScanTurn(t, i, s);
      LexicalTurn(t, i, s, None);
      StackStays(t, i + 1, TakeTurn(s, t[i], None).state);
    }
  }

  // Renderings are lexical.

  lemma PlainChars(t: string, i: nat, j: nat, stack: string)
    requires i <= j <= |t|
    requires forall k :: i <= k < j ==> IsSpace(t[k]) || LexemeChar(t[k]) || t[k] == ':' || t[k] == ','
    requires LexicalFrom(t, j, State(stack, Code))
    ensures LexicalFrom(t, i, State(stack, Code))
    decreases j - i
  {
    if i < j {
      PlainChars(t, i + 1, j, stack);
      assert CodeTurn(stack, t[i], None) == Turn(State(stack, Code), 1, false);
    }
  }

  lemma PieceLexical(t: string, i: nat, piece: string, stack: string)
    requires HasAt(t, i, piece) && LexicalFrom(t, i + |piece|, State(stack, Code))
    requires forall k :: 0 <= k < |piece| ==>
      IsSpace(piece[k]) || LexemeChar(piece[k]) || piece[k] == ':' || piece[k] == ','
    ensures LexicalFrom(t, i, State(stack, Code))
  {
    hide IsSpace, LexemeChar, LexicalFrom;
    forall k | i <= k < i + |piece| ensures IsSpace(t[k]) || LexemeChar(t[k]) || t[k] == ':' || t[k] == ',' {
      HasAtIndex(t, i, piece, k - i);
    }
    PlainChars(t, i, i + |piece|, stack);
  }

  lemma {:induction false} StringLexical(t: string, i: nat, stack: string)
    requires i <= |t| && StringEnd(t, i).Some? && LexicalFrom(t, StringEnd(t, i).value, State(stack, Code))
    ensures LexicalFrom(t, i, State(stack, Quoted('\"', false)))
    decreases |t| - i
  {
    if t[i] != '\"' {
      if t[i] != '\\' {
        StringLexical(t, i + 1, stack);
      } else {
        var step := if SimpleEscape(t[i + 1]) then 2 else 6;
        assert StringEnd(t, i) == StringEnd(t, i + step);
        StringLexical(t, i + step, stack);
        HexLexical(t, i + 2, i + step, stack);
        assert LexicalFrom(t, i + 1, State(stack, Quoted('\"', true)));
      }
    }
  }

  lemma {:induction false} HexLexical(t: string, i: nat, j: nat, stack: string)
    requires i <= j <= |t| && (forall k :: i <= k < j ==> HexDigit(t[k]))
      && LexicalFrom(t, j, State(stack, Quoted('\"', false)))
    ensures LexicalFrom(t, i, State(stack, Quoted('\"', false)))
    decreases j - i
  {
    if i < j { HexLexical(t, i + 1, j, stack); }
  }

  lemma QuoteLexical(t: string, i: nat, body: string, stack: string)
    requires HasAt(t, i, Quote(body)) && StringBody(body) && LexicalFrom(t, i + |Quote(body)|, State(stack, Code))
    ensures LexicalFrom(t, i, State(stack, Code))
  {
    hide HasAt, StringBody, StringEnd;
    QuoteLayout(t, i, body);
    StringLexical(t, i + 1, stack);
  }

  lemma OpenerLexical(t: string, i: nat, c: char, stack: string)
    requires HasAt(t, i, [c]) && Opener(c) && LexicalFrom(t, i + 1, State(stack + [c], Code))
    ensures LexicalFrom(t, i, State(stack, Code))
  {
  }

  lemma CloserLexical(t: string, i: nat, opener: char, stack: string)
    requires HasAt(t, i, [ClosingOf(opener)]) && Opener(opener)
    requires stack != "" ==> i < |t| && LexicalFrom(t, i + 1, State(stack, Code))
    ensures LexicalFrom(t, i, State(stack + [opener], Code))
  {
    HasAtChar(t, i, ClosingOf(opener));
    assert (stack + [opener])[..|stack|] == stack;
  }

  lemma Brackets()
    ensures Opener('{') && Opener('[') && ClosingOf('{') == '}' && ClosingOf('[') == ']'
  {
  }

  lemma {:induction false} DocLexical(d: Doc, t: string, i: nat, stack: string)
    requires HasAt(t, i, Render(d)) && Valid(d)
    requires stack != "" || !(d.ObjectDoc? || d.ArrayDoc?) ==>
               i + |Render(d)| <= |t| && LexicalFrom(t, i + |Render(d)|, State(stack, Code))
    ensures i <= |t| && LexicalFrom(t, i, State(stack, Code))
    decreases d
  {
    hide LexicalFrom, HasAt, Quote, RenderPairs, RenderElements, StringBody, NumberLexeme, WordLexeme, AllSpace,
      LexemeChar, IsSpace;
    HasAtFits(t, i, Render(d));
    match d
    case TextDoc(body) => QuoteLexical(t, i, body, stack);
    case NumberDoc(lexeme) =>
      LexemesAreLexemes(lexeme);
      PieceLexical(t, i, lexeme, stack);
    case WordDoc(lexeme) =>
      LexemesAreLexemes(lexeme);
      PieceLexical(t, i, lexeme, stack);
    case ObjectDoc(pad, pairs) =>
      HasAtSplit(t, i, "{", pad + RenderPairs(pairs));
      HasAtSplit(t, i + 1, pad, RenderPairs(pairs));
      PairsLexical(pairs, t, i + 1 + |pad|, stack);
      PaddingLexical(t, i + 1, pad, stack + ['{']);
      OpenerLexical(t, i, '{', stack);
    case ArrayDoc(pad, elements) =>
      HasAtSplit(t, i, "[", pad + RenderElements(elements));
      HasAtSplit(t, i + 1, pad, RenderElements(elements));
      ElementsLexical(elements, t, i + 1 + |pad|, stack);
      PaddingLexical(t, i + 1, pad, stack + ['[']);
      OpenerLexical(t, i, '[', stack);
  }

  lemma PaddingLexical(t: string, i: nat, pad: string, stack: string)
    requires HasAt(t, i, pad) && AllSpace(pad) && i + |pad| <= |t| && LexicalFrom(t, i + |pad|, State(stack, Code))
    ensures LexicalFrom(t, i, State(stack, Code))
  {
    hide IsSpace, LexicalFrom;
    PieceLexical(t, i, pad, stack);
  }

  lemma {:induction false} PairsLexical(ps: Pairs, t: string, i: nat, stack: string)
    requires HasAt(t, i, RenderPairs(ps)) && ValidPairs(ps)
    requires stack != "" ==> i + |RenderPairs(ps)| <= |t| && LexicalFrom(t, i + |RenderPairs(ps)|, State(stack, Code))
    ensures i <= |t| && LexicalFrom(t, i, State(stack + ['{'], Code))
    decreases ps
  {
    hide *;
    PairPlaces(ps, i);
    HasAtFits(t, i, RenderPairs(ps));
    if ps.NoPairs? {
      Brackets();
      CloserLexical(t, i, '{', stack);
    } else {
      PairLayout(ps, t, i);
      var inner := stack + ['{'];
      PairsLexical(ps.rest, t, RestOf(ps, i), stack);
      if ps.rest.Pair? { SeparatorLexical(t, SeparatorOf(ps, i), ",", ps.afterComma, inner); }
      HasAtFits(t, ValueOf(ps, i) + |Render(ps.value)|, ps.afterValue);
      PaddingLexical(t, ValueOf(ps, i) + |Render(ps.value)|, ps.afterValue, inner);
      HasAtFits(t, ValueOf(ps, i), Render(ps.value));
      DocLexical(ps.value, t, ValueOf(ps, i), inner);
      SeparatorLexical(t, ColonOf(ps, i), ":", ps.afterColon, inner);
      HasAtFits(t, i + |Quote(ps.key)|, ps.beforeColon);
      PaddingLexical(t, i + |Quote(ps.key)|, ps.beforeColon, inner);
      QuoteLexical(t, i, ps.key, inner);
    }
  }

  lemma SeparatorLexical(t: string, i: nat, mark: string, pad: string, stack: string)
    requires mark == "," || mark == ":"
    requires HasAt(t, i, mark) && HasAt(t, i + 1, pad) && AllSpace(pad)
    requires i + 1 + |pad| <= |t| && LexicalFrom(t, i + 1 + |pad|, State(stack, Code))
    ensures i <= |t| && LexicalFrom(t, i, State(stack, Code))
  {
    hide IsSpace, LexicalFrom;
    PaddingLexical(t, i + 1, pad, stack);
    PieceLexical(t, i, mark, stack);
  }

  lemma {:induction false} ElementsLexical(es: Elements, t: string, i: nat, stack: string)
    requires HasAt(t, i, RenderElements(es)) && ValidElements(es)
    requires stack != "" ==>
      i + |RenderElements(es)| <= |t| && LexicalFrom(t, i + |RenderElements(es)|, State(stack, Code))
    ensures i <= |t| && LexicalFrom(t, i, State(stack + ['['], Code))
    decreases es
  {
    hide *;
    ElementPlaces(es, i);
    HasAtFits(t, i, RenderElements(es));
    if es.NoElements? {
      Brackets();
      CloserLexical(t, i, '[', stack);
    } else {
      ElementLayout(es, t, i);
      var inner := stack + ['['];
      ElementsLexical(es.rest, t, TailOf(es, i), stack);
      if es.rest.Element? { SeparatorLexical(t, CommaOf(es, i), ",", es.afterComma, inner); }
      HasAtFits(t, i + |Render(es.value)|, es.afterValue);
      PaddingLexical(t, i + |Render(es.value)|, es.afterValue, inner);
      DocLexical(es.value, t, i, inner);
    }
  }

  /**
    For every non-empty prefix of a JSON text that starts at its root bracket: the completed prefix is located
    and returned unchanged, unless the prefix ends on an unpaired backslash; then nothing is located.
   */
  lemma CompletedPrefixIsLocated(t: string, d: Doc, p: string)
    requires Valid(d) && (d.ObjectDoc? || d.ArrayDoc?) && Render(d) <= t && p <= t && p != ""
    ensures Locator.DirectRoot(Completed(p)) == if EndsOnEscape(p) then None else Some(Completed(p))
  {
    hide LexicalFrom, Completed, EndsOnEscape, Locator.DirectRoot;
    assert HasAt(t, 0, Render(d));
    DocLexical(d, t, 0, "");
    LexicalPrefix(p, t, 0, START);
    assert p[0] == t[0] == Render(d)[0];
    CompletedTextIsLocated(p);
  }
}
