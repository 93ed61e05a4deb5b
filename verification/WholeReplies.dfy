/**
  When a reply counts as complete (agently/utils/StreamingJSONParser.py:74-122): a JSON document behind plain text
  looks complete exactly when nothing but spaces, or a code fence, follows its root closer, and no proper prefix
  of it ever does.
 */
module WholeReplies {
  import opened Chars
  import opened Completer
  import opened Documents
  import opened Provenance
  import opened ProvenanceExact
  import opened Tokens

  // Both scanners in lockstep over a document.

  lemma {:induction false} Chain(t: string, j: nat, r: State, i: nat, s: State, k: nat, u: State)
    requires j <= |t| && i <= |t| && LeadsTo(t, j, r, i, s) && LeadsTo(t, i, s, k, u)
    ensures LeadsTo(t, j, r, k, u)
    decreases |t| - j
  {
    hide *;
    LeadsToTurn(t, j, r, i, s);
    LeadsToTurn(t, j, r, k, u);
    if !(i == j && s == r) {
      var turn := TakeTurn(r, t[j], At(t, j + 1));
      BothTurn(t, j, r);
      LeadsToBelow(t, i, s, k, u);
      Chain(t, j + turn.width, turn.state, i, s, k, u);
    }
  }

  lemma Stay(t: string, i: nat, s: State)
    requires i <= |t|
    ensures LeadsTo(t, i, s, i, s)
  {
  }

  /** One turn over one character that opens and ends no comment. */
  lemma OneTurn(t: string, i: nat, s: State, s': State)
    requires i < |t| && TakeTurn(s, t[i], At(t, i + 1)) == Turn(s', 1, false)
    requires !s.mode.BlockComment? && !s'.mode.BlockComment? && !(s.mode == Code && Closer(t[i]) && s' == s)
    ensures LeadsTo(t, i, s, i + 1, s')
  {
    Stay(t, i + 1, s');
  }

  predicate PlainChar(c: char) { c != '\"' && c != '\'' && c != '/' && !Opener(c) && !Closer(c) }

  lemma {:induction false} PlainRun(t: string, i: nat, j: nat, stack: string)
    requires i <= j <= |t| && forall k :: i <= k < j ==> PlainChar(t[k])
    ensures LeadsTo(t, i, State(stack, Code), j, State(stack, Code))
    decreases j - i
  {
    hide LeadsTo;
    Stay(t, i, State(stack, Code));
    if i < j {
      PlainRun(t, i + 1, j, stack);
      OneTurn(t, i, State(stack, Code), State(stack, Code));
      Chain(t, i, State(stack, Code), i + 1, State(stack, Code), j, State(stack, Code));
    }
  }

  lemma PieceLeads(t: string, i: nat, piece: string, stack: string)
    requires HasAt(t, i, piece)
    requires forall k :: 0 <= k < |piece| ==>
      IsSpace(piece[k]) || LexemeChar(piece[k]) || piece[k] == ':' || piece[k] == ','
    ensures i + |piece| <= |t| && LeadsTo(t, i, State(stack, Code), i + |piece|, State(stack, Code))
  {
    HasAtFits(t, i, piece);
    forall k | i <= k < i + |piece| ensures PlainChar(t[k]) { HasAtIndex(t, i, piece, k - i); }
    hide LeadsTo, HasAt, IsSpace, LexemeChar, PlainChar;
    PlainRun(t, i, i + |piece|, stack);
  }

  lemma {:induction false} HexRun(t: string, i: nat, j: nat, stack: string)
    requires i <= j <= |t| && forall k :: i <= k < j ==> HexDigit(t[k])
    ensures LeadsTo(t, i, State(stack, Quoted('\"', false)), j, State(stack, Quoted('\"', false)))
    decreases j - i
  {
    hide LeadsTo;
    var s := State(stack, Quoted('\"', false));
    Stay(t, i, s);
    if i < j {
      HexRun(t, i + 1, j, stack);
      OneTurn(t, i, s, s);
      Chain(t, i, s, i + 1, s, j, s);
    }
  }

  lemma {:induction false} StringRun(t: string, i: nat, stack: string)
    requires i <= |t| && StringEnd(t, i).Some?
    ensures LeadsTo(t, i, State(stack, Quoted('\"', false)), StringEnd(t, i).value, State(stack, Code))
    decreases |t| - i
  {
    hide LeadsTo;
    var s, e := State(stack, Quoted('\"', false)), StringEnd(t, i).value;
    if t[i] == '\"' {
      OneTurn(t, i, s, State(stack, Code));
    } else if t[i] != '\\' {
      OneTurn(t, i, s, s);
      StringRun(t, i + 1, stack);
      Chain(t, i, s, i + 1, s, e, State(stack, Code));
    } else {
      var step := if SimpleEscape(t[i + 1]) then 2 else 6;
      assert StringEnd(t, i) == StringEnd(t, i + step);
      OneTurn(t, i, s, State(stack, Quoted('\"', true)));
      OneTurn(t, i + 1, State(stack, Quoted('\"', true)), s);
      Chain(t, i, s, i + 1, State(stack, Quoted('\"', true)), i + 2, s);
      HexRun(t, i + 2, i + step, stack);
      Chain(t, i, s, i + 2, s, i + step, s);
      StringRun(t, i + step, stack);
      Chain(t, i, s, i + step, s, e, State(stack, Code));
    }
  }

  lemma QuoteLeads(t: string, i: nat, body: string, stack: string)
    requires HasAt(t, i, Quote(body)) && StringBody(body)
    ensures i + |Quote(body)| <= |t|
    ensures LeadsTo(t, i, State(stack, Code), i + |Quote(body)|, State(stack, Code))
  {
    QuoteLayout(t, i, body);
    hide LeadsTo, HasAt, StringBody, StringEnd;
    OneTurn(t, i, State(stack, Code), State(stack, Quoted('\"', false)));
    StringRun(t, i + 1, stack);
    Chain(t, i, State(stack, Code), i + 1, State(stack, Quoted('\"', false)), i + |body| + 2, State(stack, Code));
  }

  lemma OpenerLeads(t: string, i: nat, c: char, stack: string)
    requires HasAt(t, i, [c]) && Opener(c)
    ensures i < |t| && LeadsTo(t, i, State(stack, Code), i + 1, State(stack + [c], Code))
  {
    HasAtChar(t, i, c);
    hide LeadsTo;
    OneTurn(t, i, State(stack, Code), State(stack + [c], Code));
  }

  lemma CloserLeads(t: string, i: nat, opener: char, stack: string)
    requires Opener(opener) && HasAt(t, i, [ClosingOf(opener)]) && stack != ""
    ensures i < |t| && LeadsTo(t, i, State(stack + [opener], Code), i + 1, State(stack, Code))
  {
    HasAtChar(t, i, ClosingOf(opener));
    hide LeadsTo;
    assert (stack + [opener])[..|stack|] == stack;
    OneTurn(t, i, State(stack + [opener], Code), State(stack, Code));
  }

  /** The bracket a container opens with. */
  function OpenerOf(d: Doc): char { if d.ObjectDoc? then '{' else '[' }

  /** A container up to its closing bracket. */
  lemma {:induction false} ContainerLeads(d: Doc, t: string, i: nat, stack: string)
    requires HasAt(t, i, Render(d)) && Valid(d) && (d.ObjectDoc? || d.ArrayDoc?)
    ensures var e := i + |Render(d)| - 1;
      && i < e < |t| && HasAt(t, e, [ClosingOf(OpenerOf(d))])
      && LeadsTo(t, i, State(stack, Code), e, State(stack + [OpenerOf(d)], Code))
    decreases d, 0
  {
    hide LeadsTo, HasAt, RenderPairs, RenderElements, IsSpace, ValidPairs, ValidElements;
    HasAtFits(t, i, Render(d));
    var inner, e := stack + [OpenerOf(d)], i + |Render(d)| - 1;
    if d.ObjectDoc? {
      HasAtSplit(t, i, "{", d.pad + RenderPairs(d.pairs));
      HasAtSplit(t, i + 1, d.pad, RenderPairs(d.pairs));
      assert "{" == ['{'];
      OpenerLeads(t, i, '{', stack);
      PieceLeads(t, i + 1, d.pad, inner);
      PairsLead(d.pairs, t, i + 1 + |d.pad|, inner);
      Chain(t, i, State(stack, Code), i + 1, State(inner, Code), i + 1 + |d.pad|, State(inner, Code));
      Chain(t, i, State(stack, Code), i + 1 + |d.pad|, State(inner, Code), e, State(inner, Code));
    } else {
      HasAtSplit(t, i, "[", d.pad + RenderElements(d.elements));
      HasAtSplit(t, i + 1, d.pad, RenderElements(d.elements));
      assert "[" == ['['];
      OpenerLeads(t, i, '[', stack);
      PieceLeads(t, i + 1, d.pad, inner);
      ElementsLead(d.elements, t, i + 1 + |d.pad|, inner);
      Chain(t, i, State(stack, Code), i + 1, State(inner, Code), i + 1 + |d.pad|, State(inner, Code));
      Chain(t, i, State(stack, Code), i + 1 + |d.pad|, State(inner, Code), e, State(inner, Code));
    }
  }

  /** A document inside a container. */
  lemma {:induction false} DocLeads(d: Doc, t: string, i: nat, stack: string)
    requires HasAt(t, i, Render(d)) && Valid(d) && stack != ""
    ensures i + |Render(d)| <= |t| && LeadsTo(t, i, State(stack, Code), i + |Render(d)|, State(stack, Code))
    decreases d, 2
  {
    hide LeadsTo, HasAt, Quote, RenderPairs, RenderElements, StringBody, NumberLexeme, WordLexeme, IsSpace, LexemeChar,
      ValidPairs, ValidElements;
    HasAtFits(t, i, Render(d));
    match d
    case TextDoc(body) => QuoteLeads(t, i, body, stack);
    case NumberDoc(lexeme) =>
      LexemesAreLexemes(lexeme);
      PieceLeads(t, i, lexeme, stack);
    case WordDoc(lexeme) =>
      LexemesAreLexemes(lexeme);
      PieceLeads(t, i, lexeme, stack);
    case ObjectDoc(_, _) => ClosedLeads(d, t, i, stack);
    case ArrayDoc(_, _) => ClosedLeads(d, t, i, stack);
  }

  lemma {:induction false} ClosedLeads(d: Doc, t: string, i: nat, stack: string)
    requires HasAt(t, i, Render(d)) && Valid(d) && (d.ObjectDoc? || d.ArrayDoc?) && stack != ""
    ensures i + |Render(d)| <= |t| && LeadsTo(t, i, State(stack, Code), i + |Render(d)|, State(stack, Code))
    decreases d, 1
  {
    hide *;
    var e, c := i + |Render(d)| - 1, OpenerOf(d);
    OpenerIsOpener(d);
    ContainerLeads(d, t, i, stack);
    CloserLeads(t, e, c, stack);
    Chain(t, i, State(stack, Code), e, State(stack + [c], Code), e + 1, State(stack, Code));
  }

  lemma OpenerIsOpener(d: Doc)
    ensures Opener(OpenerOf(d))
  {
  }

  /** The pairs up to the closing brace. */
  lemma {:induction false} PairsLead(ps: Pairs, t: string, i: nat, inner: string)
    requires HasAt(t, i, RenderPairs(ps)) && ValidPairs(ps) && inner != ""
    ensures var e := i + |RenderPairs(ps)| - 1;
      i <= e < |t| && HasAt(t, e, ['}']) && LeadsTo(t, i, State(inner, Code), e, State(inner, Code))
    decreases ps, 3
  {
    hide *;
    var s := State(inner, Code);
    PairPlaces(ps, i);
    HasAtFits(t, i, RenderPairs(ps));
    if ps.NoPairs? {
      BraceAt();
      Stay(t, i, s);
    } else {
      PairLayout(ps, t, i);
      var colon, value, separator, rest := ColonOf(ps, i), ValueOf(ps, i), SeparatorOf(ps, i), RestOf(ps, i);
      QuoteLeads(t, i, ps.key, inner);
      GapLeads(t, i + |Quote(ps.key)|, ps.beforeColon, inner);
      Chain(t, i, s, i + |Quote(ps.key)|, s, colon, s);
      MarkLeads(t, colon, ":", inner);
      Chain(t, i, s, colon, s, colon + 1, s);
      GapLeads(t, colon + 1, ps.afterColon, inner);
      Chain(t, i, s, colon + 1, s, value, s);
      DocLeads(ps.value, t, value, inner);
      Chain(t, i, s, value, s, value + |Render(ps.value)|, s);
      GapLeads(t, value + |Render(ps.value)|, ps.afterValue, inner);
      Chain(t, i, s, value + |Render(ps.value)|, s, separator, s);
      if ps.rest.Pair? {
        MarkLeads(t, separator, ",", inner);
        Chain(t, i, s, separator, s, separator + 1, s);
        GapLeads(t, separator + 1, ps.afterComma, inner);
        Chain(t, i, s, separator + 1, s, rest, s);
      }
      PairsLead(ps.rest, t, rest, inner);
      Chain(t, i, s, rest, s, i + |RenderPairs(ps)| - 1, s);
    }
  }

  lemma BraceAt()
    ensures "}" == ['}'] && "]" == [']'] && |"}"| == 1 && |"]"| == 1
  {
  }

  lemma GapLeads(t: string, i: nat, pad: string, stack: string)
    requires HasAt(t, i, pad) && AllSpace(pad)
    ensures i + |pad| <= |t| && LeadsTo(t, i, State(stack, Code), i + |pad|, State(stack, Code))
  {
    hide LeadsTo, IsSpace;
    PieceLeads(t, i, pad, stack);
  }

  lemma MarkLeads(t: string, i: nat, mark: string, stack: string)
    requires HasAt(t, i, mark) && (mark == ":" || mark == ",")
    ensures i + 1 <= |t| && LeadsTo(t, i, State(stack, Code), i + 1, State(stack, Code))
  {
    hide LeadsTo;
    PieceLeads(t, i, mark, stack);
  }

  /** The elements up to the closing bracket. */
  lemma {:induction false} ElementsLead(es: Elements, t: string, i: nat, inner: string)
    requires HasAt(t, i, RenderElements(es)) && ValidElements(es) && inner != ""
    ensures var e := i + |RenderElements(es)| - 1;
      i <= e < |t| && HasAt(t, e, [']']) && LeadsTo(t, i, State(inner, Code), e, State(inner, Code))
    decreases es, 3
  {
    hide *;
    var s := State(inner, Code);
    ElementPlaces(es, i);
    HasAtFits(t, i, RenderElements(es));
    if es.NoElements? {
      BraceAt();
      Stay(t, i, s);
    } else {
      ElementLayout(es, t, i);
      var after, comma, tail := i + |Render(es.value)|, CommaOf(es, i), TailOf(es, i);
      DocLeads(es.value, t, i, inner);
      GapLeads(t, after, es.afterValue, inner);
      Chain(t, i, s, after, s, comma, s);
      if es.rest.Element? {
        MarkLeads(t, comma, ",", inner);
        Chain(t, i, s, comma, s, comma + 1, s);
        GapLeads(t, comma + 1, es.afterComma, inner);
        Chain(t, i, s, comma + 1, s, tail, s);
      }
      ElementsLead(es.rest, t, tail, inner);
      Chain(t, i, s, tail, s, i + |RenderElements(es)| - 1, s);
    }
  }

  // Whole replies.

  predicate PlainText(before: string) { forall k :: 0 <= k < |before| ==> PlainChar(before[k]) }

  lemma {:induction false} PlainStart(t: string, i: nat, b: nat)
    requires i <= b < |t| && Opener(t[b]) && forall k :: i <= k < b ==> PlainChar(t[k])
    ensures StartOf(t, i, Code) == Some(b)
    decreases b - i
  {
    if i < b { PlainStart(t, i + 1, b); }
  }

  lemma {:induction false} PlainScan(before: string, i: nat)
    requires PlainText(before) && i <= |before|
    ensures Scan(before, i, START) == Open(START)
    decreases |before| - i
  {
    if i < |before| { PlainScan(before, i + 1); }
  }

  /** What may follow the root closer: spaces, and then nothing or a code fence. */
  ghost predicate OnlyFence(after: string) {
    exists pad, rest :: after == pad + rest && AllSpace(pad) && (rest == "" || "```" <= rest)
  }

  lemma FenceIs(t: string, i: nat)
    requires i <= |t|
    ensures TailOk(t, i) <==> OnlyFence(t[i..])
  {
    var k := SkipSpace(t, i);
    if TailOk(t, i) {
      assert t[i..] == t[i..k] + t[k..];
    }
    if OnlyFence(t[i..]) {
      var pad, rest :| t[i..] == pad + rest && AllSpace(pad) && (rest == "" || "```" <= rest);
      assert t[i..i + |pad|] == pad && t[i + |pad|..] == rest;
      if rest != "" { assert t[i + |pad|] == rest[0] == '`'; }
      SkipSpaceUnique(t, i, i + |pad|);
    }
  }

  /**
    A document behind plain text: both scanners find its closing bracket, the completer returns the reply up to
    it, and the raw scanner takes the reply for complete exactly when only spaces or a code fence follow.
   */
  lemma WholeReply(before: string, d: Doc, after: string)
    requires PlainText(before) && Valid(d) && (d.ObjectDoc? || d.ArrayDoc?)
    ensures var t := before + (Render(d) + after);
      && RootOf(t) == Some(|before| + |Render(d)| - 1) && Completed(t) == before + Render(d)
      && (LooksComplete(t) <==> OnlyFence(after))
  {
    hide *;
    var t, b := before + (Render(d) + after), |before|;
    var e, c := b + |Render(d)| - 1, OpenerOf(d);
    TextAt(before, Render(d), after);
    OpenerIsOpener(d);
    ContainerLeads(d, t, b, "");
    StartsAt(before, d, t);
    LooksSkipsPreamble(t, 0, Code);
    ScanReachesStart(t, b);
    NothingAwaited();
    LeadsToMeans(t, b, START, e, State([c], Code));
    RootTurn(t, e, c);
    RootMeans(t);
    CompletedMeans(t);
    FenceIs(t, e + 1);
    assert t[..e + 1] == before + Render(d) && t[e + 1..] == after;
    LooksMeansTail(t, e);
  }

  lemma TextAt(before: string, middle: string, after: string)
    ensures var t := before + (middle + after); HasAt(t, |before|, middle) && t[..|before|] == before
  {
  }

  lemma NothingAwaited()
    ensures Awaited("") == "" && OnlyOpeners("") && QuoteOk(Code) && START == State("", Code)
    ensures forall c: char :: "" + [c] == [c]
  {
  }

  lemma StartsAt(before: string, d: Doc, t: string)
    requires PlainText(before) && HasAt(t, |before|, Render(d)) && t[..|before|] == before && |before| < |t|
    requires d.ObjectDoc? || d.ArrayDoc?
    ensures StartOf(t, 0, Code) == Some(|before|) && Opener(t[|before|]) && Scan(t[..|before|], 0, START) == Open(START)
  {
    hide HasAt, PlainChar, Scan, StartOf, RenderPairs, RenderElements;
    var b := |before|;
    HasAtIndex(t, b, Render(d), 0);
    forall k | 0 <= k < b ensures PlainChar(t[k]) { assert t[..b][k] == t[k]; }
    PlainStart(t, 0, b);
    PlainScan(before, 0);
  }

  lemma RootTurn(t: string, e: nat, c: char)
    requires e < |t| && Opener(c) && HasAt(t, e, [ClosingOf(c)])
    ensures Scan(t, e, State([c], Code)) == Root(e)
    ensures LooksRoot(t, e, Awaited([c]), true, Code) == Some(e)
  {
    HasAtChar(t, e, ClosingOf(c));
    assert [c][..0] == "" && Awaited([c])[..0] == "";
  }

  lemma RootMeans(t: string)
    ensures RootOf(t) == LooksRoot(t, 0, "", false, Code)
  {
  }

  lemma LooksMeansTail(t: string, e: nat)
    requires RootOf(t) == Some(e)
    ensures e < |t| && (LooksComplete(t) <==> TailOk(t, e + 1))
  {
  }

  /** A root closer that is seen in a prefix is seen in the whole. */
  lemma {:induction false} LooksInWhole(u: string, t: string, i: nat, stack: string, started: bool, mode: Mode)
    requires u <= t && i <= |u| && LooksRoot(u, i, stack, started, mode).Some?
    ensures LooksRoot(t, i, stack, started, mode) == LooksRoot(u, i, stack, started, mode)
    decreases |u| - i
  {
    if i < |u| {
      assert i + 1 < |u| ==> At(u, i + 1) == At(t, i + 1);
      if mode != Code {
        LooksInWhole(u, t, i + 1, stack, started, LooksOutsideCode(u, i, mode));
      } else {
        var (stack', started', mode') := LooksInCode(u, i, stack, started).value;
        if !(Closer(u[i]) && started' && stack' == "") { LooksInWhole(u, t, i + 1, stack', started', mode'); }
      }
    }
  }

  /** No proper prefix of a reply up to its closing bracket ever looks complete. */
  lemma NeverEarly(before: string, d: Doc, u: string)
    requires PlainText(before) && Valid(d) && (d.ObjectDoc? || d.ArrayDoc?)
    requires u <= before + Render(d) && u != before + Render(d)
    ensures !LooksComplete(u)
  {
    hide LooksRoot, Render, Valid, Completed, OnlyFence, PlainText;
    var t := before + Render(d);
    assert t == before + (Render(d) + "");
    WholeReply(before, d, "");
    if LooksComplete(u) { LooksInWhole(u, t, 0, "", false, Code); }
  }

  /** A closing bracket before any opening one makes the raw scanner give up for good. */
  lemma {:induction false} StrayCloserEnds(t: string, i: nat, k: nat)
    requires i <= k < |t| && Closer(t[k]) && forall j :: i <= j < k ==> t[j] != '/' && !Opener(t[j])
    ensures LooksRoot(t, i, "", false, Code) == None
    decreases k - i
  {
    if i < k && !Closer(t[i]) { StrayCloserEnds(t, i + 1, k); }
  }
}
