/**
  The repair automaton (agently/utils/DataLocator.py:346-545). It turns full-width punctuation and curly
  quotes back into ASCII where they are structure, and leaves the contents of strings alone.
 */
module Repair {
  import opened Chars

  /** The structural translations of the repair table. */
  function Normalized(c: char): char {
    match c
    case '\U{FF1A}' => ':'
    case '\U{FF0C}' => ','
    case '\U{FF5B}' => '{'
    case '\U{FF5D}' => '}'
    case '\U{FF3B}' => '['
    case '\U{FF3D}' => ']'
    case _ => c
  }

  predicate QuoteVariant(c: char, delimiter: char) {
    if delimiter == '\"' then c == '\"' || c == '\U{201C}' || c == '\U{201D}' || c == '\U{FF02}'
    else c == '\'' || c == '\U{2018}' || c == '\U{2019}' || c == '\U{FF07}'
  }

  /** The ASCII form of a character's kind: what repair may write in its place. */
  function Ascii(c: char): (r: char)
    ensures QuoteVariant(c, '\"') <==> r == '\"'
    ensures QuoteVariant(c, '\'') <==> r == '\''
    ensures !QuoteVariant(c, '\"') && !QuoteVariant(c, '\'') ==> r == Normalized(c)
    ensures IsSpace(r) <==> IsSpace(c)
    ensures r != c ==> Ascii(r) == r
  {
    if QuoteVariant(c, '\"') then '\"' else if QuoteVariant(c, '\'') then '\'' else Normalized(c)
  }

  predicate SameKind(c: char, d: char) { Ascii(c) == Ascii(d) }

  datatype Container = RootContainer | ObjectContainer | ArrayContainer

  datatype Phase = KeyOrEnd | Colon | ValueNext | ValueOrEnd | CommaOrEnd | Done

  datatype Context = Context(container: Container, phase: Phase)

  datatype Role = Key | Value

  datatype Mode = Plain | InString(delimiter: char, role: Role, escape: bool) | InPrimitive(role: Role)

  /** `contexts` is the context stack, innermost last. */
  datatype State = State(contexts: seq<Context>, mode: Mode)

  const START := State([Context(RootContainer, ValueOrEnd)], Plain)

  predicate ContextOk(c: Context) {
    match c.container
    case RootContainer => c.phase == ValueOrEnd || c.phase == Done
    case ObjectContainer => c.phase == KeyOrEnd || c.phase == Colon || c.phase == ValueNext || c.phase == CommaOrEnd
    case ArrayContainer => c.phase == ValueOrEnd || c.phase == CommaOrEnd
  }

  predicate Awaits(c: Context, role: Role) {
    if role == Key then c.phase == KeyOrEnd else c.phase == ValueNext || c.phase == ValueOrEnd
  }

  /**
    The automaton's invariant: exactly one root, at the bottom; a root is never waiting for a comma; an
    open string or primitive has the role its context waits for.
   */
  predicate Ok(s: State) {
    && |s.contexts| >= 1
    && (forall i :: 0 <= i < |s.contexts| ==> ContextOk(s.contexts[i]))
    && (forall i :: 0 <= i < |s.contexts| ==> (s.contexts[i].container.RootContainer? <==> i == 0))
    && match s.mode
       case Plain => true
       case InString(d, role, _) => (d == '\"' || d == '\'') && Awaits(Top(s.contexts), role)
       case InPrimitive(role) => Awaits(Top(s.contexts), role)
  }

  function Top(contexts: seq<Context>): Context
    requires |contexts| >= 1
  {
    contexts[|contexts| - 1]
  }

  function SetPhase(contexts: seq<Context>, phase: Phase): (r: seq<Context>)
    requires |contexts| >= 1
  {
    contexts[|contexts| - 1 := Top(contexts).(phase := phase)]
  }

  function MarkCompleted(contexts: seq<Context>): seq<Context>
    requires |contexts| >= 1
  {
    SetPhase(contexts, if Top(contexts).container.RootContainer? then Done else CommaOrEnd)
  }

  /** A quote closes a string when the next visible character fits what follows such a string. */
  predicate CanClose(next: Option<char>, role: Role) {
    match next
    case None => role == Value
    case Some(c) =>
      var n := Normalized(c);
      if role == Key then n == ':' else n == ',' || n == '}' || n == ']'
  }

  /** One turn of the loop: whether the character is consumed, and whether it is written in ASCII form. */
  datatype Turn = Turn(state: State, advance: bool, rewrite: bool)

  function StringTurn(s: State, c: char, next: Option<char>): Turn
    requires Ok(s) && s.mode.InString?
  {
    if s.mode.escape then Turn(s.(mode := s.mode.(escape := false)), true, false)
    else if c == '\\' then Turn(s.(mode := s.mode.(escape := true)), true, false)
    else if QuoteVariant(c, s.mode.delimiter) && CanClose(next, s.mode.role) then
      var contexts := if s.mode.role == Key then SetPhase(s.contexts, Colon) else MarkCompleted(s.contexts);
      Turn(State(contexts, Plain), true, true)
    else Turn(s, true, false)
  }

  function PrimitiveTurn(s: State, c: char): Turn
    requires Ok(s) && s.mode.InPrimitive?
  {
    var n := Normalized(c);
    if s.mode.role == Key then
      if n == ':' then Turn(State(SetPhase(s.contexts, ValueNext), Plain), true, true) else Turn(s, true, false)
    else if IsSpace(c) then Turn(State(MarkCompleted(s.contexts), Plain), true, false)
    else if n == ',' || n == '}' || n == ']' then Turn(State(MarkCompleted(s.contexts), Plain), false, false)
    else Turn(s, true, false)
  }

  function PlainTurn(s: State, c: char): Turn
    requires Ok(s) && s.mode.Plain?
  {
    var n, top := Normalized(c), Top(s.contexts);
    var awaitsText := Awaits(top, Key) || Awaits(top, Value);
    var role := if top.phase == KeyOrEnd then Key else Value;
    if IsSpace(c) then Turn(s, true, false)
    else if awaitsText && QuoteVariant(c, '\"') then Turn(s.(mode := InString('\"', role, false)), true, true)
    else if awaitsText && QuoteVariant(c, '\'') then Turn(s.(mode := InString('\'', role, false)), true, true)
    else if (n == '{' || n == '[') && Awaits(top, Value) then
      var inner := if n == '{' then Context(ObjectContainer, KeyOrEnd) else Context(ArrayContainer, ValueOrEnd);
      Turn(State(s.contexts + [inner], Plain), true, true)
    else if n == '}' && top.container.ObjectContainer? && (top.phase == KeyOrEnd || top.phase == CommaOrEnd) then
      Turn(State(MarkCompleted(s.contexts[..|s.contexts| - 1]), Plain), true, true)
    else if n == ']' && top.container.ArrayContainer? && (top.phase == ValueOrEnd || top.phase == CommaOrEnd) then
      Turn(State(MarkCompleted(s.contexts[..|s.contexts| - 1]), Plain), true, true)
    else if n == ':' && top.container.ObjectContainer? && top.phase == Colon then
      Turn(State(SetPhase(s.contexts, ValueNext), Plain), true, true)
    else if n == ',' && top.phase == CommaOrEnd then
      var phase := if top.container.ObjectContainer? then KeyOrEnd else ValueOrEnd;
      Turn(State(SetPhase(s.contexts, phase), Plain), true, true)
    else if awaitsText then Turn(s.(mode := InPrimitive(role)), true, false)
    else Turn(s, true, false)
  }

  /** Every turn keeps the invariant; the one that does not consume its character leaves a primitive. */
  function TakeTurn(s: State, c: char, next: Option<char>): (r: Turn)
    requires Ok(s)
    ensures Ok(r.state)
    ensures !r.advance ==> s.mode.InPrimitive? && r.state.mode.Plain?
  {
    match s.mode
    case InString(_, _, _) => StringTurn(s, c, next)
    case InPrimitive(_) => PrimitiveTurn(s, c)
    case Plain => PlainTurn(s, c)
  }

  function NextVisible(t: string, i: nat): Option<char>
    requires i <= |t|
  {
    var j := SkipSpace(t, i);
    if j < |t| then Some(t[j]) else None
  }

  /** For each character from `i` on: does repair write its ASCII form? Every other one is kept. */
  function Rewrites(t: string, i: nat, s: State): (r: seq<bool>)
    requires i <= |t| && Ok(s)
    ensures |r| == |t| - i
    decreases |t| - i, if s.mode.InPrimitive? then 1 else 0
  {
    if i == |t| then []
    else
      var turn := TakeTurn(s, t[i], NextVisible(t, i + 1));
      if turn.advance then [turn.rewrite] + Rewrites(t, i + 1, turn.state) else Rewrites(t, i, turn.state)
  }

  function Written(c: char, rewrite: bool): char { if rewrite then Ascii(c) else c }

  /** The repaired text: as long as the input, each character kept or put into the ASCII form of its kind. */
  function Repaired(t: string): (r: string)
    ensures |r| == |t|
    ensures forall i :: 0 <= i < |t| ==> r[i] == t[i] || r[i] == Ascii(t[i])
  {
    var rewrites := Rewrites(t, 0, START);
    seq(|t|, i requires 0 <= i < |t| => Written(t[i], rewrites[i]))
  }

  // The automaton sees kinds only.

  ghost predicate SameKinds(t: string, u: string) {
    |t| == |u| && forall i :: 0 <= i < |t| ==> SameKind(t[i], u[i])
  }

  lemma KindFacts(c: char, d: char)
    requires SameKind(c, d)
    ensures IsSpace(c) == IsSpace(d) && (c == '\\') == (d == '\\')
    ensures QuoteVariant(c, '\"') == QuoteVariant(d, '\"') && QuoteVariant(c, '\'') == QuoteVariant(d, '\'')
    ensures (Normalized(c) == ':') == (Normalized(d) == ':') && (Normalized(c) == ',') == (Normalized(d) == ',')
    ensures (Normalized(c) == '{') == (Normalized(d) == '{') && (Normalized(c) == '}') == (Normalized(d) == '}')
    ensures (Normalized(c) == '[') == (Normalized(d) == '[') && (Normalized(c) == ']') == (Normalized(d) == ']')
  {
  }

  lemma StringTurnSeesKinds(s: State, c: char, d: char, next: Option<char>, next': Option<char>)
    requires Ok(s) && s.mode.InString? && SameKind(c, d)
    requires next.Some? <==> next'.Some?
    requires next.Some? ==> SameKind(next.value, next'.value)
    ensures StringTurn(s, c, next) == StringTurn(s, d, next')
  {
    KindFacts(c, d);
    if next.Some? { KindFacts(next.value, next'.value); }
    assert CanClose(next, s.mode.role) == CanClose(next', s.mode.role);
  }

  lemma TurnSeesKinds(s: State, c: char, d: char, next: Option<char>, next': Option<char>)
    requires Ok(s) && SameKind(c, d)
    requires next.Some? <==> next'.Some?
    requires next.Some? ==> SameKind(next.value, next'.value)
    ensures TakeTurn(s, c, next) == TakeTurn(s, d, next')
  {
    KindFacts(c, d);
    if s.mode.InString? { StringTurnSeesKinds(s, c, d, next, next'); }
  }

  lemma {:induction false} SkipSeesKinds(t: string, u: string, i: nat)
    requires SameKinds(t, u) && i <= |t|
    ensures SkipSpace(t, i) == SkipSpace(u, i)
    decreases |t| - i
  {
    if i < |t| {
      assert SameKind(t[i], u[i]);
      if IsSpace(t[i]) { SkipSeesKinds(t, u, i + 1); }
    }
  }

  lemma NextSeesKinds(t: string, u: string, i: nat)
    requires SameKinds(t, u) && i <= |t|
    ensures var next, next' := NextVisible(t, i), NextVisible(u, i);
            next.Some? == next'.Some? && (next.Some? ==> SameKind(next.value, next'.value))
  {
    SkipSeesKinds(t, u, i);
    hide SkipSpace, SameKind;
  }

  /** Texts that agree in kind are rewritten at the same places. */
  lemma {:induction false} RewritesSeeKinds(t: string, u: string, i: nat, s: State)
    requires SameKinds(t, u) && i <= |t| && Ok(s)
    ensures Rewrites(t, i, s) == Rewrites(u, i, s)
    decreases |t| - i, if s.mode.InPrimitive? then 1 else 0
  {
    hide *;
    KindsAt(t, u, i);
    RewritesNothing(t, i, s);
    RewritesNothing(u, i, s);
    if i < |t| {
      NextSeesKinds(t, u, i + 1);
      TurnSeesKinds(s, t[i], u[i], NextVisible(t, i + 1), NextVisible(u, i + 1));
      RewritesTurn(t, i, s);
      RewritesTurn(u, i, s);
      var turn := TakeTurn(s, t[i], NextVisible(t, i + 1));
      RewritesSeeKinds(t, u, if turn.advance then i + 1 else i, turn.state);
    }
  }

  /** Repairing twice changes nothing, whatever the text. */
  lemma RepairedIdempotent(t: string)
    ensures Repaired(Repaired(t)) == Repaired(t)
  {
    var u := Repaired(t);
    RewritesSeeKinds(t, u, 0, START);
  }

  /** A text already in ASCII forms is left as it is. */
  lemma RepairedIsIdentityOnAscii(t: string)
    requires forall i :: 0 <= i < |t| ==> Ascii(t[i]) == t[i]
    ensures Repaired(t) == t
  {
  }

  // The loop itself.

  /** What is written so far, followed by what the automaton still writes, is the repaired text. */
  ghost predicate Wrote(t: string, i: nat, s: State, written: string) {
    && i <= |t| && |written| == i && Ok(s)
    && Rewrites(t, 0, START)[i..] == Rewrites(t, i, s)
    && written == Repaired(t)[..i]
  }

  lemma KindsAt(t: string, u: string, i: nat)
    requires SameKinds(t, u) && i <= |t|
    ensures |t| == |u| && (i < |t| ==> SameKind(t[i], u[i]))
  {
  }

  lemma RewritesNothing(t: string, i: nat, s: State)
    requires i <= |t| && Ok(s)
    ensures i == |t| ==> Rewrites(t, i, s) == []
  {
  }

  lemma RewritesTurn(t: string, i: nat, s: State)
    requires i < |t| && Ok(s)
    ensures var turn := TakeTurn(s, t[i], NextVisible(t, i + 1));
            Rewrites(t, i, s) == if turn.advance then [turn.rewrite] + Rewrites(t, i + 1, turn.state)
              else Rewrites(t, i, turn.state)
  {
  }

  lemma WroteOne(t: string, i: nat, s: State, written: string)
    requires Wrote(t, i, s, written) && i < |t|
    ensures var turn := TakeTurn(s, t[i], NextVisible(t, i + 1));
            if turn.advance then Wrote(t, i + 1, turn.state, written + [Written(t[i], turn.rewrite)])
            else Wrote(t, i, turn.state, written)
  {
    hide *;
    WroteMeans(t, i, s, written);
    RewritesTurn(t, i, s);
    var turn := TakeTurn(s, t[i], NextVisible(t, i + 1));
    var all := Rewrites(t, 0, START);
    if turn.advance {
      assert all[i] == all[i..][0] == turn.rewrite;
      assert all[i + 1..] == all[i..][1..] == Rewrites(t, i + 1, turn.state);
      RepairedAt(t, i);
      assert Repaired(t)[..i + 1] == Repaired(t)[..i] + [Repaired(t)[i]];
      WroteMeans(t, i + 1, turn.state, written + [Written(t[i], turn.rewrite)]);
    } else {
      WroteMeans(t, i, turn.state, written);
    }
  }

  lemma WroteMeans(t: string, i: nat, s: State, written: string)
    ensures Ok(START) && (Wrote(t, i, s, written) <==>
      && i <= |t| && |written| == i && Ok(s)
      && Rewrites(t, 0, START)[i..] == Rewrites(t, i, s) && written == Repaired(t)[..i])
  {
    hide Repaired, Rewrites;
  }

  lemma RepairedAt(t: string, i: nat)
    requires i < |t|
    ensures Ok(START) && Repaired(t)[i] == Written(t[i], Rewrites(t, 0, START)[i])
  {
    hide Rewrites;
  }

  method NextNonWhitespaceChar(text: string, start: nat) returns (r: Option<char>)
    requires start <= |text|
    ensures r == NextVisible(text, start)
  {
    for index := start to |text|
      invariant SkipSpace(text, start) == SkipSpace(text, index)
    {
      if !IsSpace(text[index]) { return Some(text[index]); }
    }
    return None;
  }

  /** The branch inside a string. */
  method StepInString(text: string, index: nat, s: State) returns (s': State, written: string)
    requires index < |text| && Ok(s) && s.mode.InString?
    ensures var turn := TakeTurn(s, text[index], NextVisible(text, index + 1));
            s' == turn.state && turn.advance && written == [Written(text[index], turn.rewrite)]
  {
    var c := text[index];
    var InString(delimiter, role, escape) := s.mode;
    if escape {
      return State(s.contexts, InString(delimiter, role, false)), [c];
    }
    if c == '\\' {
      return State(s.contexts, InString(delimiter, role, true)), [c];
    }
    if QuoteVariant(c, delimiter) {
      var next := NextNonWhitespaceChar(text, index + 1);
      if CanClose(next, role) {
        if role == Key {
          return State(SetPhase(s.contexts, Colon), Plain), [delimiter];
        }
        return State(MarkCompleted(s.contexts), Plain), [delimiter];
      }
    }
    return s, [c];
  }

  /** The branch inside a key or value without quotes. It writes nothing when it leaves the character. */
  method StepInPrimitive(c: char, s: State) returns (s': State, written: string)
    requires Ok(s) && s.mode.InPrimitive?
    ensures var turn := PrimitiveTurn(s, c);
            s' == turn.state && written == if turn.advance then [Written(c, turn.rewrite)] else ""
  {
    var n := Normalized(c);
    if s.mode.role == Key {
      if n == ':' {
        return State(SetPhase(s.contexts, ValueNext), Plain), ":";
      }
      return s, [c];
    }
    if IsSpace(c) {
      return State(MarkCompleted(s.contexts), Plain), [c];
    }
    if n == ',' || n == '}' || n == ']' {
      return State(MarkCompleted(s.contexts), Plain), "";
    }
    return s, [c];
  }

  /** The branch outside strings and primitives. */
  method StepPlain(c: char, s: State) returns (s': State, written: char)
    requires Ok(s) && s.mode.Plain?
    ensures var turn := PlainTurn(s, c);
            s' == turn.state && turn.advance && written == Written(c, turn.rewrite)
  {
    var contexts, n := s.contexts, Normalized(c);
    var top := Top(contexts);
    var phase := top.phase;
    if IsSpace(c) {
      return s, c;
    }
    var awaitsText := phase == KeyOrEnd || phase == ValueNext || phase == ValueOrEnd;
    var role := if phase == KeyOrEnd then Key else Value;
    if awaitsText && QuoteVariant(c, '\"') {
      return State(contexts, InString('\"', role, false)), '\"';
    }
    if awaitsText && QuoteVariant(c, '\'') {
      return State(contexts, InString('\'', role, false)), '\'';
    }
    if (n == '{' || n == '[') && (phase == ValueNext || phase == ValueOrEnd) {
      if n == '{' {
        contexts := contexts + [Context(ObjectContainer, KeyOrEnd)];
      } else {
        contexts := contexts + [Context(ArrayContainer, ValueOrEnd)];
      }
      return State(contexts, Plain), n;
    }
    if n == '}' && top.container.ObjectContainer? && (phase == KeyOrEnd || phase == CommaOrEnd) {
      contexts := contexts[..|contexts| - 1];
      return State(MarkCompleted(contexts), Plain), '}';
    }
    if n == ']' && top.container.ArrayContainer? && (phase == ValueOrEnd || phase == CommaOrEnd) {
      contexts := contexts[..|contexts| - 1];
      return State(MarkCompleted(contexts), Plain), ']';
    }
    if n == ':' && top.container.ObjectContainer? && phase == Colon {
      return State(SetPhase(contexts, ValueNext), Plain), ':';
    }
    if n == ',' && phase == CommaOrEnd {
      contexts := SetPhase(contexts, if top.container.ObjectContainer? then KeyOrEnd else ValueOrEnd);
      return State(contexts, Plain), ',';
    }
    if awaitsText {
      return State(contexts, InPrimitive(role)), c;
    }
    return s, c;
  }

  method RepairJsonFragment(text: string) returns (repaired: string)
    ensures repaired == Repaired(text)
  {
    var s := START;
    repaired := "";
    var index := 0;
    while index < |text|
      invariant Wrote(text, index, s, repaired)
      decreases |text| - index, s.mode.InPrimitive?
    {
      WroteOne(text, index, s, repaired);
      var written: string;
      if s.mode.InString? {
        s, written := StepInString(text, index, s);
      } else if s.mode.InPrimitive? {
        s, written := StepInPrimitive(text[index], s);
      } else {
        var c;
        s, c := StepPlain(text[index], s);
        written := [c];
      }
      repaired := repaired + written;
      index := index + |written|;
    }
    assert Repaired(text)[..|text|] == Repaired(text);
  }
}
