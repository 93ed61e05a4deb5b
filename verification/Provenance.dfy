/**
  The second, independently written scanner (agently/utils/StreamingJSONParser.py:74-122), which decides
  whether the raw buffer is complete, run against the completer's scan.
 */
module Provenance {
  import opened Chars
  import opened Completer

  /** What is left after the root closer: nothing, or a closing code fence. */
  predicate TailOk(t: string, i: nat)
    requires i <= |t|
  {
    var k := SkipSpace(t, i);
    k == |t| || "```" <= t[k..]
  }

  /** One turn outside comments and strings; `None` when the scanner gives up. */
  function LooksInCode(t: string, i: nat, stack: string, started: bool): (r: Option<(string, bool, Mode)>)
    requires i < |t|
  {
    var c := t[i];
    if c == '/' && At(t, i + 1) == Some('/') then Some((stack, started, LineComment))
    else if c == '/' && At(t, i + 1) == Some('*') then Some((stack, started, BlockComment))
    else if c == '\"' || c == '\'' then Some((stack, started, if started then Quoted(c, false) else Code))
    else if Opener(c) then Some((stack + [ClosingOf(c)], true, Code))
    else if Closer(c) then
      if stack == "" || stack[|stack| - 1] != c then None else Some((stack[..|stack| - 1], started, Code))
    else Some((stack, started, Code))
  }

  function LooksOutsideCode(t: string, i: nat, mode: Mode): Mode
    requires i < |t| && mode != Code
  {
    var c := t[i];
    match mode
    case LineComment => if c == '\r' || c == '\n' then Code else LineComment
    case BlockComment => if c == '*' && At(t, i + 1) == Some('/') then Code else BlockComment
    case Quoted(q, escape) =>
      if escape then Quoted(q, false) else if c == '\\' then Quoted(q, true) else if c == q then Code else mode
  }

  /** Where the scanner sees the root closed; `stack` holds the awaited closers. */
  function LooksRoot(t: string, i: nat, stack: string, started: bool, mode: Mode): (k: Option<nat>)
    requires i <= |t|
    ensures k.Some? ==> i <= k.value < |t|
    decreases |t| - i
  {
    if i == |t| then None
    else if mode != Code then LooksRoot(t, i + 1, stack, started, LooksOutsideCode(t, i, mode))
    else
      match LooksInCode(t, i, stack, started)
      case None => None
      case Some((stack', started', mode')) =>
        if Closer(t[i]) && started' && stack' == "" then Some(i)
        else LooksRoot(t, i + 1, stack', started', mode')
  }

  /** The root closer the scanner finds in a text. */
  function RootOf(t: string): (k: Option<nat>)
    ensures k.Some? ==> k.value < |t|
  {
    LooksRoot(t, 0, "", false, Code)
  }

  predicate LooksComplete(t: string) { RootOf(t).Some? && TailOk(t, RootOf(t).value + 1) }

  method LooksStructurallyComplete(text: string) returns (r: bool)
    ensures r == LooksComplete(text)
  {
    var stack: string := "";
    var started := false;
    var mode := Code;
    for i := 0 to |text|
      invariant LooksRoot(text, i, stack, started, mode) == RootOf(text)
    {
      var c, next := text[i], At(text, i + 1);
      if mode == LineComment {
        if c == '\r' || c == '\n' { mode := Code; }
        continue;
      }
      if mode == BlockComment {
        if c == '*' && next == Some('/') { mode := Code; }
        continue;
      }
      if mode.Quoted? {
        if mode.escape {
          mode := Quoted(mode.quote, false);
        } else if c == '\\' {
          mode := Quoted(mode.quote, true);
        } else if c == mode.quote {
          mode := Code;
        }
        continue;
      }
      if c == '/' && next == Some('/') {
        mode := LineComment;
        continue;
      }
      if c == '/' && next == Some('*') {
        mode := BlockComment;
        continue;
      }
      if c == '\"' || c == '\'' {
        if started { mode := Quoted(c, false); }
        continue;
      }
      if Opener(c) {
        started := true;
        stack := stack + [if c == '{' then '}' else ']'];
        continue;
      }
      if Closer(c) {
        if stack == "" || stack[|stack| - 1] != c { return false; }
        stack := stack[..|stack| - 1];
        if started && stack == "" {
          var k := SkipSpace(text, i + 1);
          return k == |text| || "```" <= text[k..];
        }
      }
    }
    return false;
  }

  /** Where the scanner meets its first bracket; `None` when it gives up or runs out before. */
  function StartOf(t: string, i: nat, mode: Mode): (b: Option<nat>)
    requires i <= |t|
    ensures b.Some? ==> i <= b.value < |t| && Opener(t[b.value])
    decreases |t| - i
  {
    if i == |t| then None
    else if mode != Code then StartOf(t, i + 1, LooksOutsideCode(t, i, mode))
    else if Opener(t[i]) then Some(i)
    else
      match LooksInCode(t, i, "", false)
      case None => None
      case Some((_, _, mode')) => StartOf(t, i + 1, mode')
  }

  lemma {:induction false} LooksSkipsPreamble(t: string, i: nat, mode: Mode)
    requires i <= |t|
    ensures var b := StartOf(t, i, mode);
            LooksRoot(t, i, "", false, mode) == if b.Some? then LooksRoot(t, b.value, "", false, Code) else None
    decreases |t| - i
  {
    if i < |t| {
      if mode != Code {
        LooksSkipsPreamble(t, i + 1, LooksOutsideCode(t, i, mode));
      } else if !Opener(t[i]) {
        match LooksInCode(t, i, "", false)
        case None =>
        case Some((_, _, mode')) => LooksSkipsPreamble(t, i + 1, mode');
      }
    }
  }

  /** The completer's scan meets no closer that it has to ignore. */
  predicate NoStray(t: string, i: nat, s: State)
    requires i <= |t|
    decreases |t| - i
  {
    if i == |t| then true
    else
      var turn := TakeTurn(s, t[i], At(t, i + 1));
      if s.mode == Code && Closer(t[i]) && turn.state == s then false
      else turn.root || NoStray(t, i + turn.width, turn.state)
  }

  /**
    The two scanners read this turn of the completer alike: no slash follows the opening of a block comment,
    and neither a slash nor a star follows its end. The raw scanner takes the star of an opening as the first
    character of the comment, and the slash of an end as the first one after it.
   */
  predicate ReadAlike(t: string, i: nat, s: State)
    requires i < |t|
  {
    var turn := TakeTurn(s, t[i], At(t, i + 1));
    && (s.mode == Code && turn.state.mode.BlockComment? ==> At(t, i + 2) != Some('/'))
    && (s.mode.BlockComment? && turn.state.mode == Code ==> At(t, i + 2) != Some('/') && At(t, i + 2) != Some('*'))
  }

  /** Every turn of the completer's scan, up to the end or the root closer, is read alike. */
  predicate Aligned(t: string, i: nat, s: State)
    requires i <= |t|
    decreases |t| - i
  {
    if i == |t| then true
    else
      var turn := TakeTurn(s, t[i], At(t, i + 1));
      ReadAlike(t, i, s) && (turn.root || Aligned(t, i + turn.width, turn.state))
  }

  function Awaited(stack: string): (r: string)
    ensures |r| == |stack|
  {
    seq(|stack|, i requires 0 <= i < |stack| => ClosingOf(stack[i]))
  }

  lemma AwaitedPush(stack: string, c: char)
    ensures Awaited(stack + [c]) == Awaited(stack) + [ClosingOf(c)]
  {
  }

  lemma AwaitedPop(stack: string)
    requires stack != ""
    ensures Awaited(stack[..|stack| - 1]) == Awaited(stack)[..|stack| - 1]
  {
  }

  /** One turn in code, seen by both scanners. */
  lemma CodeLockstep(t: string, i: nat, stack: string)
    requires i < |t| && OnlyOpeners(stack)
    requires stack == "" ==> Opener(t[i])
    ensures var turn := CodeTurn(stack, t[i], At(t, i + 1));
            var looks := LooksInCode(t, i, Awaited(stack), stack != "");
            if Closer(t[i]) && turn.state == State(stack, Code) then looks.None? && !turn.root
            else
              && looks == Some((Awaited(turn.state.stack), true, turn.state.mode))
              && (turn.root <==> Closer(t[i]) && turn.state.stack == "")
              && (turn.width == 2 <==> turn.state.mode.LineComment? || turn.state.mode.BlockComment?)
              && (turn.state.stack == "" ==> turn.root)
  {
    var c := t[i];
    if Opener(c) { AwaitedPush(stack, c); }
    if stack != "" { AwaitedPop(stack); }
  }

  /**
    From the first bracket on, the two scanners run in lockstep: same mode, same brackets, and the same root
    closer unless the completer ignored a bracket on the way. The stack is empty only at the first bracket.
   */
  lemma {:induction false} Lockstep(t: string, i: nat, s: State)
    requires i <= |t| && OnlyOpeners(s.stack) && Aligned(t, i, s)
    requires s.stack == "" ==> s.mode == Code && i < |t| && Opener(t[i])
    ensures LooksRoot(t, i, Awaited(s.stack), s.stack != "", s.mode)
         == if Scan(t, i, s).Root? && NoStray(t, i, s) then Some(Scan(t, i, s).at) else None
    decreases |t| - i
  {
    hide *;
    BothTurn(t, i, s);
    if i < |t| {
      var turn := TakeTurn(s, t[i], At(t, i + 1));
      TurnKeeps(t, i, s);
      LooksTurn(t, i, Awaited(s.stack), s.stack != "", s.mode);
      if s.mode == Code { CodeLockstep(t, i, s.stack); }
      if !turn.root && !(s.mode == Code && Closer(t[i]) && turn.state == s) {
        Lockstep(t, i + turn.width, turn.state);
        if turn.width == 2 { SecondCharacter(t, i, s, Awaited(turn.state.stack)); }
      }
    }
  }

  /** One turn of the raw scanner. */
  lemma LooksTurn(t: string, i: nat, stack: string, started: bool, mode: Mode)
    requires i < |t|
    ensures mode != Code ==>
      LooksRoot(t, i, stack, started, mode) == LooksRoot(t, i + 1, stack, started, LooksOutsideCode(t, i, mode))
    ensures mode == Code && LooksInCode(t, i, stack, started).None? ==> LooksRoot(t, i, stack, started, mode) == None
    ensures mode == Code && LooksInCode(t, i, stack, started).Some? ==>
      var (stack', started', mode') := LooksInCode(t, i, stack, started).value;
      LooksRoot(t, i, stack, started, mode) ==
        if Closer(t[i]) && started' && stack' == "" then Some(i) else LooksRoot(t, i + 1, stack', started', mode')
  {
  }

  /** One turn of the completer's scan. */
  lemma BothTurn(t: string, i: nat, s: State)
    requires i <= |t|
    ensures i == |t| ==> Scan(t, i, s) == Open(s) && NoStray(t, i, s) && Aligned(t, i, s)
    ensures i == |t| ==> forall stack, started, mode :: LooksRoot(t, i, stack, started, mode) == None
    ensures i < |t| ==>
      var turn := TakeTurn(s, t[i], At(t, i + 1));
      && 1 <= turn.width <= 2 && i + turn.width <= |t|
      && Scan(t, i, s) == (if turn.root then Root(i) else Scan(t, i + turn.width, turn.state))
      && (Aligned(t, i, s) <==> ReadAlike(t, i, s) && (turn.root || Aligned(t, i + turn.width, turn.state)))
      && (NoStray(t, i, s) <==>
           !(s.mode == Code && Closer(t[i]) && turn.state == s)
             && (turn.root || NoStray(t, i + turn.width, turn.state)))
  {
  }

  /** What the turn keeps, and how both scanners take its first character outside code. */
  lemma TurnKeeps(t: string, i: nat, s: State)
    requires i < |t| && OnlyOpeners(s.stack)
    ensures var turn := TakeTurn(s, t[i], At(t, i + 1));
      && OnlyOpeners(turn.state.stack)
      && (s.mode == Code ==> turn == CodeTurn(s.stack, t[i], At(t, i + 1)))
      && (s.mode == Code && turn.width == 2 ==> turn.state.stack == s.stack && !Opener(t[i]) && !Closer(t[i]))
      && (s.mode != Code ==> turn.state == State(s.stack, LooksOutsideCode(t, i, s.mode)) && !turn.root)
  {
  }

  /** The second character of a comment mark, which the completer takes along, leaves the raw scanner where it is. */
  lemma SecondCharacter(t: string, i: nat, s: State, stack: string)
    requires i < |t| && TakeTurn(s, t[i], At(t, i + 1)).width == 2 && ReadAlike(t, i, s)
    ensures i + 2 <= |t|
    ensures var mode := TakeTurn(s, t[i], At(t, i + 1)).state.mode;
      LooksRoot(t, i + 1, stack, true, mode) == LooksRoot(t, i + 2, stack, true, mode)
  {
    LooksTurn(t, i + 1, stack, true, TakeTurn(s, t[i], At(t, i + 1)).state.mode);
    hide LooksRoot;
  }

  /** The raw scanner's answer covers raw text only: the completer returns the buffer up to the same root closer. */
  predicate Honest(t: string) {
    LooksComplete(t) ==> Completed(t) == t[..RootOf(t).value + 1]
  }

  /** The text before the first bracket leaves the completer outside strings and comments. */
  predicate NeutralStart(t: string) {
    StartOf(t, 0, Code).Some? ==> Scan(t[..StartOf(t, 0, Code).value], 0, START) == Open(START)
  }

  /** From the first bracket on, both scanners read the completer's turns alike. */
  predicate AlignedText(t: string) {
    StartOf(t, 0, Code).Some? ==> Aligned(t, StartOf(t, 0, Code).value, START)
  }

  lemma ScanReachesStart(t: string, b: nat)
    requires b < |t| && Opener(t[b]) && Scan(t[..b], 0, START) == Open(START)
    ensures Scan(t, 0, START) == Scan(t, b, START)
  {
    assert t == t[..b] + t[b..] && t[b..][0] == t[b];
    ScanSeam(t[..b], t[b..], 0, START);
  }

  /**
    On every such buffer the raw scanner answers yes exactly when the completer stops at a root closer without
    having ignored a bracket and only a fence follows; and it means the completer's root closer.
   */
  lemma LooksCompleteIffCompleterStops(t: string)
    requires NeutralStart(t) && AlignedText(t)
    ensures LooksComplete(t) <==>
            && StartOf(t, 0, Code).Some?
            && Scan(t, 0, START).Root?
            && NoStray(t, StartOf(t, 0, Code).value, START)
            && TailOk(t, Scan(t, 0, START).at + 1)
    ensures LooksComplete(t) ==> RootOf(t) == Some(Scan(t, 0, START).at)
  {
    hide LooksRoot, StartOf, Scan, NoStray, Aligned, TailOk;
    LooksSkipsPreamble(t, 0, Code);
    match StartOf(t, 0, Code)
    case None =>
    case Some(b) =>
      ScanReachesStart(t, b);
      Lockstep(t, b, START);
      assert Awaited("") == "";
  }

  /** Provenance is honest: a buffer judged complete is read from raw text only. */
  lemma ReconciledTextIsRaw(t: string)
    requires NeutralStart(t) && AlignedText(t)
    ensures Honest(t)
  {
    LooksCompleteIffCompleterStops(t);
  }

  /** In particular for buffers without a slash and without a quote before the first bracket. */
  lemma {:induction false} PlainPreambleIsNeutral(t: string, i: nat)
    requires i <= |t| && forall k :: 0 <= k < |t| ==> t[k] != '/'
    requires var b := StartOf(t, i, Code);
             forall k :: i <= k < (if b.Some? then b.value else |t|) ==> t[k] != '\"' && t[k] != '\''
    ensures var b := StartOf(t, i, Code); b.Some? ==> Scan(t[..b.value], i, START) == Open(START)
    decreases |t| - i
  {
    var b := StartOf(t, i, Code);
    if b.Some? && i < b.value {
      assert LooksInCode(t, i, "", false).Some?;
      PlainPreambleIsNeutral(t, i + 1);
      assert TakeTurn(START, t[..b.value][i], At(t[..b.value], i + 1)) == Turn(START, 1, false);
    }
  }

  lemma {:induction false} NoCommentsAligned(t: string, i: nat, s: State)
    requires i <= |t| && !s.mode.BlockComment? && forall k :: 0 <= k < |t| ==> t[k] != '/'
    ensures Aligned(t, i, s)
    decreases |t| - i
  {
    if i < |t| {
      var turn := TakeTurn(s, t[i], At(t, i + 1));
      if !turn.root { NoCommentsAligned(t, i + turn.width, turn.state); }
    }
  }

  lemma ReconciledTextIsRawPlain(t: string)
    requires forall k :: 0 <= k < |t| ==> t[k] != '/'
    requires var b := StartOf(t, 0, Code);
             forall k :: 0 <= k < (if b.Some? then b.value else |t|) ==> t[k] != '\"' && t[k] != '\''
    ensures Honest(t)
  {
    PlainPreambleIsNeutral(t, 0);
    if StartOf(t, 0, Code).Some? { NoCommentsAligned(t, StartOf(t, 0, Code).value, START); }
    ReconciledTextIsRaw(t);
  }
}
