/**
  Where provenance fails: both conditions under which a buffer judged complete is read from raw text only
  (agently/utils/StreamingJSONParser.py:74-122 and 730-737) are exact. For the text before the first bracket,
  and for each comment mark, there is a continuation that is otherwise read alike and on which it fails.
 */
module ProvenanceExact {
  import opened Chars
  import opened Completer
  import opened Provenance

  // The text before the first bracket.

  /** Where the raw scanner starts depends only on the text up to there, not on which bracket it meets. */
  lemma {:induction false} StartSame(t: string, u: string, i: nat, mode: Mode, b: nat)
    requires b < |t| && b < |u| && t[..b] == u[..b] && Opener(u[b]) && i <= b && StartOf(t, i, mode) == Some(b)
    ensures StartOf(u, i, mode) == Some(b)
    decreases b - i
  {
    if i == b {
      StartStops(t, i, mode);
    } else {
      assert t[i] == t[..b][i] == u[i];
      if i + 1 < b { assert t[i + 1] == t[..b][i + 1] == u[i + 1]; }
      if mode != Code {
        assert LooksOutsideCode(t, i, mode) == LooksOutsideCode(u, i, mode);
        StartSame(t, u, i + 1, LooksOutsideCode(t, i, mode), b);
      } else {
        assert LooksInCode(t, i, "", false) == LooksInCode(u, i, "", false);
        var (_, _, mode') := LooksInCode(t, i, "", false).value;
        StartSame(t, u, i + 1, mode', b);
      }
    }
  }

  lemma {:induction false} StartStops(t: string, i: nat, mode: Mode)
    requires i < |t| && StartOf(t, i, mode) == Some(i)
    ensures mode == Code
  {
  }

  lemma PairLooksComplete(t: string, i: nat)
    requires i + 2 == |t| && t[i] == '{' && t[i + 1] == '}' && StartOf(t, 0, Code) == Some(i)
    ensures LooksComplete(t) && RootOf(t) == Some(i + 1)
  {
    hide *;
    LooksSkipsPreamble(t, 0, Code);
    BracketLooks(t, i);
    LooksTurn(t, i, "", false, Code);
    LooksTurn(t, i + 1, "}", true, Code);
    LooksMeans(t, i + 1);
  }

  lemma BracketLooks(t: string, i: nat)
    requires i + 1 < |t| && t[i] == '{' && t[i + 1] == '}'
    ensures LooksInCode(t, i, "", false) == Some(("}", true, Code))
    ensures LooksInCode(t, i + 1, "}", true) == Some(("", true, Code))
    ensures !Closer(t[i]) && Closer(t[i + 1])
  {
    assert "" + ['}'] == "}" && "}"[..0] == "";
  }

  /** A root closer that is the last character makes a text look complete. */
  lemma LooksMeans(t: string, k: nat)
    ensures RootOf(t) == LooksRoot(t, 0, "", false, Code)
    ensures RootOf(t) == Some(k) && k + 1 == |t| ==> LooksComplete(t)
  {
    hide LooksRoot;
    if k + 1 == |t| { NothingBehind(t); }
  }

  lemma NothingBehind(t: string)
    ensures TailOk(t, |t|)
  {
  }

  /** A pair of brackets leaves the completer's scan open unless it starts outside everything. */
  lemma PairStaysOpen(t: string, i: nat, s: State)
    requires i + 2 == |t| && t[i] == '{' && t[i + 1] == '}' && QuoteOk(s.mode) && s != START
    ensures Scan(t, i, s).Open?
    ensures var o := Scan(t, i, s).state; o.mode != Code || o.stack != ""
  {
    hide Scan, LooksRoot, Aligned, NoStray;
    var first := TakeTurn(s, t[i], At(t, i + 1));
    BothTurn(t, i, s);
    assert first.width == 1 && !first.root;
    var second := TakeTurn(first.state, t[i + 1], At(t, i + 2));
    BothTurn(t, i + 1, first.state);
    assert second.width == 1 && !second.root;
    BothTurn(t, i + 2, second.state);
  }

  lemma CompletedIsLonger(t: string)
    requires Scan(t, 0, START).Open? && (Scan(t, 0, START).state.mode != Code || Scan(t, 0, START).state.stack != "")
    ensures |Completed(t)| > |t|
  {
    CompletedMeans(t);
  }

  /** Text before the first bracket that the completer does not leave as it began makes provenance fail on `{}`. */
  lemma PairIsDishonest(u: string)
    requires StartOf(u + "{}", 0, Code) == Some(|u|) && Scan(u, 0, START) != Open(START)
    ensures !Honest(u + "{}")
  {
    hide LooksRoot, StartOf, Scan, Completed;
    var t := u + "{}";
    assert t[|u|] == '{' && t[|u| + 1] == '}';
    PairLooksComplete(t, |u|);
    match Scan(u, 0, START)
    case Root(k) =>
      assert t[..k + 1] == u[..k + 1];
      ScanStopsForGood(u, t, 0, START);
      CompletedMeans(t);
    case Open(s) =>
      ScanKeepsQuotes(u, 0, START);
      ScanSeam(u, "{}", 0, START);
      PairStaysOpen(t, |u|, s);
      CompletedIsLonger(t);
  }

  /**
    The condition on the text before the first bracket is exact. For any text that the raw scanner leaves
    waiting for a bracket: provenance holds for all that may follow and is read alike, if and only if the
    completer's scan of that text ends as it began.
   */
  lemma NeutralStartIff(u: string)
    requires StartOf(u + "{}", 0, Code) == Some(|u|)
    ensures (forall v: string :: v != "" && Opener(v[0]) && Aligned(u + v, |u|, START) ==> Honest(u + v))
        <==> Scan(u, 0, START) == Open(START)
  {
    hide LooksRoot, StartOf, Scan, Completed, Aligned, Honest;
    if Scan(u, 0, START) == Open(START) {
      forall v: string | v != "" && Opener(v[0]) && Aligned(u + v, |u|, START) ensures Honest(u + v) {
        assert (u + v)[..|u|] == u == (u + "{}")[..|u|] && (u + v)[|u|] == v[0];
        StartSame(u + "{}", u + v, 0, Code, |u|);
        ReconciledTextIsRaw(u + v);
      }
    } else {
      PairIsDishonest(u);
      PairAligned(u);
      assert "{}" != "" && Opener("{}"[0]);
    }
  }

  lemma PairAligned(u: string)
    ensures Aligned(u + "{}", |u|, START)
  {
    var t := u + "{}";
    assert t[|u|] == '{' && t[|u| + 1] == '}';
    PairTurns(At(t, |u| + 1), At(t, |u| + 2));
    hide TakeTurn;
    assert Aligned(t, |u| + 1, State("{", Code));
  }

  lemma PairTurns(next: Option<char>, after: Option<char>)
    ensures TakeTurn(START, '{', next) == Turn(State("{", Code), 1, false)
    ensures TakeTurn(State("{", Code), '}', after).root
  {
  }

  // Comment marks.

  /** From `r` at `j`, turns that are read alike and ignore no bracket lead to `s` at `i`. */
  predicate LeadsTo(t: string, j: nat, r: State, i: nat, s: State)
    requires j <= |t|
    decreases |t| - j
  {
    (i == j && s == r)
    || (j < i && j < |t| &&
        var turn := TakeTurn(r, t[j], At(t, j + 1));
        && ReadAlike(t, j, r) && !turn.root && !(r.mode == Code && Closer(t[j]) && turn.state == r)
        && LeadsTo(t, j + turn.width, turn.state, i, s))
  }

  /** The position is reached by both scanners in lockstep: after a neutral start, every turn so far was read alike. */
  predicate InLockstep(t: string, b: nat, i: nat, s: State) {
    StartOf(t, 0, Code) == Some(b) && Scan(t[..b], 0, START) == Open(START) && b < i < |t| && LeadsTo(t, b, START, i, s)
  }

  lemma {:induction false} LeadsToMeans(t: string, j: nat, r: State, i: nat, s: State)
    requires j <= |t| && LeadsTo(t, j, r, i, s) && OnlyOpeners(r.stack) && QuoteOk(r.mode)
    requires r.stack == "" ==> r.mode == Code && j < |t| && Opener(t[j])
    ensures j <= i <= |t| && OnlyOpeners(s.stack) && QuoteOk(s.mode) && if i == j then s == r else s.stack != ""
    ensures Scan(t, j, r) == Scan(t, i, s)
    ensures LooksRoot(t, j, Awaited(r.stack), r.stack != "", r.mode)
      == LooksRoot(t, i, Awaited(s.stack), s.stack != "", s.mode)
    ensures NoStray(t, j, r) == NoStray(t, i, s) && Aligned(t, j, r) == Aligned(t, i, s)
    decreases |t| - j
  {
    hide *;
    LeadsToTurn(t, j, r, i, s);
    if !(i == j && s == r) {
      var turn := TakeTurn(r, t[j], At(t, j + 1));
      BothTurn(t, j, r);
      TurnKeeps(t, j, r);
      TurnKeepsQuotes(t, j, r);
      LooksTurn(t, j, Awaited(r.stack), r.stack != "", r.mode);
      if r.mode == Code { CodeLockstep(t, j, r.stack); }
      if turn.width == 2 { SecondCharacter(t, j, r, Awaited(turn.state.stack)); }
      LeadsToMeans(t, j + turn.width, turn.state, i, s);
    }
  }

  lemma LeadsToTurn(t: string, j: nat, r: State, i: nat, s: State)
    requires j <= |t|
    ensures LeadsTo(t, j, r, i, s) <==>
      || (i == j && s == r)
      || (j < i && j < |t| &&
          var turn := TakeTurn(r, t[j], At(t, j + 1));
          && j + turn.width <= |t|
          && ReadAlike(t, j, r) && !turn.root && !(r.mode == Code && Closer(t[j]) && turn.state == r)
          && LeadsTo(t, j + turn.width, turn.state, i, s))
  {
  }

  lemma TurnKeepsQuotes(t: string, i: nat, s: State)
    requires i < |t| && QuoteOk(s.mode)
    ensures QuoteOk(TakeTurn(s, t[i], At(t, i + 1)).state.mode)
  {
  }

  /** A text that agrees up to `i` and on the character there leads to the same place. */
  lemma {:induction false} LeadsToSame(t: string, u: string, j: nat, r: State, i: nat, s: State)
    requires j <= |t| && j <= |u| && i < |t| && i < |u| && t[..i + 1] == u[..i + 1] && LeadsTo(t, j, r, i, s)
    ensures LeadsTo(u, j, r, i, s)
    decreases |t| - j
  {
    LeadsToTurn(t, j, r, i, s);
    if !(i == j && s == r) {
      var turn := TakeTurn(r, t[j], At(t, j + 1));
      LeadsToBelow(t, j + turn.width, turn.state, i, s);
      forall k | 0 <= k <= i ensures t[k] == u[k] { assert t[..i + 1][k] == u[..i + 1][k]; }
      assert j + 2 <= i ==> At(t, j + 2) == At(u, j + 2);
      LeadsToSame(t, u, j + turn.width, turn.state, i, s);
    }
  }

  lemma LeadsToBelow(t: string, j: nat, r: State, i: nat, s: State)
    requires j <= |t| && LeadsTo(t, j, r, i, s)
    ensures j <= i
  {
  }

  /** Both scanners at a position they reach in lockstep. */
  lemma LockstepAt(t: string, b: nat, i: nat, s: State)
    requires InLockstep(t, b, i, s)
    ensures i < |t| && OnlyOpeners(s.stack) && QuoteOk(s.mode) && s.stack != ""
    ensures Scan(t, 0, START) == Scan(t, i, s) && RootOf(t) == LooksRoot(t, i, Awaited(s.stack), true, s.mode)
    ensures StartOf(t, 0, Code) == Some(b) && NeutralStart(t) && (AlignedText(t) <==> Aligned(t, i, s))
  {
    hide LooksRoot, StartOf, Scan, NoStray, Aligned, LeadsTo;
    assert Awaited("") == "";
    LooksSkipsPreamble(t, 0, Code);
    ScanReachesStart(t, b);
    LeadsToMeans(t, b, START, i, s);
  }

  lemma InLockstepSame(t: string, u: string, b: nat, i: nat, s: State)
    requires InLockstep(t, b, i, s) && i < |u| && t[..i + 1] == u[..i + 1]
    ensures InLockstep(u, b, i, s)
  {
    hide StartOf, Scan, LeadsTo;
    assert t[..b] == t[..i + 1][..b] == u[..b] && t[b] == t[..i + 1][b] == u[b];
    StartSame(t, u, 0, Code, b);
    LeadsToSame(t, u, b, START, i, s);
  }

  /** The closers of the open brackets bring the raw scanner to its root closer. */
  lemma {:induction false} ClosersLook(t: string, i: nat, stack: string)
    requires i <= |t| && t[i..] == Closers(stack) && OnlyOpeners(stack) && stack != ""
    ensures LooksRoot(t, i, Awaited(stack), true, Code) == Some(|t| - 1)
    decreases |stack|
  {
    hide LooksRoot;
    var rest := stack[..|stack| - 1];
    assert t[i] == t[i..][0] == ClosingOf(stack[|stack| - 1]);
    assert t[i + 1..] == t[i..][1..] == Closers(rest);
    AwaitedPop(stack);
    LooksTurn(t, i, Awaited(stack), true, Code);
    if rest != "" { ClosersLook(t, i + 1, rest); }
  }

  lemma {:induction false} ScanPlainInComment(t: string, i: nat, stack: string)
    requires i <= |t| && forall k :: i <= k < |t| ==> t[k] != '*'
    ensures Scan(t, i, State(stack, BlockComment)) == Open(State(stack, BlockComment))
    ensures Aligned(t, i, State(stack, BlockComment))
    decreases |t| - i
  {
    if i < |t| { ScanPlainInComment(t, i + 1, stack); }
  }

  lemma {:induction false} AlignedInString(t: string, i: nat, s: State)
    requires i <= |t| && s.mode.Quoted? && !s.mode.escape
    requires forall k :: i <= k < |t| ==> t[k] != s.mode.quote && t[k] != '\\'
    ensures Aligned(t, i, s)
    decreases |t| - i
  {
    if i < |t| { AlignedInString(t, i + 1, s); }
  }

  /** What the completer extends although it looks complete shows that provenance fails. */
  lemma ExtendedIsDishonest(t: string, o: State)
    requires RootOf(t) == Some(|t| - 1) && Scan(t, 0, START) == Open(o) && (o.mode != Code || o.stack != "")
    ensures !Honest(t)
  {
    hide Scan, LooksRoot, Completed;
    LooksMeans(t, |t| - 1);
    CompletedIsLonger(t);
  }

  /** A comment opening and a slash: the raw scanner has left the comment, the completer is inside it. */
  lemma OpeningThenSlash(t: string, b: nat, i: nat, s: State)
    requires InLockstep(t, b, i, s) && s.mode == Code && t[i..] == "/*/" + Closers(s.stack)
    ensures !Honest(t) && Aligned(t, i + 2, State(s.stack, BlockComment))
  {
    hide *;
    LockstepAt(t, b, i, s);
    var stack, awaited := s.stack, Awaited(s.stack);
    Ahead(t, i, "/*/", Closers(stack));
    RestIsClosers(t, i + 3, stack);
    OpeningTurns(t, i, stack, awaited);
    ScanPlainInComment(t, i + 2, stack);
    LooksTurn(t, i, awaited, true, Code);
    LooksTurn(t, i + 1, awaited, true, BlockComment);
    LooksTurn(t, i + 2, awaited, true, Code);
    ClosersLook(t, i + 3, stack);
    assert s == State(stack, Code);
    BothTurn(t, i, s);
    ExtendedIsDishonest(t, State(stack, BlockComment));
  }

  lemma Ahead(t: string, i: nat, mark: string, rest: string)
    requires i <= |t| && t[i..] == mark + rest
    ensures i + |mark| + |rest| == |t| && t[i + |mark|..] == rest
    ensures forall k :: 0 <= k < |mark| ==> t[i + k] == mark[k]
    ensures forall k :: 0 <= k < |rest| ==> t[i + |mark| + k] == rest[k]
  {
    forall k | 0 <= k < |t| - i ensures t[i + k] == (mark + rest)[k] { assert t[i..][k] == t[i + k]; }
    assert t[i + |mark|..] == t[i..][|mark|..];
  }

  lemma RestIsClosers(t: string, i: nat, stack: string)
    requires i <= |t| && t[i..] == Closers(stack) && stack != ""
    ensures i < |t| && forall k :: i <= k < |t| ==> t[k] != '*' && t[k] != '/' && t[k] != '\"' && t[k] != '\\'
  {
    ClosersAreClosers(stack);
    forall k | i <= k < |t| ensures Closer(t[k]) { assert t[k] == t[i..][k - i] == Closers(stack)[k - i]; }
  }

  lemma OpeningTurns(t: string, i: nat, stack: string, awaited: string)
    requires i + 3 < |t| && t[i] == '/' && t[i + 1] == '*' && t[i + 2] == '/' && t[i + 3] != '/' && t[i + 3] != '*'
    ensures TakeTurn(State(stack, Code), t[i], At(t, i + 1)) == Turn(State(stack, BlockComment), 2, false)
    ensures LooksInCode(t, i, awaited, true) == Some((awaited, true, BlockComment))
    ensures LooksOutsideCode(t, i + 1, BlockComment) == Code
    ensures LooksInCode(t, i + 2, awaited, true) == Some((awaited, true, Code))
    ensures !Closer(t[i]) && !Closer(t[i + 2])
  {
  }

  /** A comment end and a slash: the raw scanner is inside a line comment, the completer opens a string. */
  lemma EndThenSlash(t: string, b: nat, i: nat, s: State)
    requires InLockstep(t, b, i, s) && s.mode == BlockComment && t[i..] == "*//\"\n" + Closers(s.stack)
    ensures !Honest(t) && Aligned(t, i + 2, State(s.stack, Code))
  {
    hide *;
    LockstepAt(t, b, i, s);
    var stack, awaited := s.stack, Awaited(s.stack);
    Ahead(t, i, "*//\"\n", Closers(stack));
    RestIsClosers(t, i + 5, stack);
    EndSlashTurns(t, i, s, awaited);
    LooksTurn(t, i, awaited, true, BlockComment);
    LooksTurn(t, i + 1, awaited, true, Code);
    LooksTurn(t, i + 2, awaited, true, LineComment);
    LooksTurn(t, i + 3, awaited, true, LineComment);
    LooksTurn(t, i + 4, awaited, true, LineComment);
    ClosersLook(t, i + 5, stack);
    StringBehindEnd(t, i, s);
    ExtendedIsDishonest(t, State(stack, Quoted('\"', false)));
  }

  /** A comment end and a star: the raw scanner is inside a further comment, the completer opens a string. */
  lemma EndThenStar(t: string, b: nat, i: nat, s: State)
    requires InLockstep(t, b, i, s) && s.mode == BlockComment && t[i..] == "*/*\"*/" + Closers(s.stack)
    ensures !Honest(t) && Aligned(t, i + 2, State(s.stack, Code))
  {
    hide *;
    LockstepAt(t, b, i, s);
    var stack, awaited := s.stack, Awaited(s.stack);
    Ahead(t, i, "*/*\"*/", Closers(stack));
    RestIsClosers(t, i + 6, stack);
    EndStarTurns(t, i, s, awaited);
    LooksTurn(t, i, awaited, true, BlockComment);
    LooksTurn(t, i + 1, awaited, true, Code);
    LooksTurn(t, i + 2, awaited, true, BlockComment);
    LooksTurn(t, i + 3, awaited, true, BlockComment);
    LooksTurn(t, i + 4, awaited, true, BlockComment);
    LooksTurn(t, i + 5, awaited, true, Code);
    ClosersLook(t, i + 6, stack);
    StringBehindEnd(t, i, s);
    ExtendedIsDishonest(t, State(stack, Quoted('\"', false)));
  }

  /** Behind the end of a comment and one character that does nothing, the completer is inside a string for good. */
  lemma StringBehindEnd(t: string, i: nat, s: State)
    requires s.mode == BlockComment && i + 4 <= |t| && t[i] == '*' && t[i + 1] == '/' && t[i + 3] == '\"'
    requires t[i + 2] == '/' || t[i + 2] == '*'
    requires forall k :: i + 4 <= k < |t| ==> t[k] != '\"' && t[k] != '\\'
    ensures Scan(t, i, s) == Open(State(s.stack, Quoted('\"', false)))
    ensures Aligned(t, i + 2, State(s.stack, Code))
  {
    hide *;
    var outside, inside := State(s.stack, Code), State(s.stack, Quoted('\"', false));
    StringTurns(t, i, s);
    ScanPlainInString(t, i + 4, inside);
    AlignedInString(t, i + 4, inside);
    BothTurn(t, i, s);
    BothTurn(t, i + 2, outside);
    BothTurn(t, i + 3, outside);
  }

  lemma StringTurns(t: string, i: nat, s: State)
    requires s.mode == BlockComment && i + 4 <= |t| && t[i] == '*' && t[i + 1] == '/' && t[i + 3] == '\"'
    requires t[i + 2] == '/' || t[i + 2] == '*'
    ensures var outside, inside := State(s.stack, Code), State(s.stack, Quoted('\"', false));
      && TakeTurn(s, t[i], At(t, i + 1)) == Turn(outside, 2, false)
      && TakeTurn(outside, t[i + 2], At(t, i + 3)) == Turn(outside, 1, false) && ReadAlike(t, i + 2, outside)
      && TakeTurn(outside, t[i + 3], At(t, i + 4)) == Turn(inside, 1, false) && ReadAlike(t, i + 3, outside)
  {
  }

  lemma EndSlashTurns(t: string, i: nat, s: State, awaited: string)
    requires s.mode == BlockComment && i + 5 <= |t|
    requires t[i] == '*' && t[i + 1] == '/' && t[i + 2] == '/' && t[i + 3] == '\"' && t[i + 4] == '\n'
    ensures LooksOutsideCode(t, i, BlockComment) == Code
    ensures LooksInCode(t, i + 1, awaited, true) == Some((awaited, true, LineComment)) && !Closer(t[i + 1])
    ensures LooksOutsideCode(t, i + 2, LineComment) == LineComment
      && LooksOutsideCode(t, i + 3, LineComment) == LineComment
    ensures LooksOutsideCode(t, i + 4, LineComment) == Code
  {
  }

  lemma EndStarTurns(t: string, i: nat, s: State, awaited: string)
    requires s.mode == BlockComment && i + 6 < |t| && t[i] == '*' && t[i + 1] == '/' && t[i + 2] == '*'
      && t[i + 3] == '\"'
    requires t[i + 4] == '*' && t[i + 5] == '/' && t[i + 6] != '/' && t[i + 6] != '*'
    ensures LooksOutsideCode(t, i, BlockComment) == Code
    ensures LooksInCode(t, i + 1, awaited, true) == Some((awaited, true, BlockComment)) && !Closer(t[i + 1])
    ensures LooksOutsideCode(t, i + 2, BlockComment) == BlockComment
      && LooksOutsideCode(t, i + 3, BlockComment) == BlockComment
    ensures LooksOutsideCode(t, i + 4, BlockComment) == Code
    ensures LooksInCode(t, i + 5, awaited, true) == Some((awaited, true, Code)) && !Closer(t[i + 5])
  {
  }

  /** A comment mark that is not read alike has a continuation, read alike from there on, on which provenance fails. */
  lemma UnalikeIsDishonest(t: string, b: nat, i: nat, s: State) returns (u: string)
    requires InLockstep(t, b, i, s) && i + 2 < |t| && !ReadAlike(t, i, s)
    ensures |u| > i + 2 && u[..i + 3] == t[..i + 3] && Aligned(u, i + 2, TakeTurn(s, t[i], At(t, i + 1)).state)
      && !Honest(u)
  {
    hide *;
    LockstepAt(t, b, i, s);
    var mark, stack := t[i..i + 3], s.stack;
    UnalikeShapes(t, i, s);
    u := t[..i] + (mark + (if mark == "/*/" then "" else if mark == "*//" then "\"\n" else "\"*/") + Closers(stack));
    assert u[i..] == mark + (if mark == "/*/" then "" else if mark == "*//" then "\"\n" else "\"*/") + Closers(stack);
    assert u[..i + 3] == t[..i + 3];
    assert u[..i + 1] == t[..i + 3][..i + 1] == t[..i + 1];
    InLockstepSame(t, u, b, i, s);
    if mark == "/*/" {
      OpeningThenSlash(u, b, i, s);
    } else if mark == "*//" {
      EndThenSlash(u, b, i, s);
    } else {
      EndThenStar(u, b, i, s);
    }
  }

  lemma UnalikeShapes(t: string, i: nat, s: State)
    requires i + 2 < |t| && !ReadAlike(t, i, s)
    ensures var mark, after := t[i..i + 3], TakeTurn(s, t[i], At(t, i + 1)).state;
      || (s.mode == Code && mark == "/*/" && after == State(s.stack, BlockComment))
      || (s.mode == BlockComment && (mark == "*//" || mark == "*/*") && after == State(s.stack, Code))
  {
  }

  /**
    The condition on comment marks is exact, mark by mark. At a two-character mark that both scanners reach in
    lockstep: provenance holds for every text that shares the mark and the character behind it, and is read
    alike from there on, if and only if the mark itself is read alike.
   */
  lemma ReadAlikeIff(t: string, b: nat, i: nat, s: State)
    requires InLockstep(t, b, i, s) && i + 2 < |t| && TakeTurn(s, t[i], At(t, i + 1)).width == 2
    ensures var after := TakeTurn(s, t[i], At(t, i + 1)).state;
      (forall u: string :: |u| > i + 2 && u[..i + 3] == t[..i + 3] && Aligned(u, i + 2, after) ==> Honest(u))
        <==> ReadAlike(t, i, s)
  {
    hide *;
    var after := TakeTurn(s, t[i], At(t, i + 1)).state;
    if ReadAlike(t, i, s) {
      forall u: string | |u| > i + 2 && u[..i + 3] == t[..i + 3] && Aligned(u, i + 2, after) ensures Honest(u) {
        assert u[..i + 1] == u[..i + 3][..i + 1] == t[..i + 1];
        InLockstepSame(t, u, b, i, s);
        LockstepAt(u, b, i, s);
        SameMark(t, u, i, s);
        BothTurn(u, i, s);
        ReconciledTextIsRaw(u);
      }
    } else {
      var u := UnalikeIsDishonest(t, b, i, s);
    }
  }

  lemma SameMark(t: string, u: string, i: nat, s: State)
    requires i + 2 < |t| && i + 2 < |u| && u[..i + 3] == t[..i + 3]
    ensures t[i] == u[i] && At(t, i + 1) == At(u, i + 1) && (ReadAlike(t, i, s) <==> ReadAlike(u, i, s))
  {
    forall k | 0 <= k < i + 3 ensures t[k] == u[k] { assert t[..i + 3][k] == u[..i + 3][k]; }
  }

  // The shortest inputs of both kinds.

  /** An apostrophe before the bracket: the completer reads on inside a string. */
  lemma ApostropheBreaksProvenance()
    ensures var t := "'{}"; LooksComplete(t) && !(Completed(t) <= t)
  {
    var t := "'" + "{}";
    assert t == "'{}" && StartOf(t, 1, Code) == Some(1) && StartOf(t, 0, Code) == Some(1);
    assert Scan("'", 1, State("", Quoted('\'', false))) == Open(State("", Quoted('\'', false)));
    PairLooksComplete(t, 1);
    ScanPlainInString(t, 1, State("", Quoted('\'', false)));
    CompletedIsLonger(t);
  }

  /** A comment opening and a slash behind the bracket: the completer reads on inside the comment. */
  lemma BlockCommentBreaksProvenance()
    ensures var t := "{/*/}"; LooksComplete(t) && !(Completed(t) <= t)
  {
    hide *;
    var t, s := "{/*/}", State("{", Code);
    ShortComment();
    BothTurn(t, 0, START);
    BothTurn(t, 1, s);
    ScanPlainInComment(t, 3, "{");
    CompletedIsLonger(t);
    LooksTurn(t, 0, "", false, Code);
    LooksTurn(t, 1, "}", true, Code);
    LooksTurn(t, 2, "}", true, BlockComment);
    LooksTurn(t, 3, "}", true, Code);
    LooksTurn(t, 4, "}", true, Code);
    LooksMeans(t, 4);
  }

  lemma ShortComment()
    ensures var t, s := "{/*/}", State("{", Code);
      && TakeTurn(START, t[0], At(t, 1)) == Turn(s, 1, false)
      && TakeTurn(s, t[1], At(t, 2)) == Turn(State("{", BlockComment), 2, false)
      && LooksInCode(t, 0, "", false) == Some(("}", true, Code)) && !Closer(t[0])
      && LooksInCode(t, 1, "}", true) == Some(("}", true, BlockComment)) && !Closer(t[1])
      && LooksOutsideCode(t, 2, BlockComment) == Code
      && LooksInCode(t, 3, "}", true) == Some(("}", true, Code)) && !Closer(t[3])
      && LooksInCode(t, 4, "}", true) == Some(("", true, Code)) && Closer(t[4])
  {
    assert "" + ['}'] == "}" && "}"[..0] == "" && "" + ['{'] == "{";
  }
}
