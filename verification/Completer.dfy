/**
  The completer of partial JSON (agently/utils/StreamingJSONCompleter.py): one scan that tracks open
  brackets, strings and comments, and the closing text it appends.
 */
module Completer {
  import opened Chars

  /** What the scan is inside of. A string remembers its quote and whether a backslash is pending. */
  datatype Mode = Code | Quoted(quote: char, escape: bool) | LineComment | BlockComment

  /** `stack` holds the open brackets, innermost last. */
  datatype State = State(stack: string, mode: Mode)

  /** A scan either stops at the closer of a root bracket or runs off the end of the text. */
  datatype Outcome = Root(at: nat) | Open(state: State)

  const START := State("", Code)

  function ClosingOf(opener: char): char {
    if opener == '{' then '}' else ']'
  }

  /** One turn of the loop: the new state, and how many characters it consumed. */
  datatype Turn = Turn(state: State, width: nat, root: bool)

  function CodeTurn(stack: string, c: char, next: Option<char>): Turn {
    if c == '\"' || c == '\'' then Turn(State(stack, Quoted(c, false)), 1, false)
    else if c == '/' && next == Some('/') then Turn(State(stack, LineComment), 2, false)
    else if c == '/' && next == Some('*') then Turn(State(stack, BlockComment), 2, false)
    else if Opener(c) then Turn(State(stack + [c], Code), 1, false)
    else if Closer(c) && stack != "" && ClosingOf(stack[|stack| - 1]) == c then
      Turn(State(stack[..|stack| - 1], Code), 1, |stack| == 1)
    else Turn(State(stack, Code), 1, false)
  }

  function TakeTurn(s: State, c: char, next: Option<char>): Turn {
    match s.mode
    case Code => CodeTurn(s.stack, c, next)
    case Quoted(q, escape) =>
      if escape then Turn(s.(mode := Quoted(q, false)), 1, false)
      else if c == '\\' then Turn(s.(mode := Quoted(q, true)), 1, false)
      else if c == q then Turn(s.(mode := Code), 1, false)
      else Turn(s, 1, false)
    case LineComment =>
      Turn(if c == '\n' || c == '\r' then s.(mode := Code) else s, 1, false)
    case BlockComment =>
      if c == '*' && next == Some('/') then Turn(s.(mode := Code), 2, false) else Turn(s, 1, false)
  }

  function Scan(t: string, i: nat, s: State): (o: Outcome)
    requires i <= |t|
    ensures o.Root? ==> i <= o.at < |t|
    decreases |t| - i
  {
    if i == |t| then Open(s)
    else
      var turn := TakeTurn(s, t[i], At(t, i + 1));
      if turn.root then Root(i) else Scan(t, i + turn.width, turn.state)
  }

  /** The closers of an open stack, innermost first. */
  function Closers(stack: string): (r: string)
    ensures |r| == |stack|
  {
    if stack == "" then ""
    else [ClosingOf(stack[|stack| - 1])] + Closers(stack[..|stack| - 1])
  }

  function Ending(mode: Mode): string {
    match mode
    case Code => ""
    case Quoted(q, _) => [q]
    case LineComment => "\n"
    case BlockComment => "*/"
  }

  /** The text `complete` returns for a buffer: cut after its root closer, or else extended. */
  function Completed(t: string): (r: string)
    ensures if Scan(t, 0, START).Root? then r <= t else t <= r
  {
    match Scan(t, 0, START)
    case Root(k) => t[..k + 1]
    case Open(s) => t + Ending(s.mode) + Closers(s.stack)
  }

  /** The scan of `t` ends inside a string with an unpaired backslash. */
  predicate EndsOnEscape(t: string) {
    var o := Scan(t, 0, START);
    o.Open? && o.state.mode.Quoted? && o.state.mode.escape
  }

  /** Everything opened in `t` is closed: it ends at the closer of its root, or nothing is open. */
  predicate Closed(t: string) {
    match Scan(t, 0, START)
    case Root(k) => k == |t| - 1
    case Open(s) => s == START
  }

  /** No stack but one of openers is ever reached. */
  predicate OnlyOpeners(stack: string) {
    forall i :: 0 <= i < |stack| ==> Opener(stack[i])
  }

  lemma {:induction false} ScanKeepsOpeners(t: string, i: nat, s: State)
    requires i <= |t| && OnlyOpeners(s.stack)
    ensures var o := Scan(t, i, s); o.Open? ==> OnlyOpeners(o.state.stack)
    decreases |t| - i
  {
    if i < |t| {
      var turn := TakeTurn(s, t[i], At(t, i + 1));
      if !turn.root { ScanKeepsOpeners(t, i + turn.width, turn.state); }
    }
  }

  /**
    Scanning through a seam. When `ext` does not start with a character that could pair with the last one
    of `t`, the scan of `t + ext` goes on from the state the scan of `t` ended in.
   */
  lemma {:induction false} ScanSeam(t: string, ext: string, i: nat, s: State)
    requires i <= |t|
    requires Scan(t, i, s).Open?
    requires ext != "" ==> ext[0] != '/' && (ext[0] == '*' ==> Scan(t, i, s).state.mode.BlockComment?)
    ensures Scan(t + ext, i, s) == Scan(t + ext, |t|, Scan(t, i, s).state)
    decreases |t| - i
  {
    if i < |t| {
      var turn := TakeTurn(s, t[i], At(t, i + 1));
      if i + 1 < |t| {
        assert At(t + ext, i + 1) == At(t, i + 1);
      }
      assert TakeTurn(s, (t + ext)[i], At(t + ext, i + 1)) == turn;
      ScanSeam(t, ext, i + turn.width, turn.state);
    }
  }

  /** A scan that stops at a root closer does not look at what follows it. */
  lemma {:induction false} ScanStopsForGood(t: string, u: string, i: nat, s: State)
    requires i <= |t| && Scan(t, i, s).Root?
    requires var k := Scan(t, i, s).at; |u| > k && u[..k + 1] == t[..k + 1]
    ensures Scan(u, i, s) == Scan(t, i, s)
    decreases |t| - i
  {
    var k := Scan(t, i, s).at;
    assert t[i] == t[..k + 1][i] == u[..k + 1][i] == u[i];
    var turn := TakeTurn(s, t[i], At(t, i + 1));
    if i < k {
      assert t[i + 1] == t[..k + 1][i + 1] == u[..k + 1][i + 1] == u[i + 1];
      assert !turn.root;
      ScanStopsForGood(t, u, i + turn.width, turn.state);
    } else {
      RootOnlyAtCloser(t, i, s);
    }
  }

  lemma {:induction false} RootOnlyAtCloser(t: string, i: nat, s: State)
    requires i < |t| && Scan(t, i, s) == Root(i)
    ensures forall next :: TakeTurn(s, t[i], next).root
  {
  }

  /** The appended closers close exactly the brackets on the stack. */
  lemma {:induction false} ScanClosers(t: string, i: nat, stack: string)
    requires i <= |t| && t[i..] == Closers(stack) && OnlyOpeners(stack)
    ensures Scan(t, i, State(stack, Code)) == if stack == "" then Open(START) else Root(|t| - 1)
    decreases |stack|
  {
    if stack != "" {
      var rest := stack[..|stack| - 1];
      assert t[i] == t[i..][0] == ClosingOf(stack[|stack| - 1]);
      assert t[i + 1..] == t[i..][1..] == Closers(rest);
      if rest != "" { ScanClosers(t, i + 1, rest); }
    }
  }

  /** A quote is never a backslash: only the two quote characters open strings. */
  predicate QuoteOk(mode: Mode) {
    mode.Quoted? ==> mode.quote == '\"' || mode.quote == '\''
  }

  /** The appended ending leaves the string or the comment, unless a backslash swallows it. */
  lemma {:induction false} ScanEnding(t: string, i: nat, s: State)
    requires i <= |t| && s.mode != Code
    requires |Ending(s.mode)| <= |t| - i && t[i..i + |Ending(s.mode)|] == Ending(s.mode)
    requires QuoteOk(s.mode) && (s.mode.Quoted? ==> !s.mode.escape)
    ensures Scan(t, i, s) == Scan(t, i + |Ending(s.mode)|, s.(mode := Code))
  {
    assert t[i] == t[i..i + |Ending(s.mode)|][0];
    if s.mode.BlockComment? {
      assert t[i + 1] == t[i..i + 2][1];
      assert TakeTurn(s, t[i], At(t, i + 1)) == Turn(s.(mode := Code), 2, false);
    }
  }

  lemma {:induction false} ScanKeepsQuotes(t: string, i: nat, s: State)
    requires i <= |t| && QuoteOk(s.mode)
    ensures var o := Scan(t, i, s); o.Open? ==> QuoteOk(o.state.mode)
    decreases |t| - i
  {
    if i < |t| {
      var turn := TakeTurn(s, t[i], At(t, i + 1));
      if !turn.root { ScanKeepsQuotes(t, i + turn.width, turn.state); }
    }
  }

  /** Inside a string, text without quotes and backslashes changes nothing. */
  lemma {:induction false} ScanPlainInString(t: string, i: nat, s: State)
    requires i <= |t| && s.mode.Quoted? && !s.mode.escape
    requires forall k :: i <= k < |t| ==> t[k] != s.mode.quote && t[k] != '\\'
    ensures Scan(t, i, s) == Open(s)
    decreases |t| - i
  {
    if i < |t| { ScanPlainInString(t, i + 1, s); }
  }

  lemma ClosersAreClosers(stack: string)
    ensures forall i :: 0 <= i < |stack| ==> Closer(Closers(stack)[i])
  {
  }

  /** The scan of the completed text of a buffer whose own scan ran off its end. */
  lemma CompletedScan(t: string)
    requires Scan(t, 0, START).Open?
    ensures var s := Scan(t, 0, START).state;
            var c := Completed(t);
            Scan(c, 0, START) ==
              if EndsOnEscape(t) then Open(s.(mode := Quoted(s.mode.quote, false)))
              else if s.stack == "" then Open(START) else Root(|c| - 1)
  {
    var s := Scan(t, 0, START).state;
    var ext := Ending(s.mode) + Closers(s.stack);
    assert Completed(t) == t + ext;
    ScanKeepsOpeners(t, 0, START);
    ScanKeepsQuotes(t, 0, START);
    ClosersAreClosers(s.stack);
    ScanSeam(t, ext, 0, START);
    if EndsOnEscape(t) { ScanSwallowedEnding(t + ext, |t|, s); } else { ScanExtension(t + ext, |t|, s); }
  }

  lemma ScanSwallowedEnding(c: string, i: nat, s: State)
    requires i <= |c| && c[i..] == Ending(s.mode) + Closers(s.stack)
    requires QuoteOk(s.mode) && s.mode.Quoted? && s.mode.escape
    ensures Scan(c, i, s) == Open(s.(mode := Quoted(s.mode.quote, false)))
  {
    ClosersAreClosers(s.stack);
    forall k | i + 1 <= k < |c| ensures Closer(c[k]) {
      assert c[k] == c[i..][k - i] == Closers(s.stack)[k - i - 1];
    }
    ScanPlainInString(c, i + 1, s.(mode := Quoted(s.mode.quote, false)));
  }

  lemma ScanExtension(c: string, i: nat, s: State)
    requires i <= |c| && c[i..] == Ending(s.mode) + Closers(s.stack)
    requires OnlyOpeners(s.stack) && QuoteOk(s.mode) && !(s.mode.Quoted? && s.mode.escape)
    ensures Scan(c, i, s) == if s.stack == "" then Open(START) else Root(|c| - 1)
  {
    hide Scan, Closers, OnlyOpeners;
    var n := |Ending(s.mode)|;
    assert c[i..i + n] == c[i..][..n] == Ending(s.mode);
    assert c[i + n..] == c[i..][n..] == Closers(s.stack);
    if s.mode != Code { ScanEnding(c, i, s); }
    ScanClosers(c, i + n, s.stack);
  }

  /** The completer closes what it opens, exactly when the buffer does not end on a pending escape. */
  lemma CompletedIsClosed(t: string)
    ensures Closed(Completed(t)) <==> !EndsOnEscape(t)
  {
    match Scan(t, 0, START)
    case Root(k) => ScanStopsForGood(t, t[..k + 1], 0, START);
    case Open(s) => CompletedScan(t);
  }

  /** Completing twice changes nothing, exactly when the buffer does not end on a pending escape. */
  lemma CompletedIdempotent(t: string)
    ensures Completed(Completed(t)) == Completed(t) <==> !EndsOnEscape(t)
  {
    match Scan(t, 0, START)
    case Root(k) =>
      ScanStopsForGood(t, t[..k + 1], 0, START);
      assert t[..k + 1][..k + 1] == t[..k + 1];
    case Open(s) =>
      CompletedScan(t);
      var c := Completed(t);
      if EndsOnEscape(t) {
        assert |Completed(c)| > |c|;
      } else if s.stack == "" {
        assert Completed(c) == c + "" + "";
      } else {
        assert c[..|c|] == c;
      }
  }

  /** Once a root closer has been seen, no further `append` changes the result. */
  lemma CompletedIsStable(t: string, more: string)
    requires Scan(t, 0, START).Root?
    ensures Completed(t + more) == Completed(t)
  {
    var k := Scan(t, 0, START).at;
    assert (t + more)[..k + 1] == t[..k + 1];
    ScanStopsForGood(t, t + more, 0, START);
  }

  lemma ScanTurn(t: string, i: nat, s: State)
    requires i <= |t|
    ensures i == |t| ==> Scan(t, i, s) == Open(s)
    ensures i < |t| ==>
      var turn := TakeTurn(s, t[i], At(t, i + 1));
      && (turn.root || i + turn.width <= |t|)
      && Scan(t, i, s) == if turn.root then Root(i) else Scan(t, i + turn.width, turn.state)
  {
  }

  lemma CompletedMeans(t: string)
    ensures Scan(t, 0, START).Root? ==> Completed(t) == t[..Scan(t, 0, START).at + 1]
    ensures Scan(t, 0, START).Open? ==>
      Completed(t) == t + Ending(Scan(t, 0, START).state.mode) + Closers(Scan(t, 0, START).state.stack)
  {
  }

  lemma ClosersLast(stack: string)
    ensures Closers(stack) == if stack == "" then ""
      else [ClosingOf(stack[|stack| - 1])] + Closers(stack[..|stack| - 1])
  {
  }

  class StreamingJSONCompleter {
    var buffer: string

    constructor ()
      ensures buffer == ""
    {
      buffer := "";
    }

    method Reset(data: string)
      modifies this
      ensures buffer == data
    {
      buffer := data;
    }

    method Append(data: string)
      modifies this
      ensures buffer == old(buffer) + data
    {
      buffer := buffer + data;
    }

    method Complete() returns (r: string)
      ensures r == Completed(buffer)
    {
      hide Scan, Closers, Completed;
      CompletedMeans(buffer);
      var buf := buffer;
      var stack: string := "";
      var i := 0;
      var inString, escape := false, false;
      var comment: Option<string> := None;
      var stringChar: Option<char> := None;
      while i < |buf|
        invariant 0 <= i <= |buf|
        invariant inString <==> stringChar.Some?
        invariant inString ==> comment.None?
        invariant escape ==> inString
        invariant comment.Some? ==> comment.value == "//" || comment.value == "/*"
        invariant Scan(buf, i, State(stack, ModeOf(inString, stringChar, escape, comment))) == Scan(buf, 0, START)
      {
        var ch := buf[i];
        var nextCh := At(buf, i + 1);
        ScanTurn(buf, i, State(stack, ModeOf(inString, stringChar, escape, comment)));
        if comment.None? {
          if inString {
            if escape {
              escape := false;
            } else if ch == '\\' {
              escape := true;
            } else if ch == stringChar.value {
              inString, stringChar := false, None;
            }
          } else if ch == '\"' || ch == '\'' {
            inString, stringChar := true, Some(ch);
          } else if ch == '/' && nextCh == Some('/') {
            comment := Some("//");
            i := i + 1;
          } else if ch == '/' && nextCh == Some('*') {
            comment := Some("/*");
            i := i + 1;
          } else if Opener(ch) {
            stack := stack + [ch];
          } else if Closer(ch) {
            if stack == "" {
              i := i + 1;
              continue;
            }
            var opener := stack[|stack| - 1];
            if (opener == '{' && ch == '}') || (opener != '{' && ch == ']') {
              stack := stack[..|stack| - 1];
              if stack == "" {
                return buf[..i + 1];
              }
            } else {
              i := i + 1;
              continue;
            }
          }
        } else if comment == Some("//") {
          if ch == '\n' || ch == '\r' { comment := None; }
        } else if comment == Some("/*") {
          if ch == '*' && nextCh == Some('/') {
            comment := None;
            i := i + 1;
          }
        }
        i := i + 1;
      }
      ScanTurn(buf, i, State(stack, ModeOf(inString, stringChar, escape, comment)));
      ClosersLast("");
      if inString { buf := buf + [stringChar.value]; }
      if comment == Some("//") {
        buf := buf + "\n";
      } else if comment == Some("/*") {
        buf := buf + "*/";
      }
      if stack != "" {
        var completion := ReversedClosers(stack);
        buf := buf + completion;
      }
      return buf;
    }
  }

  ghost function ModeOf(inString: bool, stringChar: Option<char>, escape: bool, comment: Option<string>): Mode
    requires inString <==> stringChar.Some?
  {
    if comment == Some("//") then LineComment
    else if comment.Some? then BlockComment
    else if inString then Quoted(stringChar.value, escape)
    else Code
  }

  /** The generator expression that joins the closers of the reversed stack. */
  method ReversedClosers(stack: string) returns (r: string)
    ensures r == Closers(stack)
  {
    hide Closers;
    ClosersLast("");
    r := "";
    var i := |stack|;
    assert stack[..i] == stack;
    while i > 0
      invariant 0 <= i <= |stack|
      invariant r + Closers(stack[..i]) == Closers(stack)
    {
      i := i - 1;
      assert stack[..i + 1][..i] == stack[..i];
      ClosersLast(stack[..i + 1]);
      r := r + [ClosingOf(stack[i])];
    }
  }
}
