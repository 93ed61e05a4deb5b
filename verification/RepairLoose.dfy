/**
  Repair of objects that are not yet JSON: strings in single or double quotes, keys and values without quotes.
  Wide forms of the structure are undone there too; what stands between the delimiters is kept.
 */
module RepairLoose {
  import opened Chars
  import opened Documents
  import opened Repair
  import opened RepairWidening
  import opened Tokens

  /** A key or a value: in quotes of one kind, or a bare word. */
  datatype Loose = Quoted(delimiter: char, body: string) | Bare(word: string)

  datatype Member = Member(key: Loose, value: Loose)

  function Shown(x: Loose): string {
    match x
    case Quoted(delimiter, body) => [delimiter] + (body + [delimiter])
    case Bare(word) => word
  }

  function LooseMarks(x: Loose): (r: seq<bool>)
    ensures |r| == |Shown(x)|
  {
    match x
    case Quoted(_, body) => [true] + (Keeps(|body|) + [true])
    case Bare(word) => Keeps(|word|)
  }

  /** The members of an object up to its closing brace, in ASCII. */
  function ShownMembers(ms: seq<Member>): string {
    if ms == [] then "}"
    else
      Shown(ms[0].key) + (":" + (Shown(ms[0].value)
        + (if |ms| == 1 then "}" else "," + ShownMembers(ms[1..]))))
  }

  function MembersMarks(ms: seq<Member>): (r: seq<bool>)
    ensures |r| == |ShownMembers(ms)|
  {
    if ms == [] then [true]
    else
      LooseMarks(ms[0].key) + ([true] + (LooseMarks(ms[0].value)
        + (if |ms| == 1 then [true] else [true] + MembersMarks(ms[1..]))))
  }

  /** A content without escapes in which no quote of the delimiter's kind is followed by what would let it close. */
  predicate SafeBody(body: string, delimiter: char, role: Role) {
    forall k :: 0 <= k < |body| ==>
      && body[k] != '\\'
      && (FormOf(body[k], delimiter) ==> !MayFollow(NextVisible(body + [delimiter], k + 1), role))
  }

  predicate ValidKey(x: Loose) {
    match x
    case Quoted(delimiter, body) => (delimiter == '\"' || delimiter == '\'') && SafeBody(body, delimiter, Key)
    case Bare(word) =>
      && word != "" && (forall k :: 0 <= k < |word| ==> !FormOf(word[k], ':'))
      && !IsSpace(word[0]) && !FormOf(word[0], '\"') && !FormOf(word[0], '\'') && !FormOf(word[0], '}')
  }

  predicate ValidValue(x: Loose) {
    match x
    case Quoted(delimiter, body) => (delimiter == '\"' || delimiter == '\'') && SafeBody(body, delimiter, Value)
    case Bare(word) =>
      && word != ""
      && (forall k :: 0 <= k < |word| ==>
            !IsSpace(word[k]) && !FormOf(word[k], ',') && !FormOf(word[k], '}') && !FormOf(word[k], ']'))
      && !FormOf(word[0], '\"') && !FormOf(word[0], '\'') && !FormOf(word[0], '{') && !FormOf(word[0], '[')
  }

  predicate ValidMembers(ms: seq<Member>) {
    forall i :: 0 <= i < |ms| ==> ValidKey(ms[i].key) && ValidValue(ms[i].value)
  }

  // The table against the automaton.

  lemma FormMeans(c: char)
    ensures FormOf(c, ':') <==> Normalized(c) == ':'
    ensures FormOf(c, ',') <==> Normalized(c) == ','
    ensures FormOf(c, '{') <==> Normalized(c) == '{'
    ensures FormOf(c, '}') <==> Normalized(c) == '}'
    ensures FormOf(c, '[') <==> Normalized(c) == '['
    ensures FormOf(c, ']') <==> Normalized(c) == ']'
    ensures FormOf(c, '\"') <==> QuoteVariant(c, '\"')
    ensures FormOf(c, '\'') <==> QuoteVariant(c, '\'')
  {
    AsciiMeans(c);
    FormsAreAscii(c, ':');
    FormsAreAscii(c, ',');
    FormsAreAscii(c, '{');
    FormsAreAscii(c, '}');
    FormsAreAscii(c, '[');
    FormsAreAscii(c, ']');
    FormsAreAscii(c, '\"');
    FormsAreAscii(c, '\'');
    hide WIDE_FORMS, Ascii, QuoteVariant, Normalized;
  }

  lemma AsciiMeans(c: char)
    ensures (Ascii(c) == ':' <==> Normalized(c) == ':') && (Ascii(c) == ',' <==> Normalized(c) == ',')
    ensures (Ascii(c) == '{' <==> Normalized(c) == '{') && (Ascii(c) == '}' <==> Normalized(c) == '}')
    ensures (Ascii(c) == '[' <==> Normalized(c) == '[') && (Ascii(c) == ']' <==> Normalized(c) == ']')
    ensures c in [':', ',', '{', '}', '[', ']', '\"', '\''] ==> Ascii(c) == c
  {
  }

  // Strings.

  lemma OpeningQuote(contexts: seq<Context>, role: Role, d: char, next: Option<char>)
    requires Ok(State(contexts, Plain)) && Awaits(Top(contexts), role) && (d == '\"' || d == '\'')
    ensures var inside := State(contexts, InString(d, role, false));
      Ok(inside) && TakeTurn(State(contexts, Plain), d, next) == Turn(inside, true, true)
  {
  }

  lemma InsideQuotes(contexts: seq<Context>, role: Role, d: char, c: char, next: Option<char>)
    requires Ok(State(contexts, InString(d, role, false))) && c != '\\' && (FormOf(c, d) ==> !MayFollow(next, role))
    ensures var inside := State(contexts, InString(d, role, false));
      TakeTurn(inside, c, next) == Turn(inside, true, false)
  {
    FormMeans(c);
    FollowMeans(next, role);
  }

  lemma ClosingQuote(contexts: seq<Context>, role: Role, d: char, next: Option<char>)
    requires Ok(State(contexts, InString(d, role, false))) && MayFollow(next, role)
    ensures Ok(State(After(contexts, role), Plain))
    ensures TakeTurn(State(contexts, InString(d, role, false)), d, next)
         == Turn(State(After(contexts, role), Plain), true, true)
  {
    FollowMeans(next, role);
    hide WIDE_FORMS, MayFollow;
  }

  /** What is seen next from inside a content does not depend on what follows the string. */
  lemma VisibleInContent(t: string, i: nat, u: string, k: nat)
    requires HasAt(t, i, u) && u != "" && !IsSpace(u[|u| - 1]) && k < |u|
    ensures i + k <= |t| && NextVisible(t, i + k) == NextVisible(u, k)
  {
    var j := SkipSpace(u, k);
    SpaceStops(u, k, |u| - 1);
    forall m | 0 <= m < |u| ensures t[i + m] == u[m] { HasAtIndex(t, i, u, m); }
    assert t[i + k..i + j] == u[k..j];
    SkipSpaceUnique(t, i + k, i + j);
  }

  lemma QuotedRewritten(t: string, i: nat, d: char, body: string, contexts: seq<Context>, role: Role)
    requires HasAt(t, i, Shown(Quoted(d, body))) && (d == '\"' || d == '\'') && SafeBody(body, d, role)
    requires Ok(State(contexts, Plain)) && Awaits(Top(contexts), role)
    requires i + |body| + 2 <= |t| && MayFollow(NextVisible(t, i + |body| + 2), role)
    ensures Ok(State(After(contexts, role), Plain))
    ensures Rewrites(t, i, State(contexts, Plain))
         == LooseMarks(Quoted(d, body)) + Rewrites(t, i + |body| + 2, State(After(contexts, role), Plain))
  {
    hide *;
    var e, inside := i + 1 + |body|, State(contexts, InString(d, role, false));
    QuotedParts(t, i, d, body);
    QuotesAreVisible();
    OpeningQuote(contexts, role, d, NextVisible(t, i + 1));
    RewritesTurn(t, i, State(contexts, Plain));
    forall k | i + 1 <= k < e ensures TakeTurn(inside, t[k], NextVisible(t, k + 1)) == Turn(inside, true, false) {
      SafeCharacter(t, i + 1, d, body, role, k - i - 1);
      InsideQuotes(contexts, role, d, t[k], NextVisible(t, k + 1));
    }
    RunKept(t, i + 1, e, inside);
    ClosingQuote(contexts, role, d, NextVisible(t, e + 1));
    RewritesTurn(t, e, inside);
    InsideOk(contexts);
    QuotedMarksJoin(d, body, Rewrites(t, e + 1, State(After(contexts, role), Plain)));
  }

  lemma QuotedParts(t: string, i: nat, d: char, body: string)
    requires HasAt(t, i, Shown(Quoted(d, body)))
    ensures i + |body| + 2 <= |t| && t[i] == d && t[i + 1 + |body|] == d && HasAt(t, i + 1, body + [d])
  {
    hide HasAt;
    HasAtSplit(t, i, [d], body + [d]);
    HasAtSplit(t, i + 1, body, [d]);
    HasAtChar(t, i, d);
    HasAtChar(t, i + 1 + |body|, d);
    HasAtFits(t, i + 1, body + [d]);
  }

  lemma SafeCharacter(t: string, i: nat, d: char, body: string, role: Role, k: nat)
    requires HasAt(t, i, body + [d]) && SafeBody(body, d, role) && k < |body| && !IsSpace(d)
    ensures i + k < |t| && t[i + k] != '\\' && (FormOf(t[i + k], d) ==> !MayFollow(NextVisible(t, i + k + 1), role))
  {
    hide FormOf, MayFollow, NextVisible, IsSpace;
    HasAtIndex(t, i, body + [d], k);
    HasAtFits(t, i, body + [d]);
    VisibleInContent(t, i, body + [d], k + 1);
  }

  lemma QuotesAreVisible()
    ensures !IsSpace('\"') && !IsSpace('\'')
  {
  }

  lemma QuotedMarksJoin(d: char, body: string, tail: seq<bool>)
    ensures [true] + (Keeps(|body|) + ([true] + tail)) == LooseMarks(Quoted(d, body)) + tail
  {
  }

  // Bare words.

  lemma BareKeyTurns(contexts: seq<Context>, c: char, next: Option<char>)
    requires Ok(State(contexts, Plain)) && Awaits(Top(contexts), Key) && !FormOf(c, ':')
    ensures var inside := State(contexts, InPrimitive(Key));
      && Ok(inside) && TakeTurn(inside, c, next) == Turn(inside, true, false)
      && (Top(contexts).container.ObjectContainer? && !IsSpace(c) && !FormOf(c, '\"') && !FormOf(c, '\'')
          && !FormOf(c, '}') ==>
            TakeTurn(State(contexts, Plain), c, next) == Turn(inside, true, false))
  {
    FormMeans(c);
    hide FormOf, Normalized, QuoteVariant;
  }

  lemma BareValueTurns(contexts: seq<Context>, c: char, next: Option<char>)
    requires Ok(State(contexts, Plain)) && Awaits(Top(contexts), Value)
    requires !IsSpace(c) && !FormOf(c, ',') && !FormOf(c, '}') && !FormOf(c, ']')
    ensures var inside := State(contexts, InPrimitive(Value));
      && Ok(inside) && TakeTurn(inside, c, next) == Turn(inside, true, false)
      && (!FormOf(c, '\"') && !FormOf(c, '\'') && !FormOf(c, '{') && !FormOf(c, '[') ==>
            TakeTurn(State(contexts, Plain), c, next) == Turn(inside, true, false))
  {
    FormMeans(c);
    hide FormOf, Normalized, QuoteVariant;
  }

  /** A colon ends a bare key, and follows a quoted one. */
  lemma ColonAfterKey(outer: seq<Context>, next: Option<char>)
    requires Ok(State(outer, Plain))
    ensures var after := In(outer, ObjectContainer, ValueNext);
      && Ok(after) && Ok(State(In(outer, ObjectContainer, KeyOrEnd).contexts, InPrimitive(Key)))
      && Ok(In(outer, ObjectContainer, Colon))
      && TakeTurn(State(In(outer, ObjectContainer, KeyOrEnd).contexts, InPrimitive(Key)), ':', next)
        == Turn(after, true, true)
      && TakeTurn(In(outer, ObjectContainer, Colon), ':', next) == Turn(after, true, true)
      && After(In(outer, ObjectContainer, KeyOrEnd).contexts, Key) == In(outer, ObjectContainer, Colon).contexts
  {
  }

  lemma {:induction false} KeyRewritten(x: Loose, t: string, i: nat, outer: seq<Context>)
    requires ValidKey(x) && HasAt(t, i, Shown(x) + ":") && Ok(State(outer, Plain))
    ensures Ok(In(outer, ObjectContainer, KeyOrEnd)) && Ok(In(outer, ObjectContainer, ValueNext))
    ensures i + |Shown(x)| + 1 <= |t|
    ensures Rewrites(t, i, In(outer, ObjectContainer, KeyOrEnd))
         == LooseMarks(x) + ([true] + Rewrites(t, i + |Shown(x)| + 1, In(outer, ObjectContainer, ValueNext)))
  {
    hide *;
    var start, e := In(outer, ObjectContainer, KeyOrEnd), i + |Shown(x)|;
    HasAtSplit(t, i, Shown(x), ":");
    HasAtChar(t, e, ':');
    KeyState(outer);
    ColonAfterKey(outer, None);
    if x.Quoted? {
      QuotedKey(x, t, i, outer);
      ColonAfterKey(outer, NextVisible(t, e + 1));
      RewritesTurn(t, e, In(outer, ObjectContainer, Colon));
    } else {
      BareKey(x, t, i, outer);
      ColonAfterKey(outer, NextVisible(t, e + 1));
      RewritesTurn(t, e, State(start.contexts, InPrimitive(Key)));
    }
  }

  lemma QuotedKey(x: Loose, t: string, i: nat, outer: seq<Context>)
    requires x.Quoted? && ValidKey(x) && HasAt(t, i, Shown(x)) && Ok(State(outer, Plain))
    requires i + |Shown(x)| < |t| && t[i + |Shown(x)|] == ':'
    ensures Ok(In(outer, ObjectContainer, KeyOrEnd)) && Ok(In(outer, ObjectContainer, Colon))
    ensures Rewrites(t, i, In(outer, ObjectContainer, KeyOrEnd))
         == LooseMarks(x) + Rewrites(t, i + |Shown(x)|, In(outer, ObjectContainer, Colon))
  {
    hide *;
    ShownLength(x);
    KeyParts(x);
    KeyState(outer);
    ColonAfterKey(outer, None);
    FollowerSeen(t, i + |Shown(x)|, Key);
    QuotedRewritten(t, i, x.delimiter, x.body, In(outer, ObjectContainer, KeyOrEnd).contexts, Key);
  }

  lemma BareKey(x: Loose, t: string, i: nat, outer: seq<Context>)
    requires x.Bare? && ValidKey(x) && HasAt(t, i, Shown(x)) && Ok(State(outer, Plain)) && i + |Shown(x)| <= |t|
    ensures Ok(In(outer, ObjectContainer, KeyOrEnd))
    ensures var inside := State(In(outer, ObjectContainer, KeyOrEnd).contexts, InPrimitive(Key));
      && Ok(inside)
      && Rewrites(t, i, In(outer, ObjectContainer, KeyOrEnd)) == LooseMarks(x) + Rewrites(t, i + |Shown(x)|, inside)
  {
    hide *;
    var start := In(outer, ObjectContainer, KeyOrEnd);
    var inside, e := State(start.contexts, InPrimitive(Key)), i + |Shown(x)|;
    KeyPhase(outer);
    ShownLength(x);
    KeyParts(x);
    KeyState(outer);
    ColonAfterKey(outer, None);
    forall k | i <= k < e
      ensures t[k] == x.word[k - i]
      ensures TakeTurn(inside, t[k], NextVisible(t, k + 1)) == Turn(inside, true, false)
    {
      HasAtIndex(t, i, Shown(x), k - i);
      BareKeyTurns(start.contexts, t[k], NextVisible(t, k + 1));
    }
    BareKeyTurns(start.contexts, t[i], NextVisible(t, i + 1));
    RewritesTurn(t, i, start);
    RunKept(t, i + 1, e, inside);
    KeepsJoin(|x.word|, Rewrites(t, e, inside));
  }

  lemma KeyPhase(outer: seq<Context>)
    ensures var start := In(outer, ObjectContainer, KeyOrEnd);
      start == State(start.contexts, Plain) && Top(start.contexts).container.ObjectContainer?
  {
  }

  lemma ShownLength(x: Loose)
    ensures |Shown(x)| == if x.Quoted? then |x.body| + 2 else |x.word|
    ensures x.Bare? ==> Shown(x) == x.word && LooseMarks(x) == Keeps(|x.word|)
    ensures x.Quoted? ==> Shown(x) == Shown(Quoted(x.delimiter, x.body)) && x == Quoted(x.delimiter, x.body)
  {
  }

  lemma KeyParts(x: Loose)
    ensures ValidKey(x) <==> match x {
      case Quoted(delimiter, body) => (delimiter == '\"' || delimiter == '\'') && SafeBody(body, delimiter, Key)
      case Bare(word) =>
        && word != "" && (forall k :: 0 <= k < |word| ==> !FormOf(word[k], ':'))
        && !IsSpace(word[0]) && !FormOf(word[0], '\"') && !FormOf(word[0], '\'') && !FormOf(word[0], '}')
    }
  {
  }

  /** A structural character right after a string lets it close. */
  lemma FollowerSeen(t: string, i: nat, role: Role)
    requires i < |t| && if role == Key then t[i] == ':' else t[i] == ',' || t[i] == '}'
    ensures MayFollow(NextVisible(t, i), role)
  {
    assert !IsSpace(t[i]);
  }

  lemma ValueParts(x: Loose)
    ensures ValidValue(x) <==> match x {
      case Quoted(delimiter, body) => (delimiter == '\"' || delimiter == '\'') && SafeBody(body, delimiter, Value)
      case Bare(word) =>
        && word != ""
        && (forall k :: 0 <= k < |word| ==>
              !IsSpace(word[k]) && !FormOf(word[k], ',') && !FormOf(word[k], '}') && !FormOf(word[k], ']'))
        && !FormOf(word[0], '\"') && !FormOf(word[0], '\'') && !FormOf(word[0], '{') && !FormOf(word[0], '[')
    }
  {
  }

  /** A value up to the comma or brace behind it. */
  lemma ValueRewritten(x: Loose, t: string, i: nat, contexts: seq<Context>)
    requires ValidValue(x) && HasAt(t, i, Shown(x)) && Ok(State(contexts, Plain)) && Awaits(Top(contexts), Value)
    requires i + |Shown(x)| < |t| && (t[i + |Shown(x)|] == ',' || t[i + |Shown(x)|] == '}')
    ensures |contexts| >= 1 && Ok(State(MarkCompleted(contexts), Plain))
    ensures Rewrites(t, i, State(contexts, Plain))
         == LooseMarks(x) + Rewrites(t, i + |Shown(x)|, State(MarkCompleted(contexts), Plain))
  {
    hide *;
    var inside, e := State(contexts, InPrimitive(Value)), i + |Shown(x)|;
    ShownLength(x);
    ValueParts(x);
    InsideOk(contexts);
    FollowerSeen(t, e, Value);
    AfterValue(contexts);
    if x.Quoted? {
      QuotedRewritten(t, i, x.delimiter, x.body, contexts, Value);
    } else {
      forall k | i <= k < e
        ensures t[k] == x.word[k - i]
        ensures TakeTurn(inside, t[k], NextVisible(t, k + 1)) == Turn(inside, true, false)
      {
        HasAtIndex(t, i, Shown(x), k - i);
        BareValueTurns(contexts, t[k], NextVisible(t, k + 1));
      }
      BareValueTurns(contexts, t[i], NextVisible(t, i + 1));
      RewritesTurn(t, i, State(contexts, Plain));
      RunKept(t, i + 1, e, inside);
      FollowMeans(NextVisible(t, e), Value);
      FollowsBy(t, e);
      PrimitiveSettles(t, e, contexts);
      KeepsJoin(|x.word|, Rewrites(t, e, State(MarkCompleted(contexts), Plain)));
    }
  }

  lemma FollowsBy(t: string, i: nat)
    requires i <= |t| && CanClose(NextVisible(t, i), Value)
    ensures Follows(t, i)
  {
  }

  lemma AfterValue(contexts: seq<Context>)
    requires |contexts| >= 1
    ensures After(contexts, Value) == MarkCompleted(contexts)
  {
  }

  // Whole objects.

  lemma MembersParts(ms: seq<Member>, t: string, i: nat)
    requires ms != [] && HasAt(t, i, ShownMembers(ms)) && ValidMembers(ms)
    ensures ValidKey(ms[0].key) && ValidValue(ms[0].value) && ValidMembers(ms[1..])
    ensures var value := i + |Shown(ms[0].key)| + 1;
      var next := value + |Shown(ms[0].value)|;
      && HasAt(t, i, Shown(ms[0].key) + ":") && HasAt(t, value, Shown(ms[0].value))
      && next < |t| && t[next] == (if |ms| == 1 then '}' else ',')
      && (|ms| > 1 ==> HasAt(t, next + 1, ShownMembers(ms[1..])))
      && i + |ShownMembers(ms)| == (if |ms| == 1 then next + 1 else next + 1 + |ShownMembers(ms[1..])|)
  {
    hide HasAt, Shown, ValidKey, ValidValue;
    var key, val := Shown(ms[0].key), Shown(ms[0].value);
    var tail := if |ms| == 1 then "}" else "," + ShownMembers(ms[1..]);
    var value := i + |key| + 1;
    HasAtSplit(t, i, key, ":" + (val + tail));
    HasAtSplit(t, i + |key|, ":", val + tail);
    HasAtSplit(t, i, key, ":");
    HasAtSplit(t, value, val, tail);
    if |ms| == 1 {
      HasAtChar(t, value + |val|, '}');
    } else {
      HasAtSplit(t, value + |val|, ",", ShownMembers(ms[1..]));
      HasAtChar(t, value + |val|, ',');
    }
  }

  lemma MembersMarksMean(ms: seq<Member>)
    ensures ms == [] ==> MembersMarks(ms) == [true] && ShownMembers(ms) == "}"
    ensures ms != [] ==>
      MembersMarks(ms) == LooseMarks(ms[0].key)
        + ([true] + (LooseMarks(ms[0].value) + (if |ms| == 1 then [true] else [true] + MembersMarks(ms[1..]))))
  {
    hide LooseMarks, Shown;
  }

  lemma MembersMarksFirst(ms: seq<Member>, tail: seq<bool>)
    ensures ms == [] ==> MembersMarks(ms) == [true] && ShownMembers(ms) == "}"
    ensures |ms| == 1 ==>
      MembersMarks(ms) + tail == LooseMarks(ms[0].key) + ([true] + (LooseMarks(ms[0].value) + ([true] + tail)))
    ensures |ms| > 1 ==>
      MembersMarks(ms) + tail == LooseMarks(ms[0].key)
        + ([true] + (LooseMarks(ms[0].value) + ([true] + (MembersMarks(ms[1..]) + tail))))
  {
    hide *;
    MembersMarksMean(ms);
    if ms != [] {
      var key, value := LooseMarks(ms[0].key), LooseMarks(ms[0].value);
      if |ms| == 1 {
        JoinFour(key, value, [true], tail);
      } else {
        JoinFour(key, value, [true] + MembersMarks(ms[1..]), tail);
        JoinThree([true], MembersMarks(ms[1..]), tail);
      }
    }
  }

  lemma JoinThree(a: seq<bool>, b: seq<bool>, c: seq<bool>)
    ensures a + b + c == a + (b + c)
  {
  }

  lemma JoinFour(a: seq<bool>, b: seq<bool>, c: seq<bool>, tail: seq<bool>)
    ensures a + ([true] + (b + c)) + tail == a + ([true] + (b + (c + tail)))
  {
  }

  lemma {:induction false} MembersRewritten(ms: seq<Member>, t: string, i: nat, outer: seq<Context>)
    requires ValidMembers(ms) && HasAt(t, i, ShownMembers(ms)) && Ok(State(outer, Plain))
    ensures Ok(In(outer, ObjectContainer, KeyOrEnd)) && |outer| >= 1 && Ok(State(MarkCompleted(outer), Plain))
    ensures i + |ShownMembers(ms)| <= |t|
    ensures Rewrites(t, i, In(outer, ObjectContainer, KeyOrEnd))
         == MembersMarks(ms) + Rewrites(t, i + |ShownMembers(ms)|, State(MarkCompleted(outer), Plain))
    decreases |ms|
  {
    hide *;
    HasAtFits(t, i, ShownMembers(ms));
    OkNonEmpty(State(outer, Plain));
    CompletedOk(outer);
    ObjectPhases(outer);
    var tail := Rewrites(t, i + |ShownMembers(ms)|, State(MarkCompleted(outer), Plain));
    MembersMarksFirst(ms, tail);
    if ms == [] {
      ClosingRewritten(t, i, outer, ObjectContainer, KeyOrEnd);
    } else {
      MembersParts(ms, t, i);
      var value := i + |Shown(ms[0].key)| + 1;
      var next := value + |Shown(ms[0].value)|;
      KeyRewritten(ms[0].key, t, i, outer);
      ValueRewritten(ms[0].value, t, value, In(outer, ObjectContainer, ValueNext).contexts);
      if |ms| == 1 {
        HasAtChar(t, next, '}');
        ClosingRewritten(t, next, outer, ObjectContainer, CommaOrEnd);
      } else {
        HasAtChar(t, next, ',');
        NothingAt(t, next + 1);
        CommaRewritten(t, next, "", outer, ObjectContainer);
        MembersRewritten(ms[1..], t, next + 1, outer);
        NoKeeps();
      }
    }
  }

  lemma NothingAt(t: string, i: nat)
    requires i <= |t|
    ensures HasAt(t, i, "") && AllSpace("")
  {
  }

  lemma ObjectPhases(outer: seq<Context>)
    requires Ok(State(outer, Plain))
    ensures Ok(In(outer, ObjectContainer, KeyOrEnd)) && Ok(In(outer, ObjectContainer, CommaOrEnd))
    ensures Ok(In(outer, ObjectContainer, ValueNext)) && ContextOk(Context(ObjectContainer, KeyOrEnd))
    ensures ContextOk(Context(ObjectContainer, CommaOrEnd))
    ensures State(In(outer, ObjectContainer, ValueNext).contexts, Plain) == In(outer, ObjectContainer, ValueNext)
    ensures Awaits(Top(In(outer, ObjectContainer, ValueNext).contexts), Value)
    ensures MarkCompleted(In(outer, ObjectContainer, ValueNext).contexts)
         == In(outer, ObjectContainer, CommaOrEnd).contexts
    ensures State(In(outer, ObjectContainer, CommaOrEnd).contexts, Plain) == In(outer, ObjectContainer, CommaOrEnd)
  {
  }

  lemma LooseMarksAscii(x: Loose)
    requires x.Quoted? ==> x.delimiter == '\"' || x.delimiter == '\''
    ensures MarksAscii(Shown(x), LooseMarks(x))
  {
    match x
    case Bare(word) => KeptMarksAscii(word);
    case Quoted(d, body) =>
      QuoteAscii(d);
      KeptMarksAscii(body);
      hide MarksAscii;
      JoinMarksAscii(body, Keeps(|body|), [d], [true]);
      JoinMarksAscii([d], [true], body + [d], Keeps(|body|) + [true]);
  }

  lemma QuoteAscii(d: char)
    requires d == '\"' || d == '\''
    ensures MarksAscii([d], [true])
  {
  }

  lemma {:induction false} MembersMarksAscii(ms: seq<Member>)
    requires ValidMembers(ms)
    ensures MarksAscii(ShownMembers(ms), MembersMarks(ms))
    decreases |ms|
  {
    hide MarksAscii, Shown, LooseMarks;
    PunctuationMarksAscii();
    if ms != [] {
      var key, val := Shown(ms[0].key), Shown(ms[0].value);
      assert ValidKey(ms[0].key) && ValidValue(ms[0].value);
      LooseMarksAscii(ms[0].key);
      LooseMarksAscii(ms[0].value);
      MembersMarksAscii(ms[1..]);
      var tail := if |ms| == 1 then "}" else "," + ShownMembers(ms[1..]);
      var ends := if |ms| == 1 then [true] else [true] + MembersMarks(ms[1..]);
      JoinMarksAscii(",", [true], ShownMembers(ms[1..]), MembersMarks(ms[1..]));
      JoinMarksAscii(val, LooseMarks(ms[0].value), tail, ends);
      JoinMarksAscii(":", [true], val + tail, LooseMarks(ms[0].value) + ends);
      JoinMarksAscii(key, LooseMarks(ms[0].key), ":" + (val + tail), [true] + (LooseMarks(ms[0].value) + ends));
    }
  }

  /**
    Repair of a loose object: take any object of quoted or bare keys and values, in quotes of either kind, write
    any of its structure in wide forms, and repair gives the structure back in ASCII and keeps everything else.
   */
  lemma RepairKeepsLooseObjects(ms: seq<Member>, w: string)
    requires ValidMembers(ms) && Widened(w, "{" + ShownMembers(ms), [true] + MembersMarks(ms))
    ensures Repaired(w) == "{" + ShownMembers(ms)
  {
    hide *;
    var r, marks := "{" + ShownMembers(ms), [true] + MembersMarks(ms);
    var inner := In(START.contexts, ObjectContainer, KeyOrEnd);
    WholeTextAt(r);
    HasAtSplit(r, 0, "{", ShownMembers(ms));
    StartOk();
    NothingAt(r, 1);
    assert ['{'] + ("" + ShownMembers(ms)) == r;
    OpeningRewritten(r, 0, '{', "", ShownMembers(ms), START.contexts);
    MembersRewritten(ms, r, 1, START.contexts);
    RewritesNothing(r, |r|, State(MarkCompleted(START.contexts), Plain));
    NoKeeps();
    assert MembersMarks(ms) + [] == MembersMarks(ms);
    WidenedSameKinds(w, r, marks);
    RewritesSeeKinds(w, r, 0, START);
    MembersMarksAscii(ms);
    PunctuationMarksAscii();
    JoinMarksAscii("{", [true], ShownMembers(ms), MembersMarks(ms));
    SameLength(w, r, marks);
    RewrittenBack(w, r, marks);
  }

  lemma SameLength(w: string, r: string, marks: seq<bool>)
    requires |marks| == |r| && Widened(w, r, marks)
    ensures |w| == |r| == |marks|
  {
  }
}
