/**
  The evidence path of the streaming parser (agently/utils/StreamingJSONParser.py:162-282): a recursive
  descent over the raw text that reports a value only when its closing token has been read.
 */
module Observed {
  import opened Chars
  import opened Tokens
  import opened Json

  /** One reported value: its dot path and the value itself. */
  datatype Observation = Observation(path: string, value: Value)

  datatype Parsed = Parsed(value: Value, cursor: nat, ok: bool, seen: seq<Observation>)

  // Decoding of string contents (section 7 of RFC 8259).

  function HexValue(c: char): (n: nat)
    requires HexDigit(c)
    ensures n < 16
  {
    if Digit(c) then c as int - '0' as int
    else if 'a' <= c <= 'f' then c as int - 'a' as int + 10
    else c as int - 'A' as int + 10
  }

  /** The code unit of a `\uXXXX` escape at the start of `s`. */
  function CodeUnit(s: string): (n: Option<nat>)
    ensures n.Some? ==> |s| >= 6 && n.value < 0x10000
  {
    if |s| >= 6 && s[0] == '\\' && s[1] == 'u' && HexDigit(s[2]) && HexDigit(s[3]) && HexDigit(s[4])
      && HexDigit(s[5]) then
      Some(((HexValue(s[2]) * 16 + HexValue(s[3])) * 16 + HexValue(s[4])) * 16 + HexValue(s[5]))
    else None
  }

  function SimpleEscaped(c: char): char {
    match c
    case 'b' => '\U{0008}'
    case 'f' => '\U{000C}'
    case 'n' => '\n'
    case 'r' => '\r'
    case 't' => '\t'
    case _ => c
  }

  predicate HighSurrogate(n: nat) { 0xD800 <= n < 0xDC00 }

  predicate LowSurrogate(n: nat) { 0xDC00 <= n < 0xE000 }

  /** The text of a string body. A lone surrogate, which no `char` can hold, stays as its escape. */
  function Unescape(s: string): string
    decreases |s|
  {
    if s == "" then ""
    else if s[0] != '\\' || |s| == 1 then [s[0]] + Unescape(s[1..])
    else
      match CodeUnit(s)
      case None => [SimpleEscaped(s[1])] + Unescape(s[2..])
      case Some(high) =>
        match CodeUnit(s[6..])
        case Some(low) =>
          if HighSurrogate(high) && LowSurrogate(low) then
            [(0x10000 + (high - 0xD800) * 0x400 + (low - 0xDC00)) as char] + Unescape(s[12..])
          else if HighSurrogate(high) || LowSurrogate(high) then s[..6] + Unescape(s[6..])
          else [high as char] + Unescape(s[6..])
        case None =>
          if HighSurrogate(high) || LowSurrogate(high) then s[..6] + Unescape(s[6..])
          else [high as char] + Unescape(s[6..])
  }

  function TokenValue(token: Token): Value {
    match token
    case StringToken(raw, _) => Str(Unescape(raw))
    case NumberToken(raw, _) => Num(raw)
    case WordToken(raw, _) => Word(raw)
  }

  /** A value is reported under its dot path; the root, whose path is empty, is not. */
  function Report(keys: seq<Key>, value: Value): seq<Observation> {
    if DotPath(keys) == "" then [] else [Observation(DotPath(keys), value)]
  }

  predicate Delimiter(c: char) { c == ',' || c == ']' || c == '}' }

  function ParseScalar(t: string, i: nat, keys: seq<Key>): (r: Parsed)
    requires i < |t|
    ensures r.ok ==> i < r.cursor <= |t|
  {
    match ScalarAt(t, i)
    case None => Parsed(NULL, i, false, [])
    case Some(token) =>
      var boundary := SkipSpace(t, token.end);
      if token.NumberToken? && boundary >= |t| then Parsed(NULL, i, false, [])
      else if boundary < |t| && !Delimiter(t[boundary]) then Parsed(NULL, i, false, [])
      else Parsed(TokenValue(token), token.end, true, Report(keys, TokenValue(token)))
  }

  /** The decoded key at `i` and the index after it. */
  function KeyAt(t: string, i: nat): (r: Option<(string, nat)>)
    requires i <= |t|
    ensures r.Some? ==> i < r.value.1 <= |t|
  {
    if i == |t| || t[i] != '\"' then None
    else
      match StringEnd(t, i + 1)
      case None => None
      case Some(end) => Some((Unescape(t[i + 1..end - 1]), end))
  }

  function ParseValue(t: string, i: nat, keys: seq<Key>): (r: Parsed)
    requires i <= |t|
    ensures r.ok ==> i < r.cursor <= |t|
    decreases |t| - i, 0
  {
    var start := SkipSpace(t, i);
    if start == |t| then Parsed(NULL, start, false, [])
    else if t[start] == '{' then
      var cursor := SkipSpace(t, start + 1);
      if cursor < |t| && t[cursor] == '}' then Parsed(Obj([]), cursor + 1, true, Report(keys, Obj([])))
      else ParseMembers(t, cursor, keys, [])
    else if t[start] == '[' then
      var cursor := SkipSpace(t, start + 1);
      if cursor < |t| && t[cursor] == ']' then Parsed(Arr([]), cursor + 1, true, Report(keys, Arr([])))
      else ParseItems(t, cursor, keys, [])
    else ParseScalar(t, start, keys)
  }

  /** The loop over the members of an object, from a cursor where a key is expected. */
  function ParseMembers(t: string, i: nat, keys: seq<Key>, members: seq<Member>): (r: Parsed)
    requires i <= |t|
    ensures r.ok ==> i < r.cursor <= |t|
    decreases |t| - i, 1
  {
    match KeyAt(t, i)
    case None => Parsed(Obj(members), i, false, [])
    case Some((key, end)) =>
      var colon := SkipSpace(t, end);
      if colon == |t| || t[colon] != ':' then Parsed(Obj(members), colon, false, [])
      else
        var child := ParseValue(t, colon + 1, keys + [Name(key)]);
        if !child.ok then Parsed(Obj(members), child.cursor, false, child.seen)
        else
          var members' := Put(members, key, child.value);
          var next := SkipSpace(t, child.cursor);
          if next < |t| && t[next] == ',' then
            var rest := ParseMembers(t, SkipSpace(t, next + 1), keys, members');
            rest.(seen := child.seen + rest.seen)
          else if next < |t| && t[next] == '}' then
            Parsed(Obj(members'), next + 1, true, child.seen + Report(keys, Obj(members')))
          else Parsed(Obj(members'), next, false, child.seen)
  }

  /** The loop over the items of an array, from a cursor where a value is expected. */
  function ParseItems(t: string, i: nat, keys: seq<Key>, items: seq<Value>): (r: Parsed)
    requires i <= |t|
    ensures r.ok ==> i < r.cursor <= |t|
    decreases |t| - i, 1
  {
    if i == |t| then Parsed(Arr(items), i, false, [])
    else
      var child := ParseValue(t, i, keys + [Index(|items|)]);
      if !child.ok then Parsed(Arr(items), child.cursor, false, child.seen)
      else
        var items' := items + [child.value];
        var next := SkipSpace(t, child.cursor);
        if next < |t| && t[next] == ',' then
          var rest := ParseItems(t, SkipSpace(t, next + 1), keys, items');
          rest.(seen := child.seen + rest.seen)
        else if next < |t| && t[next] == ']' then
          Parsed(Arr(items'), next + 1, true, child.seen + Report(keys, Arr(items')))
        else Parsed(Arr(items'), next, false, child.seen)
  }

  /** The first bracket of a text, or its length. */
  function FirstBracket(t: string, i: nat): (b: nat)
    requires i <= |t|
    ensures i <= b <= |t|
    ensures b < |t| ==> t[b] == '{' || t[b] == '['
    ensures forall k :: i <= k < b ==> t[k] != '{' && t[k] != '['
    decreases |t| - i
  {
    if i == |t| || t[i] == '{' || t[i] == '[' then i else FirstBracket(t, i + 1)
  }

  /** What `_observed_complete_values` returns. */
  function ObservedValues(t: string): seq<Observation> {
    var start := FirstBracket(t, 0);
    if start == |t| then [] else ParseValue(t, start, []).seen
  }

  // The descent with its cursor loops and the list it appends to.

  method ObserveScalar(text: string, index: nat, parts: seq<Key>, completed: seq<Observation>)
    returns (value: Value, cursor: nat, complete: bool, completed': seq<Observation>)
    requires index < |text|
    ensures var r := ParseScalar(text, index, parts);
            (complete ==> value == r.value && cursor == r.cursor) && complete == r.ok
              && completed' == completed + r.seen
  {
    match ScalarAt(text, index)
    case None =>
      return NULL, index, false, completed;
    case Some(token) =>
      var boundary := SkipSpace(text, token.end);
      if token.NumberToken? && boundary >= |text| {
        return NULL, index, false, completed;
      }
      if boundary < |text| && !(text[boundary] in {',', ']', '}'}) {
        return NULL, index, false, completed;
      }
      completed' := completed;
      var path := BuildDotPath(parts);
      if path != "" { completed' := completed' + [Observation(path, TokenValue(token))]; }
      return TokenValue(token), token.end, true, completed';
  }

  method ObserveValue(text: string, index: nat, parts: seq<Key>, completed: seq<Observation>)
    returns (value: Value, cursor: nat, complete: bool, completed': seq<Observation>)
    requires index <= |text|
    ensures var r := ParseValue(text, index, parts);
            (complete ==> value == r.value && cursor == r.cursor) && complete == r.ok
              && completed' == completed + r.seen
    decreases |text| - index, 0
  {
    var start := SkipSpace(text, index);
    if start >= |text| {
      return NULL, start, false, completed;
    }
    if text[start] == '{' {
      value, cursor, complete, completed' := ObserveObject(text, start, parts, completed);
    } else if text[start] == '[' {
      value, cursor, complete, completed' := ObserveArray(text, start, parts, completed);
    } else {
      value, cursor, complete, completed' := ObserveScalar(text, start, parts, completed);
    }
  }

  /** One turn of the member loop, once a key and its colon have been read. */
  lemma MembersTurn(t: string, i: nat, keys: seq<Key>, members: seq<Member>, key: string, end: nat, child: Parsed)
    requires i <= |t| && KeyAt(t, i) == Some((key, end))
    requires var colon := SkipSpace(t, end);
             colon < |t| && t[colon] == ':' && child == ParseValue(t, colon + 1, keys + [Name(key)])
    ensures !child.ok ==> ParseMembers(t, i, keys, members) == Parsed(Obj(members), child.cursor, false, child.seen)
    ensures child.ok ==>
      var members', next := Put(members, key, child.value), SkipSpace(t, child.cursor);
      ParseMembers(t, i, keys, members) ==
        if next < |t| && t[next] == ',' then
          var rest := ParseMembers(t, SkipSpace(t, next + 1), keys, members'); rest.(seen := child.seen + rest.seen)
        else if next < |t| && t[next] == '}' then
          Parsed(Obj(members'), next + 1, true, child.seen + Report(keys, Obj(members')))
        else Parsed(Obj(members'), next, false, child.seen)
  {
    hide KeyAt, SkipSpace, ParseValue, Put, Report;
  }

  lemma MembersStuck(t: string, i: nat, keys: seq<Key>, members: seq<Member>)
    requires i <= |t|
    requires match KeyAt(t, i)
             case None => true
             case Some((_, end)) => var colon := SkipSpace(t, end); colon == |t| || t[colon] != ':'
    ensures var r := ParseMembers(t, i, keys, members); !r.ok && r.seen == []
  {
  }

  /** One turn of the item loop. */
  lemma ItemsTurn(t: string, i: nat, keys: seq<Key>, items: seq<Value>, child: Parsed)
    requires i < |t| && child == ParseValue(t, i, keys + [Index(|items|)])
    ensures !child.ok ==> ParseItems(t, i, keys, items) == Parsed(Arr(items), child.cursor, false, child.seen)
    ensures child.ok ==>
      var items', next := items + [child.value], SkipSpace(t, child.cursor);
      ParseItems(t, i, keys, items) ==
        if next < |t| && t[next] == ',' then
          var rest := ParseItems(t, SkipSpace(t, next + 1), keys, items'); rest.(seen := child.seen + rest.seen)
        else if next < |t| && t[next] == ']' then
          Parsed(Arr(items'), next + 1, true, child.seen + Report(keys, Arr(items')))
        else Parsed(Arr(items'), next, false, child.seen)
  {
    hide SkipSpace, ParseValue, Report;
  }

  /** What is completed, once the path is known to be reportable. */
  method Complete(path: string, ghost parts: seq<Key>, value: Value, completed: seq<Observation>)
    returns (completed': seq<Observation>)
    requires path == DotPath(parts)
    ensures completed' == completed + Report(parts, value)
  {
    completed' := completed;
    if path != "" { completed' := completed' + [Observation(path, value)]; }
  }

  method ObserveObject(text: string, index: nat, parts: seq<Key>, completed: seq<Observation>)
    returns (value: Value, cursor: nat, complete: bool, completed': seq<Observation>)
    requires index < |text| && text[index] == '{'
    ensures var r := ParseValue(text, index, parts);
            (complete ==> value == r.value && cursor == r.cursor) && complete == r.ok
              && completed' == completed + r.seen
    decreases |text| - index - 1, 2
  {
    SkipSpaceUnique(text, index, index);
    var path := BuildDotPath(parts);
    cursor := SkipSpace(text, index + 1);
    if cursor < |text| && text[cursor] == '}' {
      completed' := Complete(path, parts, Obj([]), completed);
      return Obj([]), cursor + 1, true, completed';
    }
    value, cursor, complete, completed' := ObserveMembers(text, cursor, parts, path, completed);
  }

  method ObserveMembers(text: string, start: nat, parts: seq<Key>, path: string, completed: seq<Observation>)
    returns (value: Value, cursor: nat, complete: bool, completed': seq<Observation>)
    requires start <= |text| && path == DotPath(parts)
    ensures var r := ParseMembers(text, start, parts, []);
            (complete ==> value == r.value && cursor == r.cursor) && complete == r.ok
              && completed' == completed + r.seen
    decreases |text| - start, 1
  {
    hide *;
    var members: seq<Member> := [];
    completed' := completed;
    cursor := start;
    ghost var all := ParseMembers(text, start, parts, []);
    while cursor < |text|
      invariant start <= cursor <= |text|
      invariant var r := ParseMembers(text, cursor, parts, members);
                all == r.(seen := all.seen) && completed + all.seen == completed' + r.seen
      decreases |text| - cursor
    {
      match KeyAt(text, cursor)
      case None =>
        MembersStuck(text, cursor, parts, members);
        return Obj(members), cursor, false, completed';
      case Some((key, keyEnd)) =>
        var colon := SkipSpace(text, keyEnd);
        if colon >= |text| || text[colon] != ':' {
          MembersStuck(text, cursor, parts, members);
          return Obj(members), colon, false, completed';
        }
        ghost var parsed := ParseValue(text, colon + 1, parts + [Name(key)]);
        MembersTurn(text, cursor, parts, members, key, keyEnd, parsed);
        var child, childComplete;
        child, cursor, childComplete, completed' := ObserveValue(text, colon + 1, parts + [Name(key)], completed');
        if !childComplete {
          return Obj(members), cursor, false, completed';
        }
        members := Put(members, key, child);
        cursor := SkipSpace(text, cursor);
        if cursor < |text| && text[cursor] == ',' {
          cursor := SkipSpace(text, cursor + 1);
          continue;
        }
        if cursor < |text| && text[cursor] == '}' {
          completed' := Complete(path, parts, Obj(members), completed');
          return Obj(members), cursor + 1, true, completed';
        }
        return Obj(members), cursor, false, completed';
    }
    NothingToRead(text, parts, members, []);
    return Obj(members), cursor, false, completed';
  }

  lemma NothingToRead(t: string, keys: seq<Key>, members: seq<Member>, items: seq<Value>)
    ensures var r := ParseMembers(t, |t|, keys, members); !r.ok && r.seen == []
    ensures var r := ParseItems(t, |t|, keys, items); !r.ok && r.seen == []
  {
  }

  method ObserveArray(text: string, index: nat, parts: seq<Key>, completed: seq<Observation>)
    returns (value: Value, cursor: nat, complete: bool, completed': seq<Observation>)
    requires index < |text| && text[index] == '['
    ensures var r := ParseValue(text, index, parts);
            (complete ==> value == r.value && cursor == r.cursor) && complete == r.ok
              && completed' == completed + r.seen
    decreases |text| - index - 1, 2
  {
    SkipSpaceUnique(text, index, index);
    var path := BuildDotPath(parts);
    cursor := SkipSpace(text, index + 1);
    if cursor < |text| && text[cursor] == ']' {
      completed' := Complete(path, parts, Arr([]), completed);
      return Arr([]), cursor + 1, true, completed';
    }
    value, cursor, complete, completed' := ObserveItems(text, cursor, parts, path, completed);
  }

  method ObserveItems(text: string, start: nat, parts: seq<Key>, path: string, completed: seq<Observation>)
    returns (value: Value, cursor: nat, complete: bool, completed': seq<Observation>)
    requires start <= |text| && path == DotPath(parts)
    ensures var r := ParseItems(text, start, parts, []);
            (complete ==> value == r.value && cursor == r.cursor) && complete == r.ok
              && completed' == completed + r.seen
    decreases |text| - start, 1
  {
    hide *;
    var items: seq<Value> := [];
    var itemIndex := 0;
    completed' := completed;
    cursor := start;
    ghost var all := ParseItems(text, start, parts, []);
    while cursor < |text|
      invariant start <= cursor <= |text| && itemIndex == |items|
      invariant var r := ParseItems(text, cursor, parts, items);
                all == r.(seen := all.seen) && completed + all.seen == completed' + r.seen
      decreases |text| - cursor
    {
      ghost var parsed := ParseValue(text, cursor, parts + [Index(itemIndex)]);
      ItemsTurn(text, cursor, parts, items, parsed);
      var child, childComplete;
      child, cursor, childComplete, completed' := ObserveValue(text, cursor, parts + [Index(itemIndex)], completed');
      if !childComplete {
        return Arr(items), cursor, false, completed';
      }
      items := items + [child];
      cursor := SkipSpace(text, cursor);
      if cursor < |text| && text[cursor] == ',' {
        itemIndex := itemIndex + 1;
        cursor := SkipSpace(text, cursor + 1);
        continue;
      }
      if cursor < |text| && text[cursor] == ']' {
        completed' := Complete(path, parts, Arr(items), completed');
        return Arr(items), cursor + 1, true, completed';
      }
      return Arr(items), cursor, false, completed';
    }
    NothingToRead(text, parts, [], items);
    return Arr(items), cursor, false, completed';
  }

  method ObservedCompleteValues(text: string) returns (completed: seq<Observation>)
    ensures completed == ObservedValues(text)
  {
    var start := 0;
    while start < |text| && text[start] != '{' && text[start] != '['
      invariant start <= |text| && FirstBracket(text, start) == FirstBracket(text, 0)
    {
      start := start + 1;
    }
    if start == |text| {
      return [];
    }
    var value, cursor, complete;
    value, cursor, complete, completed := ObserveValue(text, start, [], []);
  }

  // The root is never reported: every reported path is non-empty.

  ghost predicate HavePaths(seen: seq<Observation>) {
    forall k :: 0 <= k < |seen| ==> seen[k].path != ""
  }

  lemma {:induction false} ValueHasPaths(t: string, i: nat, keys: seq<Key>)
    requires i <= |t|
    ensures HavePaths(ParseValue(t, i, keys).seen)
    decreases |t| - i, 0
  {
    hide IsSpace, AllSpace, SkipSpace, KeyAt, StringEnd, ScalarAt, DotPath, ParseMembers, ParseItems;
    var start := SkipSpace(t, i);
    if start < |t| && (t[start] == '{' || t[start] == '[') {
      var cursor := SkipSpace(t, start + 1);
      if t[start] == '{' { MembersHavePaths(t, cursor, keys, []); } else { ItemsHavePaths(t, cursor, keys, []); }
    }
  }

  lemma {:induction false} MembersHavePaths(t: string, i: nat, keys: seq<Key>, members: seq<Member>)
    requires i <= |t|
    ensures HavePaths(ParseMembers(t, i, keys, members).seen)
    decreases |t| - i, 1
  {
    hide IsSpace, AllSpace, SkipSpace, KeyAt, ParseValue, Put, DotPath;
    if KeyAt(t, i).Some? {
      var (key, end) := KeyAt(t, i).value;
      var colon := SkipSpace(t, end);
      if colon < |t| && t[colon] == ':' {
        var child := ParseValue(t, colon + 1, keys + [Name(key)]);
        ValueHasPaths(t, colon + 1, keys + [Name(key)]);
        if child.ok {
          var next := SkipSpace(t, child.cursor);
          if next < |t| && t[next] == ',' {
            MembersHavePaths(t, SkipSpace(t, next + 1), keys, Put(members, key, child.value));
          }
        }
      }
    }
  }

  lemma {:induction false} ItemsHavePaths(t: string, i: nat, keys: seq<Key>, items: seq<Value>)
    requires i <= |t|
    ensures HavePaths(ParseItems(t, i, keys, items).seen)
    decreases |t| - i, 1
  {
    hide IsSpace, AllSpace, SkipSpace, ParseValue, DotPath;
    if i < |t| {
      var child := ParseValue(t, i, keys + [Index(|items|)]);
      ValueHasPaths(t, i, keys + [Index(|items|)]);
      if child.ok {
        var next := SkipSpace(t, child.cursor);
        if next < |t| && t[next] == ',' { ItemsHavePaths(t, SkipSpace(t, next + 1), keys, items + [child.value]); }
      }
    }
  }

  lemma ObservedHavePaths(t: string, i: nat)
    requires i < |ObservedValues(t)|
    ensures ObservedValues(t)[i].path != ""
  {
    hide ParseValue;
    ValueHasPaths(t, FirstBracket(t, 0), []);
  }
}
