/**
  The dot form of a key list (agently/utils/DataPathBuilder.py:41-57) read back into keys
  (agently/utils/StreamingJSONParser.py:360-390).
 */
module Paths {
  import opened Chars
  import opened Json
  import opened Texts
  import opened Tokens

  /** A name the dot form carries without loss. */
  predicate Plain(text: string) {
    text != "" && text != "*" && '.' !in text && '/' !in text && '[' !in text && ']' !in text
  }

  predicate PlainKeys(keys: seq<Key>) {
    forall i :: 0 <= i < |keys| && keys[i].Name? ==> Plain(keys[i].text)
  }

  // Reading a dot path (StreamingJSONParser.py:360-390).

  /** Every `[digits]` in the text, from left to right. */
  function Indices(t: string): seq<Key>
    decreases |t|
  {
    if t == "" then []
    else
      var e := if t[0] == '[' then SkipDigits(t, 1) else 0;
      DigitRun(t, 1);
      if e > 1 && e < |t| && t[e] == ']' then [Index(Number(t[1..e]))] + Indices(t[e + 1..])
      else Indices(t[1..])
  }

  function PartKeys(part: string): seq<Key> {
    if '[' in part && ']' in part then
      var name := Split(part, '[')[0];
      (if name == "" then [] else [Name(name)]) + Indices(part)
    else [Name(part)]
  }

  function PartsKeys(parts: seq<string>): seq<Key> {
    if parts == [] then [] else PartKeys(parts[0]) + PartsKeys(parts[1..])
  }

  function PathKeys(path: string): seq<Key> {
    if path == "" then [] else PartsKeys(Split(path, '.'))
  }

  method ParsePathKeys(path: string) returns (keys: seq<Key>)
    ensures keys == PathKeys(path)
  {
    hide *;
    PathKeysMeans(path);
    if path == "" { return []; }
    keys := [];
    var parts := Split(path, '.');
    assert parts[0..] == parts;
    for i := 0 to |parts|
      invariant keys + PartsKeys(parts[i..]) == PartsKeys(parts)
    {
      var part := parts[i];
      PartsKeysFirst(parts[i..]);
      assert parts[i..][1..] == parts[i + 1..];
      var added := [];
      if '[' in part && ']' in part {
        var base := Split(part, '[')[0];
        if base != "" { added := [Name(base)]; }
        added := added + Indices(part);
      } else {
        added := [Name(part)];
      }
      assert added == PartKeys(part) by { PartKeysMeans(part); }
      assert keys + added + PartsKeys(parts[i + 1..]) == keys + PartsKeys(parts[i..]);
      keys := keys + added;
    }
    PartsKeysFirst(parts[|parts|..]);
  }

  lemma PathKeysMeans(path: string)
    ensures PathKeys(path) == if path == "" then [] else PartsKeys(Split(path, '.'))
  {
  }

  lemma PartKeysMeans(part: string)
    ensures Split(part, '[') != []
    ensures PartKeys(part) ==
      if '[' in part && ']' in part then
        (if Split(part, '[')[0] == "" then [] else [Name(Split(part, '[')[0])]) + Indices(part)
      else [Name(part)]
  {
  }

  lemma PartsKeysFirst(parts: seq<string>)
    ensures PartsKeys(parts) == if parts == [] then [] else PartKeys(parts[0]) + PartsKeys(parts[1..])
  {
  }

  lemma DotPartsFirst(keys: seq<Key>)
    ensures DotParts(keys, false) == if keys == [] then "" else DotPart(keys[0], false) + DotParts(keys[1..], false)
    ensures keys != [] && keys[0].Index? ==> DotPart(keys[0], false) == "[" + Decimal(keys[0].index) + "]"
    ensures keys != [] && keys[0].Name? && Plain(keys[0].text) ==> DotPart(keys[0], false) == "." + keys[0].text
  {
  }

  lemma BracketsFirst(indices: seq<nat>)
    ensures Brackets(indices) == if indices == [] then "" else "[" + Decimal(indices[0]) + "]" + Brackets(indices[1..])
  {
  }

  function Brackets(indices: seq<nat>): string {
    if indices == [] then "" else "[" + Decimal(indices[0]) + "]" + Brackets(indices[1..])
  }

  function IndexKeys(indices: seq<nat>): (r: seq<Key>)
    ensures |r| == |indices| && forall i :: 0 <= i < |r| ==> r[i] == Index(indices[i])
  {
    seq(|indices|, i requires 0 <= i < |indices| => Index(indices[i]))
  }

  lemma {:induction false} BracketsSnoc(indices: seq<nat>, n: nat)
    ensures Brackets(indices + [n]) == Brackets(indices) + ("[" + Decimal(n) + "]")
  {
    if indices == [] {
      assert ([] + [n])[1..] == [];
    } else {
      assert (indices + [n])[1..] == indices[1..] + [n];
      BracketsSnoc(indices[1..], n);
    }
  }

  lemma {:induction false} IndicesSkip(p: string, t: string)
    requires '[' !in p
    ensures Indices(p + t) == Indices(t)
    decreases |p|
  {
    if p == "" {
      assert p + t == t;
    } else {
      assert (p + t)[0] == p[0] && (p + t)[1..] == p[1..] + t;
      IndicesSkip(p[1..], t);
    }
  }

  lemma {:induction false} IndicesOfBrackets(indices: seq<nat>)
    ensures Indices(Brackets(indices)) == IndexKeys(indices)
  {
    hide *;
    BracketsFirst(indices);
    IndicesNone();
    if indices == [] {
      assert IndexKeys(indices) == [];
    } else {
      var d, rest := Decimal(indices[0]), Brackets(indices[1..]);
      NumberOfDecimal(indices[0]);
      IndicesFirst(d, rest);
      IndicesOfBrackets(indices[1..]);
      assert IndexKeys(indices) == [Index(indices[0])] + IndexKeys(indices[1..]);
    }
  }

  lemma IndicesNone()
    ensures Indices("") == []
  {
  }

  lemma IndicesFirst(d: string, rest: string)
    requires Digits(d)
    ensures Indices("[" + d + "]" + rest) == [Index(Number(d))] + Indices(rest)
  {
    hide Number;
    var t := "[" + d + "]" + rest;
    var e := SkipDigits(t, 1);
    DigitRun(t, 1);
    assert t[|d| + 1] == ']' && forall k :: 1 <= k < |d| + 1 ==> t[k] == d[k - 1];
    assert e == |d| + 1;
    assert t[1..e] == d && t[e + 1..] == rest;
  }

  lemma {:induction false} BracketsHaveNoDot(indices: seq<nat>)
    ensures '.' !in Brackets(indices)
  {
    if indices != [] {
      var d := Decimal(indices[0]);
      assert forall i :: 0 <= i < |d| ==> Digit(d[i]);
      assert '.' !in d;
      BracketsHaveNoDot(indices[1..]);
    }
  }

  /** One dot-free part: a name or nothing, then indices. */
  lemma PartRoundTrip(p: string, indices: seq<nat>)
    requires p == "" || Plain(p)
    requires p != "" || indices != []
    ensures PartKeys(p + Brackets(indices)) == (if p == "" then [] else [Name(p)]) + IndexKeys(indices)
    ensures '.' !in p + Brackets(indices)
  {
    hide *;
    var part := p + Brackets(indices);
    BracketsHaveNoDot(indices);
    BracketsFirst(indices);
    PartKeysMeans(part);
    PlainMeans(p);
    assert IndexKeys([]) == [];
    if indices == [] {
      assert part == p;
      assert [Name(p)] + [] == [Name(p)];
    } else {
      var d, rest := Decimal(indices[0]), Brackets(indices[1..]);
      PartText(p, d, rest);
      SplitAt(p, '[', d + "]" + rest);
      IndicesSkip(p, Brackets(indices));
      IndicesOfBrackets(indices);
    }
  }

  lemma PartText(p: string, d: string, rest: string)
    ensures var part := p + ("[" + d + "]" + rest); part == p + ['['] + (d + "]" + rest) && '[' in part && ']' in part
  {
    var part := p + ("[" + d + "]" + rest);
    assert part[|p|] == '[' && part[|p| + 1 + |d|] == ']';
  }

  lemma PlainMeans(p: string)
    requires p == "" || Plain(p)
    ensures '.' !in p && '[' !in p && ']' !in p
  {
  }

  /** The keys of a path, given the part that is being built when `keys` starts. */
  lemma {:induction false} PartsRoundTrip(p: string, indices: seq<nat>, keys: seq<Key>)
    requires p == "" || Plain(p)
    requires p != "" || indices != []
    requires PlainKeys(keys)
    ensures PartsKeys(Split(p + Brackets(indices) + DotParts(keys, false), '.'))
         == (if p == "" then [] else [Name(p)]) + IndexKeys(indices) + keys
    decreases |keys|
  {
    hide *;
    var part := p + Brackets(indices);
    PartRoundTrip(p, indices);
    DotPartsFirst(keys);
    if keys == [] {
      assert part + DotParts(keys, false) == part;
      SplitOne(part, '.');
      PartsKeysFirst([part]);
      PartsKeysFirst([]);
      assert [part][1..] == [];
      assert PartKeys(part) + [] == PartKeys(part) + keys;
    } else {
      var rest := DotParts(keys[1..], false);
      KeysTail(keys);
      match keys[0]
      case Index(n) =>
        IndexText(p, indices, n, rest);
        PartsRoundTrip(p, indices + [n], keys[1..]);
        IndexMoves(if p == "" then [] else [Name(p)], indices, keys);
      case Name(text) =>
        NameText(part, text, rest);
        var next := text + Brackets([]) + rest;
        SplitAt(part, '.', next);
        PartsRoundTrip(text, [], keys[1..]);
        NameMoves(keys);
        PartsKeysFirst([part] + Split(next, '.'));
        assert ([part] + Split(next, '.'))[1..] == Split(next, '.');
    }
  }

  lemma IndexText(p: string, indices: seq<nat>, n: nat, rest: string)
    ensures p + Brackets(indices) + ("[" + Decimal(n) + "]" + rest) == p + Brackets(indices + [n]) + rest
  {
    hide Brackets, Decimal;
    BracketsSnoc(indices, n);
  }

  lemma NameText(part: string, text: string, rest: string)
    ensures part + ("." + text + rest) == part + ['.'] + (text + Brackets([]) + rest)
  {
  }

  lemma IndexMoves(head: seq<Key>, indices: seq<nat>, keys: seq<Key>)
    requires keys != [] && keys[0].Index?
    ensures head + IndexKeys(indices + [keys[0].index]) + keys[1..] == head + IndexKeys(indices) + keys
  {
    assert IndexKeys(indices + [keys[0].index]) + keys[1..] == IndexKeys(indices) + keys;
  }

  lemma NameMoves(keys: seq<Key>)
    requires keys != [] && keys[0].Name?
    ensures [keys[0]] + IndexKeys([]) + keys[1..] == keys
  {
  }

  lemma KeysTail(keys: seq<Key>)
    requires PlainKeys(keys) && keys != []
    ensures PlainKeys(keys[1..]) && (keys[0].Name? ==> Plain(keys[0].text) && keys[0].text != "")
  {
  }

  /** Reading a built dot path gives its keys back. */
  lemma DotPathRoundTrip(keys: seq<Key>)
    requires PlainKeys(keys)
    ensures PathKeys(DotPath(keys)) == keys
  {
    hide *;
    DotPathFirst(keys);
    if keys == [] {
      PathKeysMeans("");
    } else {
      var rest := DotParts(keys[1..], false);
      KeysTail(keys);
      PathKeysMeans(DotPath(keys));
      BracketsFirst([]);
      match keys[0]
      case Index(n) =>
        BracketsFirst([n]);
        assert [n][1..] == [];
        assert DotPath(keys) == "" + Brackets([n]) + rest;
        PartsRoundTrip("", [n], keys[1..]);
        assert [] + IndexKeys([n]) + keys[1..] == keys;
      case Name(text) =>
        assert DotPath(keys) == text + Brackets([]) + rest;
        PartsRoundTrip(text, [], keys[1..]);
        assert [Name(text)] + IndexKeys([]) + keys[1..] == keys;
    }
  }

  lemma DotPathFirst(keys: seq<Key>)
    ensures keys == [] ==> DotPath(keys) == ""
    ensures keys != [] && keys[0].Index? ==>
      DotPath(keys) == "[" + Decimal(keys[0].index) + "]" + DotParts(keys[1..], false)
    ensures keys != [] && keys[0].Name? && Plain(keys[0].text) ==>
      DotPath(keys) == keys[0].text + DotParts(keys[1..], false)
  {
  }

  /** Different places have different paths. */
  lemma DotPathInjective(keys: seq<Key>, keys': seq<Key>)
    requires PlainKeys(keys) && PlainKeys(keys') && DotPath(keys) == DotPath(keys')
    ensures keys == keys'
  {
    DotPathRoundTrip(keys);
    DotPathRoundTrip(keys');
  }
}
