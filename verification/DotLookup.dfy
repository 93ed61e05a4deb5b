/**
  The lookup of a dot path in a value (agently/utils/DataLocator.py:71-121 and 170-180), for a default that is no
  part of any value. It takes one pair of brackets after a name, so a path into an array of arrays finds nothing.
 */
module DotLookup {
  import opened Chars
  import opened Json
  import opened Texts
  import opened Paths
  import opened SlashPaths
  import opened PathLookup

  /** What stands in the brackets of a part, which are taken to reach from the first one to the end. */
  function Within(part: string): string
    requires FindFrom(part, '[', 0) < |part|
  {
    var inner := part[FindFrom(part, '[', 0) + 1..];
    if inner == "" then "" else inner[..|inner| - 1]
  }

  function MemberAt(v: Value, name: string): Option<Value> {
    if v.Obj? && Find(v.members, name) < |v.members| then Some(v.members[Find(v.members, name)].value) else None
  }

  function DotLookup(v: Value, parts: seq<string>): Option<Value>
    decreases |parts|, 0
  {
    if parts == [] then Some(v)
    else
      var part, rest, bracket := parts[0], parts[1..], FindFrom(parts[0], '[', 0);
      if bracket == |part| then
        match MemberAt(v, part)
        case Some(member) => DotLookup(member, rest)
        case None => None
      else
        match (if bracket == 0 then Some(v) else MemberAt(v, part[..bracket]))
        case None => None
        case Some(at) =>
          var index := Within(part);
          if !at.Arr? then None
          else if index == "*" || index == "" then
            match DotEach(at.items, rest)
            case Some(values) => Some(Arr(values))
            case None => None
          else if AsInt(index).Some? && ItemAt(at.items, AsInt(index).value).Some? then
            DotLookup(ItemAt(at.items, AsInt(index).value).value, rest)
          else None
  }

  function DotEach(items: seq<Value>, parts: seq<string>): Option<seq<Value>>
    decreases |parts|, |items|
  {
    if items == [] then Some([])
    else
      match DotLookup(items[0], parts)
      case None => None
      case Some(first) =>
        match DotEach(items[1..], parts)
        case None => None
        case Some(rest) => Some([first] + rest)
  }

  function LocateDot(v: Value, path: string): Option<Value> {
    if path == "" then Some(v) else DotLookup(v, Split(path, '.'))
  }

  // The parts of a path that was built from keys: a name, brackets, or a name with brackets.

  predicate Bracket(key: Key) { key.Index? || key.text == "*" }

  /** No two keys in a row stand in brackets. */
  predicate OneBracket(keys: seq<Key>) {
    forall i :: 0 < i < |keys| ==> !(Bracket(keys[i - 1]) && Bracket(keys[i]))
  }

  function Inside(key: Key): string { if key.Index? then Decimal(key.index) else "*" }

  lemma InsideMeans(key: Key)
    requires Bracket(key)
    ensures DotPart(key, false) == DotPart(key, true) == "[" + Inside(key) + "]"
    ensures var t := Inside(key); t != "" && '.' !in t && '[' !in t && ']' !in t
    ensures key.Index? ==> Inside(key) != "*" && AsInt(Inside(key)) == Some(key.index)
    ensures key.Name? ==> Inside(key) == "*"
  {
    if key.Index? {
      var d := Decimal(key.index);
      NumberOfDecimal(key.index);
      assert Digit(d[0]) && forall i :: 0 <= i < |d| ==> Digit(d[i]);
      hide Decimal, Number;
    }
  }

  /** How many keys at the start stand in brackets. */
  function Brackets(keys: seq<Key>): (n: nat)
    ensures n <= |keys| && forall i :: 0 <= i < n ==> Bracket(keys[i])
    ensures n < |keys| ==> !Bracket(keys[n])
  {
    if keys == [] || !Bracket(keys[0]) then 0 else 1 + Brackets(keys[1..])
  }

  /** How many keys the first part of the path stands for. */
  function FirstGroup(keys: seq<Key>): (n: nat)
    requires keys != []
    ensures 1 <= n <= |keys| && (n < |keys| ==> !Bracket(keys[n]))
  {
    if Bracket(keys[0]) then Brackets(keys) else 1 + Brackets(keys[1..])
  }

  lemma {:induction false} DotPartsJoin(a: seq<Key>, b: seq<Key>, first: bool)
    ensures DotParts(a + b, first) == DotParts(a, first) + DotParts(b, first && a == [])
  {
    hide DotPart;
    if a == [] {
      assert a + b == b;
    } else {
      assert (a + b)[0] == a[0] && (a + b)[1..] == a[1..] + b;
      DotPartsJoin(a[1..], b, false);
    }
  }

  lemma {:induction false} BracketsText(keys: seq<Key>, first: bool)
    requires forall i :: 0 <= i < |keys| ==> Bracket(keys[i])
    ensures '.' !in DotParts(keys, first)
    ensures keys != [] ==> DotParts(keys, first) == "[" + Inside(keys[0]) + "]" + DotParts(keys[1..], false)
  {
    hide DotPart, Bracket;
    if keys != [] {
      InsideMeans(keys[0]);
      BracketsText(keys[1..], false);
    }
  }

  lemma PathMeans(keys: seq<Key>)
    ensures DotPath(keys) == DotParts(keys, true)
    ensures keys == [] ==> DotPath(keys) == "" && DotParts(keys, false) == ""
    ensures keys != [] && Walkable(keys[0]) && !Bracket(keys[0]) ==>
      && DotPath(keys) == keys[0].text + DotParts(keys[1..], false)
      && DotParts(keys, false) == "." + DotPath(keys) && DotPath(keys) != ""
      && '.' !in keys[0].text && '[' !in keys[0].text && keys[0].text != ""
  {
  }

  /** The text of the first part. */
  function Group(keys: seq<Key>): string
    requires keys != []
  {
    DotPath(keys[..FirstGroup(keys)])
  }

  lemma FirstPart(keys: seq<Key>)
    requires keys != [] && WalkableKeys(keys)
    ensures var n := FirstGroup(keys);
      && DotPath(keys) != "" && WalkableKeys(keys[n..])
      && Split(DotPath(keys), '.') == [Group(keys)] + if n == |keys| then [] else Split(DotPath(keys[n..]), '.')
  {
    hide DotPath, DotParts, DotPart, Split, Bracket, Plain, Brackets;
    var n := FirstGroup(keys);
    var group, rest := keys[..n], keys[n..];
    assert group + rest == keys && Walkable(keys[0]);
    GroupText(keys);
    DotPartsJoin(group, rest, true);
    PathMeans(keys);
    PathMeans(group);
    PathMeans(rest);
    if rest == [] {
      assert DotPath(keys) == DotPath(group) + "" == DotPath(group);
      SplitOne(DotPath(keys), '.');
      assert [DotPath(group)] + [] == [DotPath(group)];
    } else {
      assert DotPath(keys) == DotPath(group) + ['.'] + DotPath(rest);
      SplitAt(DotPath(group), '.', DotPath(rest));
    }
  }

  /** The first part: a name or nothing, then the brackets. */
  lemma GroupText(keys: seq<Key>)
    requires keys != [] && WalkableKeys(keys)
    ensures var n := FirstGroup(keys);
      var name := if Bracket(keys[0]) then "" else keys[0].text;
      var brackets := if Bracket(keys[0]) then keys[..n] else keys[1..n];
      && Group(keys) == name + DotParts(brackets, false) && '.' !in Group(keys) && Group(keys) != ""
      && (forall i :: 0 <= i < |brackets| ==> Bracket(brackets[i])) && '[' !in name && '.' !in name
  {
    var n := FirstGroup(keys);
    var group := keys[..n];
    assert Walkable(keys[0]) && group[0] == keys[0];
    PathMeans(group);
    if Bracket(keys[0]) {
      forall i | 0 <= i < n ensures Bracket(group[i]) { assert keys[i] == group[i]; }
      BracketsText(group, true);
      BracketsText(group, false);
      assert "" + DotParts(group, false) == DotParts(group, false);
    } else {
      var brackets := keys[1..n];
      assert group[1..] == brackets;
      forall i | 0 <= i < |brackets| ensures Bracket(brackets[i]) { assert keys[1..][i] == brackets[i]; }
      BracketsText(brackets, false);
    }
  }

  /** Where the brackets of a part begin, and what stands within. */
  lemma PartTexts(name: string, inside: string, more: string)
    requires '[' !in name && '[' !in inside
    ensures var part := name + ("[" + inside + "]" + more);
      && FindFrom(part, '[', 0) == |name| < |part| && part[..|name|] == name
      && (more == "" ==> Within(part) == inside)
      && (more != "" ==> ']' in Within(part))
  {
    var part := name + ("[" + inside + "]" + more);
    assert part[|name|] == '[';
    assert forall k :: 0 <= k < |name| ==> part[k] == name[k];
    FindIs(part, '[', 0, |name|);
    var inner := part[|name| + 1..];
    assert inner == inside + "]" + more;
    assert inner[|inside|] == ']';
    if more == "" { assert inner[..|inner| - 1] == inside; }
    else { assert inner[..|inner| - 1][|inside|] == ']'; }
  }

  lemma NoBracket(name: string)
    requires '[' !in name
    ensures FindFrom(name, '[', 0) == |name|
  {
  }

  // The turns of the lookup.

  lemma NameTurn(v: Value, key: Key, parts: seq<string>)
    requires key.Name? && parts != [] && parts[0] == key.text && '[' !in key.text && Lookup(v, [key]).Some?
    ensures DotLookup(v, parts) == DotLookup(Lookup(v, [key]).value, parts[1..])
  {
    NoBracket(key.text);
    assert [key][1..] == [];
    hide DotEach, AsInt, ItemAt;
  }

  /** A part with brackets is looked up below the name first, if it has one. */
  lemma BracketTurn(v: Value, key: Key, bracket: Key, parts: seq<string>)
    requires key.Name? && key.text != "" && '[' !in key.text && Bracket(bracket) && Lookup(v, [key]).Some?
    requires parts != [] && parts[0] == key.text + ("[" + Inside(bracket) + "]")
    ensures DotLookup(v, parts) == DotLookup(Lookup(v, [key]).value, ["[" + Inside(bracket) + "]"] + parts[1..])
  {
    hide DotEach, AsInt, ItemAt, Within, Inside, FindFrom;
    InsideMeans(bracket);
    var text := "[" + Inside(bracket) + "]";
    assert text + "" == text && "" + text == text;
    PartTexts(key.text, Inside(bracket), "");
    PartTexts("", Inside(bracket), "");
    assert [key][1..] == [] && ([text] + parts[1..])[1..] == parts[1..];
  }

  lemma IndexTurn(v: Value, n: nat, parts: seq<string>)
    requires parts != [] && parts[0] == "[" + Decimal(n) + "]" && Lookup(v, [Index(n)]).Some?
    ensures DotLookup(v, parts) == DotLookup(Lookup(v, [Index(n)]).value, parts[1..])
  {
    hide DotEach, AsInt, Within, FindFrom, Decimal;
    InsideMeans(Index(n));
    var text := parts[0];
    assert text + "" == text && "" + text == text;
    PartTexts("", Decimal(n), "");
    assert [Index(n)][1..] == [];
  }

  lemma EachTurn(v: Value, parts: seq<string>)
    requires parts != [] && parts[0] == "[*]" && v.Arr?
    ensures DotLookup(v, parts) == match DotEach(v.items, parts[1..]) {
      case Some(values) => Some(Arr(values))
      case None => None
    }
  {
    assert "[" + "*" + "]" + "" == "[*]" && "" + "[*]" == "[*]";
    PartTexts("", "*", "");
    hide DotEach, AsInt, Within, FindFrom;
  }

  lemma {:induction false} EachFinds(items: seq<Value>, parts: seq<string>, found: seq<Value>)
    requires |items| == |found| && forall i :: 0 <= i < |items| ==> DotLookup(items[i], parts) == Some(found[i])
    ensures DotEach(items, parts) == Some(found)
  {
    hide DotLookup;
    if items != [] {
      EachFinds(items[1..], parts, found[1..]);
      assert [found[0]] + found[1..] == found;
    }
  }

  lemma NoNumber(index: string)
    requires ']' in index
    ensures AsInt(index) == None && index != "" && index != "*"
  {
    var k :| 0 <= k < |index| && index[k] == ']';
    assert k > 0 ==> index[1..][k - 1] == ']';
  }

  /** More than one pair of brackets makes no index. */
  lemma BracketsMiss(v: Value, name: string, inside: string, more: string, parts: seq<string>)
    requires parts != [] && parts[0] == name + ("[" + inside + "]" + more) && more != ""
    requires '[' !in name && '[' !in inside
    ensures DotLookup(v, parts) == None
  {
    PartTexts(name, inside, more);
    var index := Within(parts[0]);
    NoNumber(index);
    hide AsInt, DotEach, FindFrom, Within;
  }

  // Whole paths.

  ghost predicate TailFinds(rest: seq<Key>, tail: seq<string>) {
    forall w, f :: Finds(w, StepsOf(rest), f) ==> DotLookup(w, tail) == Some(f)
  }

  lemma FindsFirst(v: Value, keys: seq<Key>, found: Value)
    requires keys != [] && Finds(v, StepsOf(keys), found)
    ensures keys[0] != Name("*") ==>
      Lookup(v, [keys[0]]).Some? && Finds(Lookup(v, [keys[0]]).value, StepsOf(keys[1..]), found)
    ensures keys[0] == Name("*") ==>
      && v.Arr? && found.Arr? && |found.items| == |v.items|
      && forall i :: 0 <= i < |v.items| ==> Finds(v.items[i], StepsOf(keys[1..]), found.items[i])
  {
    StepsFirst(keys);
    hide Lookup, StepsOf;
  }

  lemma BracketFinds(v: Value, keys: seq<Key>, found: Value, tail: seq<string>)
    requires keys != [] && Bracket(keys[0]) && Finds(v, StepsOf(keys), found) && TailFinds(keys[1..], tail)
    ensures DotLookup(v, ["[" + Inside(keys[0]) + "]"] + tail) == Some(found)
  {
    hide DotLookup, DotEach, Lookup, StepsOf, Finds;
    FindsFirst(v, keys, found);
    var parts := ["[" + Inside(keys[0]) + "]"] + tail;
    assert parts[1..] == tail;
    InsideMeans(keys[0]);
    if keys[0] == Name("*") {
      assert parts[0] == "[*]";
      EachTurn(v, parts);
      EachFinds(v.items, tail, found.items);
    } else {
      assert keys[0].Index?;
      IndexTurn(v, keys[0].index, parts);
    }
  }

  lemma {:induction false} DotFinds(v: Value, keys: seq<Key>, found: Value)
    requires keys != [] && WalkableKeys(keys) && OneBracket(keys) && Finds(v, StepsOf(keys), found)
    ensures DotLookup(v, Split(DotPath(keys), '.')) == Some(found)
    decreases |keys|
  {
    hide DotLookup, DotEach, Lookup, StepsOf, Finds, DotPath, DotParts, Split, Walkable, WalkableKeys, Inside, Group;
    var n := FirstGroup(keys);
    var rest := keys[n..];
    var tail := if rest == [] then [] else Split(DotPath(rest), '.');
    FirstPart(keys);
    GroupText(keys);
    GroupIsShort(keys);
    FindsFirst(v, keys, found);
    forall w, f | Finds(w, StepsOf(rest), f) ensures DotLookup(w, tail) == Some(f) {
      if rest == [] { FoundHere(w, f); } else { DotFinds(w, rest, f); }
    }
    if Bracket(keys[0]) {
      BracketFinds(v, keys, found, tail);
    } else if n == 1 {
      NameTurn(v, keys[0], [Group(keys)] + tail);
    } else {
      assert keys[1..][1..] == rest;
      FindsFirst(v, keys, found);
      BracketTurn(v, keys[0], keys[1], [Group(keys)] + tail);
      BracketFinds(Lookup(v, [keys[0]]).value, keys[1..], found, tail);
    }
  }

  lemma FoundHere(v: Value, found: Value)
    requires Finds(v, StepsOf([]), found)
    ensures DotLookup(v, []) == Some(found)
  {
  }

  lemma GroupIsShort(keys: seq<Key>)
    requires keys != [] && WalkableKeys(keys) && OneBracket(keys)
    ensures var n := FirstGroup(keys);
      && OneBracket(keys[n..])
      && (Bracket(keys[0]) ==> n == 1 && Group(keys) == "[" + Inside(keys[0]) + "]")
      && (!Bracket(keys[0]) ==> keys[0].Name? && keys[0].text != "" && '[' !in keys[0].text)
      && (!Bracket(keys[0]) && n == 1 ==> Group(keys) == keys[0].text)
      && (!Bracket(keys[0]) && n != 1 ==>
            n == 2 && Bracket(keys[1]) && Group(keys) == keys[0].text + ("[" + Inside(keys[1]) + "]"))
  {
    hide Group, DotParts, Inside, DotPath;
    var n := FirstGroup(keys);
    assert Walkable(keys[0]);
    GroupText(keys);
    PathMeans([]);
    assert forall i :: 0 <= i < |keys[n..]| ==> keys[n..][i] == keys[n + i];
    assert forall i :: 1 <= i < |keys| ==> keys[1..][i - 1] == keys[i];
    assert n <= if Bracket(keys[0]) then 1 else 2;
    if Bracket(keys[0]) {
      BracketsText(keys[..n], false);
      assert keys[..n][1..] == [];
    } else if n > 1 {
      BracketsText(keys[1..n], false);
      assert keys[1..n][1..] == [];
    } else {
      assert keys[1..n] == [];
    }
  }

  /** A dot path with at most one pair of brackets in a row finds what its keys stand for, wildcards included. */
  lemma DotPatternLookup(v: Value, keys: seq<Key>, found: Value)
    requires WalkableKeys(keys) && OneBracket(keys) && Finds(v, StepsOf(keys), found)
    ensures LocateDot(v, DotPath(keys)) == Some(found)
  {
    if keys == [] {
      FoundHere(v, found);
    } else {
      FirstPart(keys);
      DotFinds(v, keys, found);
    }
    hide DotLookup, Finds, StepsOf, Split;
  }

  lemma {:induction false} TwoBracketsMiss(v: Value, keys: seq<Key>)
    requires keys != [] && PlainKeys(keys) && !OneBracket(keys) && Lookup(v, keys).Some?
    ensures DotLookup(v, Split(DotPath(keys), '.')) == None
    decreases |keys|
  {
    hide DotLookup, DotEach, Lookup, DotPath, DotParts, Split, Plain, Inside, Group;
    PlainIsWalkable(keys);
    FirstPart(keys);
    GroupText(keys);
    PathMeans([]);
    assert Walkable(keys[0]);
    PathMeans(keys);
    LookupFirst(v, keys);
    var n := FirstGroup(keys);
    var rest := keys[n..];
    var tail := if rest == [] then [] else Split(DotPath(rest), '.');
    var parts := [Group(keys)] + tail;
    var named := !Bracket(keys[0]);
    var brackets := if named then keys[1..n] else keys[..n];
    if brackets != [] {
      BracketsText(brackets, false);
      InsideMeans(brackets[0]);
    }
    if |brackets| > 1 {
      BracketsText(brackets[1..], false);
      BracketsMiss(v, if named then keys[0].text else "", Inside(brackets[0]), DotParts(brackets[1..], false), parts);
    } else {
      RestHasTwo(keys);
      assert brackets != [] ==> brackets[1..] == [];
      if named { assert keys[1..][0] == keys[1]; }
      var at := Lookup(v, [keys[0]]).value;
      if named && n == 2 {
        LookupFirst(at, keys[1..]);
        assert keys[1..][1..] == rest;
        BracketTurn(v, keys[0], keys[1], parts);
        IndexTurn(at, keys[1].index, ["[" + Inside(keys[1]) + "]"] + tail);
        assert (["[" + Inside(keys[1]) + "]"] + tail)[1..] == tail;
        TwoBracketsMiss(Lookup(at, [keys[1]]).value, rest);
      } else {
        if named { NameTurn(v, keys[0], parts); } else { IndexTurn(v, keys[0].index, parts); }
        TwoBracketsMiss(at, rest);
      }
    }
  }

  lemma PlainIsWalkable(keys: seq<Key>)
    requires PlainKeys(keys)
    ensures WalkableKeys(keys)
    ensures forall i :: 0 <= i < |keys| ==> (Bracket(keys[i]) <==> keys[i].Index?)
    ensures forall i :: 0 <= i <= |keys| ==> PlainKeys(keys[i..])
  {
  }

  lemma LookupFirst(v: Value, keys: seq<Key>)
    requires keys != [] && Lookup(v, keys).Some?
    ensures Lookup(v, [keys[0]]).Some? && Lookup(Lookup(v, [keys[0]]).value, keys[1..]) == Lookup(v, keys)
  {
    assert [keys[0]][1..] == [];
  }

  /** When the first part holds at most one pair of brackets, two in a row stand further on. */
  lemma RestHasTwo(keys: seq<Key>)
    requires keys != [] && !OneBracket(keys)
    requires FirstGroup(keys) <= if Bracket(keys[0]) then 1 else 2
    ensures FirstGroup(keys) < |keys| && !OneBracket(keys[FirstGroup(keys)..])
  {
    var n := FirstGroup(keys);
    var i :| 0 < i < |keys| && Bracket(keys[i - 1]) && Bracket(keys[i]);
    if n == 2 { assert keys[1..][0] == keys[1]; }
    assert i > n;
    assert keys[n..][i - n] == keys[i] && keys[n..][i - n - 1] == keys[i - 1];
  }

  lemma {:induction false} PresentFinds(v: Value, keys: seq<Key>)
    requires PlainKeys(keys) && Lookup(v, keys).Some?
    ensures Finds(v, StepsOf(keys), Lookup(v, keys).value)
    decreases |keys|
  {
    hide Lookup, Plain;
    if keys == [] {
      LookupNothing(v);
    } else {
      PlainIsWalkable(keys);
      LookupFirst(v, keys);
      PresentFinds(Lookup(v, [keys[0]]).value, keys[1..]);
      StepsFirst(keys);
      assert keys[0] != Name("*");
    }
  }

  lemma LookupNothing(v: Value)
    ensures Lookup(v, []) == Some(v)
  {
  }

  /**
    The dot path of a place is looked up to the value there if no two of its keys in a row are indices, and to
    nothing otherwise.
   */
  lemma DotPathLookupIff(v: Value, keys: seq<Key>)
    requires PlainKeys(keys) && Lookup(v, keys).Some?
    ensures LocateDot(v, DotPath(keys)) == if OneBracket(keys) then Lookup(v, keys) else None
  {
    hide DotLookup, Split, Lookup, DotPath, WalkableKeys, PlainKeys;
    PlainIsWalkable(keys);
    if OneBracket(keys) {
      PresentFinds(v, keys);
      DotPatternLookup(v, keys, Lookup(v, keys).value);
    } else {
      FirstPart(keys);
      TwoBracketsMiss(v, keys);
    }
  }
}
