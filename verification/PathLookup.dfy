/**
  The slash form of a key list (agently/utils/DataPathBuilder.py:59-68) and its lookup in a value
  (agently/utils/DataLocator.py:122-158 and 181-184), for a default that is no part of any value.
 */
module PathLookup {
  import opened Chars
  import opened Json
  import opened Texts
  import opened SlashPaths

  function KeyText(key: Key): string {
    match key
    case Index(n) => Decimal(n)
    case Name(text) => text
  }

  function KeyTexts(keys: seq<Key>): (r: seq<string>)
    ensures |r| == |keys| && forall i :: 0 <= i < |r| ==> r[i] == KeyText(keys[i])
  {
    seq(|keys|, i requires 0 <= i < |keys| => KeyText(keys[i]))
  }

  function SlashPath(keys: seq<Key>): string {
    if keys == [] then "" else "/" + Join(KeyTexts(keys), '/')
  }

  lemma {:induction false} JoinSnoc(parts: seq<string>, last: string, sep: char)
    requires parts != []
    ensures Join(parts + [last], sep) == Join(parts, sep) + [sep] + last
  {
    if |parts| == 1 {
      assert (parts + [last])[1..] == [last];
    } else {
      assert (parts + [last])[1..] == parts[1..] + [last];
      JoinSnoc(parts[1..], last, sep);
    }
  }

  method BuildSlashPath(keys: seq<Key>) returns (path: string)
    ensures path == SlashPath(keys)
  {
    hide Join, Concat, KeyText;
    if keys == [] { return ""; }
    var parts := ["/"];
    ghost var texts := KeyTexts(keys);
    ConcatSnoc([], "/");
    assert [] + ["/"] == ["/"] && Concat([]) + "/" == "/" by { ConcatFirst([]); }
    for i := 0 to |keys|
      invariant parts != [] && parts[|parts| - 1] == "/"
      invariant Concat(parts) == (if i == 0 then "" else "/" + Join(texts[..i], '/')) + "/"
    {
      ConcatSnoc(parts, KeyText(keys[i]));
      ConcatSnoc(parts + [KeyText(keys[i])], "/");
      assert texts[..i + 1] == texts[..i] + [texts[i]];
      if i > 0 {
        JoinSnoc(texts[..i], texts[i], '/');
        assert "/" + Join(texts[..i], '/') + "/" + texts[i] == "/" + Join(texts[..i + 1], '/');
      } else {
        assert [] + [texts[0]] == [texts[0]];
        JoinOne(texts[0]);
      }
      parts := parts + [KeyText(keys[i])] + ["/"];
    }
    assert texts[..|keys|] == texts;
    ghost var last := parts[..|parts| - 1];
    assert last + ["/"] == parts;
    ConcatSnoc(last, "/");
    assert (Concat(last) + "/")[..|Concat(last)|] == Concat(last);
    return Concat(parts[..|parts| - 1]);
  }

  lemma JoinOne(t: string)
    ensures Join([t], '/') == t
  {
  }

  // The lookup.

  /** Python's `items[n]`, which counts negative indices from the end. */
  function ItemAt(items: seq<Value>, n: int): Option<Value> {
    if 0 <= n < |items| then Some(items[n]) else if -|items| <= n < 0 then Some(items[|items| + n]) else None
  }

  function SlashLookup(v: Value, parts: seq<string>): Option<Value>
    decreases |parts|, 0
  {
    if parts == [] then Some(v)
    else
      var part := if InBrackets(parts[0]) then parts[0][1..|parts[0]| - 1] else parts[0];
      if part == "*" || part == "" then
        if v.Arr? then
          match EachLookup(v.items, parts[1..])
          case Some(values) => Some(Arr(values))
          case None => None
        else None
      else
        match v
        case Obj(members) =>
          var i := Find(members, part);
          if i < |members| then SlashLookup(members[i].value, parts[1..]) else None
        case Arr(items) =>
          if AsInt(part).Some? && ItemAt(items, AsInt(part).value).Some? then
            SlashLookup(ItemAt(items, AsInt(part).value).value, parts[1..])
          else None
        case _ => None
  }

  function EachLookup(items: seq<Value>, parts: seq<string>): Option<seq<Value>>
    decreases |parts|, |items|
  {
    if items == [] then Some([])
    else
      match SlashLookup(items[0], parts)
      case None => None
      case Some(first) =>
        match EachLookup(items[1..], parts)
        case None => None
        case Some(rest) => Some([first] + rest)
  }

  function NonEmpty(parts: seq<string>): seq<string> {
    if parts == [] then [] else (if parts[0] == "" then [] else [parts[0]]) + NonEmpty(parts[1..])
  }

  function LocateSlash(v: Value, path: string): Option<Value> {
    if path == "" then Some(v) else SlashLookup(v, NonEmpty(Split(path, '/')))
  }

  /** A key the slash form keeps apart from wildcards and separators. */
  predicate SlashKey(key: Key) {
    key.Name? ==> key.text != "" && '/' !in key.text && key.text != "*" && !InBrackets(key.text)
  }

  lemma KeyTextMeans(key: Key)
    requires SlashKey(key)
    ensures var t := KeyText(key); t != "" && '/' !in t && t != "*" && !InBrackets(t)
    ensures key.Name? ==> KeyText(key) == key.text
    ensures key.Index? ==> AsInt(KeyText(key)) == Some(key.index)
  {
    match key
    case Index(n) =>
      NumberOfDecimal(n);
      var d := Decimal(n);
      assert Digit(d[0]) && forall i :: 0 <= i < |d| ==> Digit(d[i]);
    case Name(_) =>
  }

  lemma {:induction false} NonEmptyIs(parts: seq<string>)
    requires forall i :: 0 <= i < |parts| ==> parts[i] != ""
    ensures NonEmpty(parts) == parts
  {
    if parts != [] {
      NonEmptyIs(parts[1..]);
      assert [parts[0]] + parts[1..] == parts;
    }
  }

  lemma {:induction false} PresentIsFound(v: Value, keys: seq<Key>)
    requires Lookup(v, keys).Some? && forall i :: 0 <= i < |keys| ==> SlashKey(keys[i])
    ensures SlashLookup(v, KeyTexts(keys)) == Lookup(v, keys)
    decreases |keys|
  {
    hide SlashKey, KeyText, AsInt, InBrackets;
    if keys != [] {
      assert SlashKey(keys[0]);
      KeyTextMeans(keys[0]);
      assert KeyTexts(keys)[1..] == KeyTexts(keys[1..]);
      match keys[0]
      case Name(text) =>
        PresentIsFound(v.members[Find(v.members, text)].value, keys[1..]);
      case Index(n) =>
        PresentIsFound(v.items[n], keys[1..]);
    }
  }

  /** For every path of a value, looking its slash form up finds the subvalue there. */
  lemma SlashPathLookup(v: Value, keys: seq<Key>)
    requires Lookup(v, keys).Some? && forall i :: 0 <= i < |keys| ==> SlashKey(keys[i])
    ensures LocateSlash(v, SlashPath(keys)) == Lookup(v, keys)
  {
    hide SlashKey, KeyText, SlashLookup, Split, Join, NonEmpty, Lookup;
    PresentIsFound(v, keys);
    var texts := KeyTexts(keys);
    if keys == [] {
      assert texts == [];
      RootIsFound(v);
    } else {
      forall i | 0 <= i < |texts| ensures texts[i] != "" && '/' !in texts[i] {
        assert SlashKey(keys[i]);
        KeyTextMeans(keys[i]);
      }
      PartsLocated(v, texts);
    }
  }

  /** The path of some parts is taken apart into these. */
  lemma PartsLocated(v: Value, parts: seq<string>)
    requires forall i :: 0 <= i < |parts| ==> parts[i] != "" && '/' !in parts[i]
    ensures LocateSlash(v, "/" + Join(parts, '/')) == SlashLookup(v, parts)
  {
    hide SlashLookup, Split, Join, NonEmpty;
    var path := "/" + Join(parts, '/');
    assert path == "" + ['/'] + Join(parts, '/');
    SplitAt("", '/', Join(parts, '/'));
    if parts == [] {
      JoinNothing('/');
      SplitOne("", '/');
      assert [""] + [""] == ["", ""] && path == "/";
      NonEmptyFirst(["", ""]);
      NonEmptyFirst([""]);
      assert ["", ""][1..] == [""] && [""][1..] == [];
      NonEmptyIs(parts);
    } else {
      SplitJoin(parts, '/');
      NonEmptyIs(parts);
      NonEmptyFirst([""] + parts);
      assert ([""] + parts)[1..] == parts;
    }
  }

  lemma JoinNothing(sep: char)
    ensures Join([], sep) == ""
  {
  }

  lemma NonEmptyFirst(parts: seq<string>)
    requires parts != [] && parts[0] == ""
    ensures NonEmpty(parts) == NonEmpty(parts[1..])
  {
    assert [] + NonEmpty(parts[1..]) == NonEmpty(parts[1..]);
  }

  lemma RootIsFound(v: Value)
    ensures SlashLookup(v, []) == Some(v)
  {
  }

  // Wildcards.

  /** A step of a pattern: one key, or every item of an array, spelled `*`, `[*]` or `[]`. */
  datatype Step = To(key: Key) | Each(spelling: string)

  predicate ValidStep(s: Step) {
    match s
    case To(key) => SlashKey(key)
    case Each(spelling) => spelling == "*" || spelling == "[*]" || spelling == "[]"
  }

  function StepText(s: Step): string {
    match s
    case To(key) => KeyText(key)
    case Each(spelling) => spelling
  }

  function StepTexts(steps: seq<Step>): (r: seq<string>)
    ensures |r| == |steps| && forall i :: 0 <= i < |r| ==> r[i] == StepText(steps[i])
  {
    seq(|steps|, i requires 0 <= i < |steps| => StepText(steps[i]))
  }

  /** What a pattern finds: for every item of an array the value found there, in order, if each of them has one. */
  ghost predicate Finds(v: Value, steps: seq<Step>, found: Value)
    decreases |steps|
  {
    if steps == [] then found == v
    else
      match steps[0]
      case To(key) => Lookup(v, [key]).Some? && Finds(Lookup(v, [key]).value, steps[1..], found)
      case Each(_) =>
        && v.Arr? && found.Arr? && |found.items| == |v.items|
        && forall i :: 0 <= i < |v.items| ==> Finds(v.items[i], steps[1..], found.items[i])
  }

  /** Each item gives one value, or the whole gives none. */
  lemma {:induction false} EachIs(items: seq<Value>, parts: seq<string>)
    ensures var found := EachLookup(items, parts);
      if found.Some? then
        |found.value| == |items| && forall i :: 0 <= i < |items| ==>
          SlashLookup(items[i], parts) == Some(found.value[i])
      else exists i :: 0 <= i < |items| && SlashLookup(items[i], parts) == None
    decreases |items|
  {
    hide SlashLookup;
    if items != [] {
      EachIs(items[1..], parts);
      var rest := EachLookup(items[1..], parts);
      if SlashLookup(items[0], parts).Some? && rest.None? {
        var i :| 0 <= i < |items[1..]| && SlashLookup(items[1..][i], parts) == None;
        assert items[i + 1] == items[1..][i];
      }
      if SlashLookup(items[0], parts).Some? && rest.Some? {
        forall i | 0 < i < |items| ensures SlashLookup(items[i], parts) == Some(rest.value[i - 1]) {
          assert items[i] == items[1..][i - 1];
        }
      }
    }
  }

  lemma EachPart(spelling: string)
    requires ValidStep(Each(spelling))
    ensures spelling != "" && '/' !in spelling
    ensures var part := if InBrackets(spelling) then spelling[1..|spelling| - 1] else spelling;
      part == "*" || part == ""
  {
    assert "[*]"[1..2] == "*" && "[]"[1..1] == "";
  }

  lemma EachTurn(v: Value, parts: seq<string>)
    requires parts != [] && ValidStep(Each(parts[0])) && v.Arr?
    ensures SlashLookup(v, parts) == match EachLookup(v.items, parts[1..]) {
      case Some(values) => Some(Arr(values))
      case None => None
    }
  {
    EachPart(parts[0]);
  }

  lemma {:induction false} PatternFinds(v: Value, steps: seq<Step>, found: Value)
    requires Finds(v, steps, found) && forall i :: 0 <= i < |steps| ==> ValidStep(steps[i])
    ensures SlashLookup(v, StepTexts(steps)) == Some(found)
    decreases |steps|
  {
    hide SlashKey, KeyText, AsInt, InBrackets, EachLookup;
    if steps == [] {
      RootIsFound(v);
    } else {
      var rest := steps[1..];
      assert ValidStep(steps[0]);
      assert StepTexts(steps)[1..] == StepTexts(rest);
      match steps[0]
      case To(key) =>
        var below := Lookup(v, [key]).value;
        PatternFinds(below, rest, found);
        KeyTurn(v, key, StepTexts(steps));
      case Each(spelling) =>
        forall i | 0 <= i < |v.items| ensures SlashLookup(v.items[i], StepTexts(rest)) == Some(found.items[i]) {
          PatternFinds(v.items[i], rest, found.items[i]);
        }
        EachTurn(v, StepTexts(steps));
        EachIs(v.items, StepTexts(rest));
        hide SlashLookup;
        assert EachLookup(v.items, StepTexts(rest)).Some?;
        assert EachLookup(v.items, StepTexts(rest)).value == found.items;
    }
  }

  lemma KeyTurn(v: Value, key: Key, parts: seq<string>)
    requires parts != [] && SlashKey(key) && parts[0] == KeyText(key) && Lookup(v, [key]).Some?
    ensures SlashLookup(v, parts) == SlashLookup(Lookup(v, [key]).value, parts[1..])
  {
    KeyTextMeans(key);
    hide SlashKey, KeyText, AsInt, InBrackets, EachLookup;
    assert [key][1..] == [];
  }

  /** For a pattern with wildcards, looking its slash form up finds the values it stands for. */
  lemma SlashPatternLookup(v: Value, steps: seq<Step>, found: Value)
    requires Finds(v, steps, found) && steps != [] && forall i :: 0 <= i < |steps| ==> ValidStep(steps[i])
    ensures LocateSlash(v, "/" + Join(StepTexts(steps), '/')) == Some(found)
  {
    hide SlashKey, KeyText, SlashLookup, Split, Join, NonEmpty, Finds, InBrackets;
    PatternFinds(v, steps, found);
    var texts := StepTexts(steps);
    forall i | 0 <= i < |texts| ensures texts[i] != "" && '/' !in texts[i] {
      assert ValidStep(steps[i]);
      match steps[i] {
        case To(key) => KeyTextMeans(key);
        case Each(spelling) => EachPart(spelling);
      }
    }
    PartsLocated(v, texts);
  }

  /** A negative part counts from the end of an array, as Python does; one that is out of range finds nothing. */
  lemma NegativeIndex(items: seq<Value>, k: nat)
    requires k > 0
    ensures SlashLookup(Arr(items), ["-" + Decimal(k)]) == if k <= |items| then Some(items[|items| - k]) else None
  {
    NumberOfDecimal(k);
    var part, d := "-" + Decimal(k), Decimal(k);
    assert part[1..] == d && !Digit(part[0]) && part[0] != '[';
    assert Digits(d) by { assert forall i :: 0 <= i < |d| ==> Digit(d[i]); }
    assert [part][1..] == [];
    hide Number, Decimal, EachLookup;
    assert AsInt(part).Some? && AsInt(part).value + k == 0;
  }

  /** A plus sign changes nothing. */
  lemma PlusIndex(items: seq<Value>, k: nat)
    ensures SlashLookup(Arr(items), ["+" + Decimal(k)]) == if k < |items| then Some(items[k]) else None
  {
    NumberOfDecimal(k);
    var part, d := "+" + Decimal(k), Decimal(k);
    assert part[1..] == d && !Digit(part[0]) && part[0] != '[';
    assert Digits(d) by { assert forall i :: 0 <= i < |d| ==> Digit(d[i]); }
    assert [part][1..] == [];
    hide Number, Decimal, EachLookup;
    assert AsInt(part) == Some(k);
  }

  /** What does not start like a number, a bracket or a wildcard finds nothing in an array. */
  lemma NoIndex(items: seq<Value>, part: string)
    requires part != "" && part[0] !in "0123456789+-[*"
    ensures SlashLookup(Arr(items), [part]) == None
  {
    hide EachLookup, Number;
    assert part != "*" && !Digits(part) && !Digit(part[0]);
  }

  // A dot path that is converted to slashes first.

  /** The steps a path of keys stands for, wildcards included. */
  function StepsOf(keys: seq<Key>): (r: seq<Step>)
    ensures |r| == |keys|
  {
    if keys == [] then [] else [if keys[0] == Name("*") then Each("[*]") else To(keys[0])] + StepsOf(keys[1..])
  }

  lemma StepsFirst(keys: seq<Key>)
    requires keys != []
    ensures StepsOf(keys)[0] == (if keys[0] == Name("*") then Each("[*]") else To(keys[0]))
    ensures StepsOf(keys)[1..] == StepsOf(keys[1..])
    ensures Parts(keys)[0] == Part(keys[0]) && Parts(keys)[1..] == Parts(keys[1..])
  {
  }

  /** An index is looked up the same with or without its brackets. */
  lemma PartTurn(v: Value, key: Key, parts: seq<string>)
    requires parts != [] && Walkable(key) && key != Name("*") && parts[0] == Part(key) && Lookup(v, [key]).Some?
    ensures SlashLookup(v, parts) == SlashLookup(Lookup(v, [key]).value, parts[1..])
  {
    hide *;
    PartMeans(key);
    PartText(key);
    KeyTextMeans(key);
    if key.Index? {
      BracketsDropped(v, KeyText(key), parts);
      KeyTurn(v, key, [KeyText(key)] + parts[1..]);
      assert ([KeyText(key)] + parts[1..])[1..] == parts[1..];
    } else {
      KeyTurn(v, key, parts);
    }
  }

  lemma PartText(key: Key)
    requires Walkable(key) && key != Name("*")
    ensures SlashKey(key)
    ensures if key.Index? then Part(key) == "[" + KeyText(key) + "]" else Part(key) == KeyText(key)
  {
  }

  lemma BracketsDropped(v: Value, text: string, parts: seq<string>)
    requires parts != [] && parts[0] == "[" + text + "]" && !InBrackets(text)
    ensures SlashLookup(v, parts) == SlashLookup(v, [text] + parts[1..])
  {
    assert parts[0][1..|parts[0]| - 1] == text;
    assert ([text] + parts[1..])[1..] == parts[1..];
    hide EachLookup, AsInt;
  }

  lemma {:induction false} PartsFind(v: Value, keys: seq<Key>, found: Value)
    requires WalkableKeys(keys) && Finds(v, StepsOf(keys), found)
    ensures SlashLookup(v, Parts(keys)) == Some(found)
    decreases |keys|
  {
    hide SlashKey, KeyText, AsInt, InBrackets, EachLookup, SlashLookup, Walkable, Lookup;
    if keys == [] {
      RootIsFound(v);
    } else {
      var rest := keys[1..];
      assert Walkable(keys[0]);
      StepsFirst(keys);
      if keys[0] == Name("*") {
        forall i | 0 <= i < |v.items| ensures SlashLookup(v.items[i], Parts(rest)) == Some(found.items[i]) {
          PartsFind(v.items[i], rest, found.items[i]);
        }
        EachTurn(v, Parts(keys));
        EachIs(v.items, Parts(rest));
        assert EachLookup(v.items, Parts(rest)).Some?;
        assert EachLookup(v.items, Parts(rest)).value == found.items;
      } else {
        PartsFind(Lookup(v, [keys[0]]).value, rest, found);
        PartTurn(v, keys[0], Parts(keys));
      }
    }
  }

  /** A dot path, converted to slashes, still finds in a value what its keys stand for, wildcards included. */
  lemma ConvertedLookup(v: Value, keys: seq<Key>, found: Value)
    requires WalkableKeys(keys) && Finds(v, StepsOf(keys), found)
    ensures Bracketed(DotPath(keys)) && LocateSlash(v, Slashed(DotPath(keys))) == Some(found)
  {
    hide *;
    PartsFind(v, keys, found);
    TokensOfPath(keys);
    var parts := Parts(keys);
    forall i | 0 <= i < |parts| ensures parts[i] != "" && '/' !in parts[i] { PartsAreFree(keys); }
    SlashedMeans(DotPath(keys));
    JoinNothing('/');
    assert "/" + "" == "/";
    if keys == [] { PathOfNothing(); } else { FirstWalkable(keys); PathIsText(keys); }
    PartsLocated(v, parts);
  }

  lemma PathOfNothing()
    ensures DotPath([]) == "" && Parts([]) == []
  {
  }

  lemma FirstWalkable(keys: seq<Key>)
    requires keys != [] && WalkableKeys(keys)
    ensures Walkable(keys[0])
  {
  }
}
