/** What a consumer that appends the delta events of one path ends up with. */
module StreamingDeltas {
  import opened Chars
  import opened Json
  import opened Paths
  import opened Streaming

  /** The string at a place in a value; empty when there is none. */
  function TextAt(v: Value, keys: seq<Key>): string {
    match Lookup(v, keys)
    case Some(Str(text)) => text
    case _ => ""
  }

  /** The concatenation of the delta events of a path. */
  function DeltaText(events: seq<Event>, path: string): string {
    if events == [] then ""
    else (if events[0].Delta? && events[0].path == path then events[0].delta else "") + DeltaText(events[1..], path)
  }

  lemma {:induction false} DeltaTextJoin(a: seq<Event>, b: seq<Event>, path: string)
    ensures DeltaText(a + b, path) == DeltaText(a, path) + DeltaText(b, path)
  {
    hide *;
    DeltaTextFirst(a, path);
    if a == [] {
      assert a + b == b && "" + DeltaText(b, path) == DeltaText(b, path);
    } else {
      assert (a + b)[1..] == a[1..] + b;
      DeltaTextFirst(a + b, path);
      DeltaTextJoin(a[1..], b, path);
      var first := if a[0].Delta? && a[0].path == path then a[0].delta else "";
      assert first + (DeltaText(a[1..], path) + DeltaText(b, path))
        == first + DeltaText(a[1..], path) + DeltaText(b, path);
    }
  }

  lemma DeltaTextFirst(events: seq<Event>, path: string)
    ensures DeltaText(events, path) == if events == [] then ""
      else (if events[0].Delta? && events[0].path == path then events[0].delta else "") + DeltaText(events[1..], path)
  {
  }

  /** Deltas are all that counts. */
  lemma {:induction false} DeltaTextOfDeltas(events: seq<Event>, path: string)
    ensures DeltaText(Deltas(events), path) == DeltaText(events, path)
  {
    if events != [] {
      DeltaTextOfDeltas(events[1..], path);
      if events[0].Delta? {
        DeltaTextJoin([events[0]], Deltas(events[1..]), path);
        assert DeltaText([events[0]], path) == (if events[0].path == path then events[0].delta else "") + "";
      } else {
        assert [] + Deltas(events[1..]) == Deltas(events[1..]);
      }
    }
  }

  /** No object holds a key twice, as in a Python dictionary. */
  predicate Dictionaries(v: Value) {
    match v
    case Obj(members) =>
      && DistinctMembers(members)
      && forall i :: 0 <= i < |members| ==> Dictionaries(members[i].value)
    case Arr(items) => forall i :: 0 <= i < |items| ==> Dictionaries(items[i])
    case _ => true
  }

  lemma DictionaryMembers(members: seq<Member>)
    requires Dictionaries(Obj(members))
    ensures DistinctMembers(members)
  {
  }

  /** The path does not name any place in `v` (taken from `base` on). */
  ghost predicate Nowhere(v: Value, base: seq<Key>, path: string) {
    forall rel :: Lookup(v, rel).Some? ==> DotPath(base + rel) != path
  }

  /** The path names no place in `v` but `keys`. */
  ghost predicate OnlyAt(v: Value, base: seq<Key>, path: string, keys: seq<Key>) {
    forall rel :: Lookup(v, rel).Some? && DotPath(base + rel) == path ==> rel == keys
  }

  /** Every name in the value is carried by dot paths without loss. */
  predicate PlainNames(v: Value) {
    match v
    case Obj(members) => forall i :: 0 <= i < |members| ==> Plain(members[i].key) && PlainNames(members[i].value)
    case Arr(items) => forall i :: 0 <= i < |items| ==> PlainNames(items[i])
    case _ => true
  }

  lemma {:induction false} PlainPlaces(v: Value, keys: seq<Key>)
    requires PlainNames(v) && Lookup(v, keys).Some?
    ensures PlainKeys(keys)
    decreases |keys|
  {
    hide Plain;
    if keys != [] {
      match keys[0]
      case Name(text) => PlainPlaces(v.members[Find(v.members, text)].value, keys[1..]);
      case Index(i) => PlainPlaces(v.items[i], keys[1..]);
      assert keys == [keys[0]] + keys[1..];
    }
  }

  /** With plain names a dot path names at most one place. */
  lemma PlainNamesOnlyAt(v: Value, keys: seq<Key>)
    requires PlainNames(v) && PlainKeys(keys)
    ensures OnlyAt(v, [], DotPath(keys), keys)
  {
    hide Plain, DotPath, Lookup, PlainNames, PlainKeys;
    forall rel | Lookup(v, rel).Some? && DotPath([] + rel) == DotPath(keys) ensures rel == keys {
      assert [] + rel == rel;
      PlainPlaces(v, rel);
      DotPathInjective(rel, keys);
    }
  }

  lemma MemberNowhere(members: seq<Member>, j: nat, base: seq<Key>, path: string)
    requires Dictionaries(Obj(members)) && j < |members| && Nowhere(Obj(members), base, path)
    ensures Nowhere(members[j].value, base + [Name(members[j].key)], path)
  {
    DictionaryMembers(members);
    hide DotPath, Lookup, Dictionaries;
    var key := Name(members[j].key);
    forall rel | Lookup(members[j].value, rel).Some? ensures DotPath(base + [key] + rel) != path {
      LookupMember(members, j, rel);
      assert base + [key] + rel == base + ([key] + rel);
    }
  }

  lemma ItemNowhere(items: seq<Value>, j: nat, base: seq<Key>, path: string)
    requires j < |items| && Nowhere(Arr(items), base, path)
    ensures Nowhere(items[j], base + [Index(j)], path)
  {
    hide DotPath, Lookup;
    forall rel | Lookup(items[j], rel).Some? ensures DotPath(base + [Index(j)] + rel) != path {
      LookupItem(items, j, rel);
      assert base + [Index(j)] + rel == base + ([Index(j)] + rel);
    }
  }

  /** A value without the path emits no delta for it. */
  lemma {:induction false} NoDeltas(v: Value, previous: Value, base: seq<Key>, path: string)
    requires Dictionaries(v) && Nowhere(v, base, path)
    ensures DeltaText(DeltasOf(v, previous, base), path) == ""
    decreases v
  {
    match v
    case Obj(members) =>
      MembersNoDeltas(members, 0, MembersOf(previous), base, path);
      assert members[0..] == members;
    case Arr(items) =>
      ItemsNoDeltas(items, 0, ItemsOf(previous), base, path);
      assert items[0..] == items;
    case _ =>
      assert Lookup(v, []) == Some(v);
      assert base + [] == base;
  }

  lemma {:induction false} MembersNoDeltas(all: seq<Member>, j: nat, previous: seq<Member>, base: seq<Key>,
                                           path: string)
    requires Dictionaries(Obj(all)) && j <= |all| && Nowhere(Obj(all), base, path)
    ensures DeltaText(MemberDeltas(all[j..], previous, base), path) == ""
    decreases Obj(all), |all| - j
  {
    hide Nowhere, Dictionaries, DotPath, DeltasOf, Lookup;
    if j < |all| {
      MemberNowhere(all, j, base, path);
      PartsAreDictionaries(Obj(all), j);
      var first := DeltasOf(all[j].value, MemberOrNull(previous, all[j].key), base + [Name(all[j].key)]);
      NoDeltas(all[j].value, MemberOrNull(previous, all[j].key), base + [Name(all[j].key)], path);
      assert all[j..][1..] == all[j + 1..];
      MembersNoDeltas(all, j + 1, previous, base, path);
      DeltaTextJoin(first, MemberDeltas(all[j + 1..], previous, base), path);
    }
  }

  lemma PartsAreDictionaries(v: Value, j: nat)
    requires Dictionaries(v)
    ensures v.Obj? && j < |v.members| ==> Dictionaries(v.members[j].value)
    ensures v.Arr? && j < |v.items| ==> Dictionaries(v.items[j])
  {
  }

  lemma {:induction false} ItemsNoDeltas(all: seq<Value>, j: nat, previous: seq<Value>, base: seq<Key>, path: string)
    requires Dictionaries(Arr(all)) && j <= |all| && Nowhere(Arr(all), base, path)
    ensures DeltaText(ItemDeltas(all[j..], previous, base, j), path) == ""
    decreases Arr(all), |all| - j
  {
    hide Nowhere, Dictionaries, DotPath, DeltasOf, Lookup;
    if j < |all| {
      ItemNowhere(all, j, base, path);
      PartsAreDictionaries(Arr(all), j);
      NoDeltas(all[j], ItemOrNull(previous, j), base + [Index(j)], path);
      assert all[j..][1..] == all[j + 1..];
      ItemsNoDeltas(all, j + 1, previous, base, path);
      DeltaTextJoin(DeltasOf(all[j], ItemOrNull(previous, j), base + [Index(j)]),
        ItemDeltas(all[j + 1..], previous, base, j + 1), path);
    }
  }

  /** The part on the way to `keys` has the path there only, any other part nowhere. */
  lemma MemberOnlyAt(members: seq<Member>, j: nat, base: seq<Key>, path: string, keys: seq<Key>)
    requires Dictionaries(Obj(members)) && j < |members| && OnlyAt(Obj(members), base, path, keys)
    ensures keys != [] && keys[0] == Name(members[j].key) ==>
      OnlyAt(members[j].value, base + [keys[0]], path, keys[1..])
    ensures keys == [] || keys[0] != Name(members[j].key) ==>
      Nowhere(members[j].value, base + [Name(members[j].key)], path)
  {
    DictionaryMembers(members);
    hide DotPath, Lookup, Dictionaries;
    var key := Name(members[j].key);
    forall rel | Lookup(members[j].value, rel).Some? && DotPath(base + [key] + rel) == path
      ensures [key] + rel == keys {
      LookupMember(members, j, rel);
      assert base + [key] + rel == base + ([key] + rel);
    }
  }

  lemma ItemOnlyAt(items: seq<Value>, j: nat, base: seq<Key>, path: string, keys: seq<Key>)
    requires j < |items| && OnlyAt(Arr(items), base, path, keys)
    ensures keys != [] && keys[0] == Index(j) ==> OnlyAt(items[j], base + [keys[0]], path, keys[1..])
    ensures keys == [] || keys[0] != Index(j) ==> Nowhere(items[j], base + [Index(j)], path)
  {
    hide DotPath, Lookup;
    forall rel | Lookup(items[j], rel).Some? && DotPath(base + [Index(j)] + rel) == path
      ensures [Index(j)] + rel == keys {
      LookupItem(items, j, rel);
      assert base + [Index(j)] + rel == base + ([Index(j)] + rel);
    }
  }

  /** Walking one step down, the previous value walks along. */
  lemma PreviousMember(previous: Value, key: string, below: seq<Key>)
    ensures TextAt(MemberOrNull(MembersOf(previous), key), below) == TextAt(previous, [Name(key)] + below)
  {
    assert ([Name(key)] + below)[1..] == below;
  }

  lemma PreviousItem(previous: Value, index: nat, below: seq<Key>)
    ensures TextAt(ItemOrNull(ItemsOf(previous), index), below) == TextAt(previous, [Index(index)] + below)
  {
    assert ([Index(index)] + below)[1..] == below;
  }

  /** A string, or nothing, stands at `keys`. */
  predicate TextOrNothing(v: Value, keys: seq<Key>) {
    match Lookup(v, keys)
    case None => true
    case Some(found) => found.Str?
  }

  /** One comparison emits, for a path that names one place, exactly the delta between the two strings there. */
  lemma {:induction false} DeltaAt(v: Value, previous: Value, base: seq<Key>, keys: seq<Key>)
    requires Dictionaries(v) && OnlyAt(v, base, DotPath(base + keys), keys) && TextOrNothing(v, keys)
    ensures DeltaText(DeltasOf(v, previous, base), DotPath(base + keys))
      == StringDelta(TextAt(v, keys), TextAt(previous, keys))
              || (Lookup(v, keys).None? && DeltaText(DeltasOf(v, previous, base), DotPath(base + keys)) == "")
    decreases v
  {
    hide *;
    var path := DotPath(base + keys);
    if Lookup(v, keys).None? {
      NowhereElse(v, base, path, keys);
      NoDeltas(v, previous, base, path);
    } else if keys == [] {
      DeltaHere(v, previous, base);
      assert base + [] == base;
    } else {
      StepDown(v, previous, base, keys);
      match v
      case Obj(members) => MembersDeltaAt(members, 0, Find(members, keys[0].text), previous, base, keys);
      case Arr(items) => ItemsDeltaAt(items, 0, keys[0].index, previous, base, keys);
    }
  }

  lemma DeltaHere(v: Value, previous: Value, base: seq<Key>)
    requires TextOrNothing(v, [])
    ensures DeltaText(DeltasOf(v, previous, base), DotPath(base)) == StringDelta(TextAt(v, []), TextAt(previous, []))
  {
    hide DotPath;
  }

  /** The first step of a path that leads somewhere, seen from both values. */
  lemma StepDown(v: Value, previous: Value, base: seq<Key>, keys: seq<Key>)
    requires Dictionaries(v) && TextOrNothing(v, keys) && Lookup(v, keys).Some? && keys != []
    ensures v.Obj? || v.Arr?
    ensures v.Obj? ==>
      var members := v.members;
      && keys[0].Name? && var k := Find(members, keys[0].text);
      && k < |members| && members[k].key == keys[0].text
      && Lookup(members[k].value, keys[1..]).Some? && TextOrNothing(members[k].value, keys[1..])
      && TextAt(v, keys) == TextAt(members[k].value, keys[1..])
      && TextAt(previous, keys) == TextAt(MemberOrNull(MembersOf(previous), members[k].key), keys[1..])
      && DeltasOf(v, previous, base) == MemberDeltas(members[0..], MembersOf(previous), base)
    ensures v.Arr? ==>
      && keys[0].Index? && keys[0].index < |v.items|
      && Lookup(v.items[keys[0].index], keys[1..]).Some? && TextOrNothing(v.items[keys[0].index], keys[1..])
      && TextAt(v, keys) == TextAt(v.items[keys[0].index], keys[1..])
      && TextAt(previous, keys) == TextAt(ItemOrNull(ItemsOf(previous), keys[0].index), keys[1..])
      && DeltasOf(v, previous, base) == ItemDeltas(v.items[0..], ItemsOf(previous), base, 0)
  {
    hide DotPath, Dictionaries, StringDelta;
    var below := keys[1..];
    assert keys == [keys[0]] + below;
    match v
    case Obj(members) =>
      DictionaryMembers(members);
      LookupMember(members, Find(members, keys[0].text), below);
      PreviousMember(previous, keys[0].text, below);
      assert members[0..] == members;
    case Arr(items) =>
      LookupItem(items, keys[0].index, below);
      PreviousItem(previous, keys[0].index, below);
      assert items[0..] == items;
  }

  lemma NowhereElse(v: Value, base: seq<Key>, path: string, keys: seq<Key>)
    requires OnlyAt(v, base, path, keys) && Lookup(v, keys).None?
    ensures Nowhere(v, base, path)
  {
  }

  lemma {:induction false} MembersDeltaAt(all: seq<Member>, j: nat, k: nat, previous: Value, base: seq<Key>,
                                          keys: seq<Key>)
    requires Dictionaries(Obj(all)) && j <= |all| && k < |all| && keys != [] && keys[0] == Name(all[k].key)
    requires OnlyAt(Obj(all), base, DotPath(base + keys), keys)
    requires Lookup(all[k].value, keys[1..]).Some? && TextOrNothing(all[k].value, keys[1..])
    ensures DeltaText(MemberDeltas(all[j..], MembersOf(previous), base), DotPath(base + keys)) ==
              var had := MemberOrNull(MembersOf(previous), all[k].key);
              if j <= k then StringDelta(TextAt(all[k].value, keys[1..]), TextAt(had, keys[1..])) else ""
    decreases Obj(all), |all| - j
  {
    hide DotPath, Lookup, DeltasOf, OnlyAt, Nowhere, TextAt, TextOrNothing, StringDelta, Dictionaries, MemberOrNull;
    var path := DotPath(base + keys);
    if j < |all| {
      var at := base + [Name(all[j].key)];
      var first := DeltasOf(all[j].value, MemberOrNull(MembersOf(previous), all[j].key), at);
      assert all[j..][1..] == all[j + 1..];
      MembersDeltaAt(all, j + 1, k, previous, base, keys);
      DeltaTextJoin(first, MemberDeltas(all[j + 1..], MembersOf(previous), base), path);
      MemberOnlyAt(all, j, base, path, keys);
      PartsAreDictionaries(Obj(all), j);
      if j == k {
        assert at + keys[1..] == base + keys;
        DeltaAt(all[j].value, MemberOrNull(MembersOf(previous), all[j].key), at, keys[1..]);
      } else {
        DifferentKeys(all, j, k);
        NoDeltas(all[j].value, MemberOrNull(MembersOf(previous), all[j].key), at, path);
      }
    }
  }

  lemma DifferentKeys(all: seq<Member>, j: nat, k: nat)
    requires Dictionaries(Obj(all)) && j < |all| && k < |all| && j != k
    ensures all[j].key != all[k].key
  {
  }

  lemma NoDeltaText(path: string)
    ensures DeltaText([], path) == ""
  {
  }

  lemma {:induction false} ItemsDeltaAt(all: seq<Value>, j: nat, k: nat, previous: Value, base: seq<Key>,
                                        keys: seq<Key>)
    requires Dictionaries(Arr(all)) && j <= |all| && k < |all| && keys != [] && keys[0] == Index(k)
    requires OnlyAt(Arr(all), base, DotPath(base + keys), keys)
    requires Lookup(all[k], keys[1..]).Some? && TextOrNothing(all[k], keys[1..])
    ensures DeltaText(ItemDeltas(all[j..], ItemsOf(previous), base, j), DotPath(base + keys)) ==
              var had := ItemOrNull(ItemsOf(previous), k);
              if j <= k then StringDelta(TextAt(all[k], keys[1..]), TextAt(had, keys[1..])) else ""
    decreases Arr(all), |all| - j
  {
    hide *;
    var path := DotPath(base + keys);
    ItemDeltasFirst(all[j..], ItemsOf(previous), base, j);
    NoDeltaText(path);
    if j < |all| {
      var at := base + [Index(j)];
      var first := DeltasOf(all[j], ItemOrNull(ItemsOf(previous), j), at);
      assert all[j..][1..] == all[j + 1..];
      ItemsDeltaAt(all, j + 1, k, previous, base, keys);
      DeltaTextJoin(first, ItemDeltas(all[j + 1..], ItemsOf(previous), base, j + 1), path);
      ItemOnlyAt(all, j, base, path, keys);
      PartsAreDictionaries(Arr(all), j);
      if j == k {
        assert at + keys[1..] == base + keys;
        DeltaAt(all[j], ItemOrNull(ItemsOf(previous), j), at, keys[1..]);
      } else {
        NoDeltas(all[j], ItemOrNull(ItemsOf(previous), j), at, path);
      }
    }
  }

  /** The path stands for `keys` in every value of the run, and holds a string or nothing there. */
  ghost predicate Tracks(compared: seq<(Value, Value)>, keys: seq<Key>) {
    forall pair :: pair in compared ==>
      Dictionaries(pair.1) && OnlyAt(pair.1, [], DotPath(keys), keys) && TextOrNothing(pair.1, keys)
  }

  /** Each string extends the one before it, and none that was there goes away. */
  ghost predicate Extends(compared: seq<(Value, Value)>, keys: seq<Key>) {
    forall pair :: pair in compared ==> TextAt(pair.0, keys) <= TextAt(pair.1, keys)
  }

  /** How one comparison changes the text a consumer has and the text it should have. */
  lemma OneComparison(older: Value, newer: Value, keys: seq<Key>)
    requires Dictionaries(newer) && OnlyAt(newer, [], DotPath(keys), keys) && TextOrNothing(newer, keys)
    ensures var delta := DeltaText(DeltasOf(newer, older, []), DotPath(keys));
            var before, after := TextAt(older, keys), TextAt(newer, keys);
            if before <= after then before + delta == after else |before| + |delta| > |after|
  {
    hide DotPath, Lookup, DeltasOf, OnlyAt, Dictionaries;
    assert [] + keys == keys;
    DeltaAt(newer, older, [], keys);
  }

  /**
    Deltas rebuild the value, exactly when every comparison extended the text: then the concatenated deltas
    are the current text, and otherwise they have become longer than it for good.
   */
  lemma {:induction false} DeltasRebuild(first: Value, compared: seq<(Value, Value)>, keys: seq<Key>)
    requires Chained(first, compared) && Tracks(compared, keys) && TextAt(first, keys) == ""
    ensures var rebuilt, text := DeltaText(AllDeltas(compared), DotPath(keys)), TextAt(LastOf(first, compared), keys);
            if Extends(compared, keys) then rebuilt == text else |rebuilt| > |text|
    decreases |compared|
  {
    hide DotPath, TextAt, DeltasOf, OnlyAt, Dictionaries, TextOrNothing;
    if compared != [] {
      var before, last := compared[..|compared| - 1], compared[|compared| - 1];
      assert compared == before + [last];
      DeltasRebuild(first, before, keys);
      OneComparison(last.0, last.1, keys);
      DeltaTextJoin(AllDeltas(before), DeltasOf(last.1, last.0, []), DotPath(keys));
      if Extends(before, keys) && TextAt(last.0, keys) <= TextAt(last.1, keys) { assert Extends(compared, keys); }
    }
  }

  /** The same for the whole event list of a stream on a new parser. */
  lemma StreamDeltasRebuild(events: seq<Event>, compared: seq<(Value, Value)>, keys: seq<Key>)
    requires Deltas(events) == AllDeltas(compared) && Chained(Obj([]), compared) && Tracks(compared, keys)
    ensures var rebuilt, text := DeltaText(events, DotPath(keys)), TextAt(LastOf(Obj([]), compared), keys);
            if Extends(compared, keys) then rebuilt == text else |rebuilt| > |text|
  {
    hide DotPath, Tracks, Extends;
    DeltaTextOfDeltas(events, DotPath(keys));
    DeltasRebuild(Obj([]), compared, keys);
  }
}
