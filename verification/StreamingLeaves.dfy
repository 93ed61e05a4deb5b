/**
  What one comparison emits as deltas, leaf by leaf: in the order of the document, each leaf that differs from
  what stood there before has one delta, and nothing else has any (agently/utils/StreamingJSONParser.py:544-656).
 */
module StreamingLeaves {
  import opened Json
  import opened Streaming
  import opened StreamingDeltas

  predicate Leaf(v: Value) { !v.Obj? && !v.Arr? }

  /** The places of the leaves, in the order of the document. */
  function Leaves(v: Value): seq<seq<Key>>
    decreases v
  {
    match v
    case Obj(members) => MemberLeaves(members)
    case Arr(items) => ItemLeaves(items, 0)
    case _ => [[]]
  }

  function MemberLeaves(members: seq<Member>): seq<seq<Key>>
    decreases members
  {
    if members == [] then []
    else Under(Name(members[0].key), Leaves(members[0].value)) + MemberLeaves(members[1..])
  }

  function ItemLeaves(items: seq<Value>, index: nat): seq<seq<Key>>
    decreases items
  {
    if items == [] then [] else Under(Index(index), Leaves(items[0])) + ItemLeaves(items[1..], index + 1)
  }

  function Under(key: Key, places: seq<seq<Key>>): (r: seq<seq<Key>>)
    ensures |r| == |places| && forall i :: 0 <= i < |r| ==> r[i] == [key] + places[i]
  {
    seq(|places|, i requires 0 <= i < |places| => [key] + places[i])
  }

  /** What stands at a place; null, as Python's None, when there is none. */
  function ValueAt(v: Value, keys: seq<Key>): Value {
    match Lookup(v, keys)
    case Some(found) => found
    case None => NULL
  }

  /** The delta of one leaf against what stood there before: none, or one with the leaf as its value. */
  function LeafEvents(path: string, leaf: Value, older: Value): seq<Event> {
    if leaf == older || leaf == NULL || leaf == Str("") then []
    else
      match leaf
      case Str(text) =>
        if older.Str? && older.text <= text then [Delta(path, leaf, text[|older.text|..])]
        else [Delta(path, leaf, text)]
      case Num(lexeme) => [Delta(path, leaf, lexeme)]
      case Word(lexeme) => [Delta(path, leaf, lexeme)]
      case _ => []
  }

  /** The deltas of some leaves of `v`, taken from `base` on. */
  function Emits(places: seq<seq<Key>>, v: Value, previous: Value, base: seq<Key>): seq<Event> {
    if places == [] then []
    else
      LeafEvents(DotPath(base + places[0]), ValueAt(v, places[0]), ValueAt(previous, places[0]))
        + Emits(places[1..], v, previous, base)
  }

  lemma {:induction false} EmitsJoin(a: seq<seq<Key>>, b: seq<seq<Key>>, v: Value, previous: Value, base: seq<Key>)
    ensures Emits(a + b, v, previous, base) == Emits(a, v, previous, base) + Emits(b, v, previous, base)
    decreases |a|
  {
    hide LeafEvents, ValueAt, DotPath;
    if a == [] {
      assert a + b == b;
    } else {
      assert (a + b)[0] == a[0] && (a + b)[1..] == a[1..] + b;
      EmitsJoin(a[1..], b, v, previous, base);
      var first := LeafEvents(DotPath(base + a[0]), ValueAt(v, a[0]), ValueAt(previous, a[0]));
      assert first + (Emits(a[1..], v, previous, base) + Emits(b, v, previous, base))
        == first + Emits(a[1..], v, previous, base) + Emits(b, v, previous, base);
    }
  }

  /** The leaves of a part, seen from the whole. */
  lemma {:induction false} EmitsUnder(key: Key, places: seq<seq<Key>>, part: Value, v: Value, partBefore: Value,
                                      previous: Value, base: seq<Key>)
    requires forall rel :: ValueAt(v, [key] + rel) == ValueAt(part, rel)
    requires forall rel :: ValueAt(previous, [key] + rel) == ValueAt(partBefore, rel)
    ensures Emits(Under(key, places), v, previous, base) == Emits(places, part, partBefore, base + [key])
    decreases |places|
  {
    hide LeafEvents, ValueAt, DotPath;
    if places != [] {
      var below := places[0];
      assert Under(key, places)[0] == [key] + below && Under(key, places)[1..] == Under(key, places[1..]);
      assert base + ([key] + below) == base + [key] + below;
      EmitsUnder(key, places[1..], part, v, partBefore, previous, base);
    }
  }

  lemma MemberSeen(members: seq<Member>, j: nat, previous: Value, rel: seq<Key>)
    requires Dictionaries(Obj(members)) && j < |members|
    ensures ValueAt(Obj(members), [Name(members[j].key)] + rel) == ValueAt(members[j].value, rel)
    ensures ValueAt(previous, [Name(members[j].key)] + rel)
         == ValueAt(MemberOrNull(MembersOf(previous), members[j].key), rel)
  {
    DictionaryMembers(members);
    LookupMember(members, j, rel);
    assert ([Name(members[j].key)] + rel)[1..] == rel;
  }

  lemma ItemSeen(items: seq<Value>, j: nat, previous: Value, rel: seq<Key>)
    requires j < |items|
    ensures ValueAt(Arr(items), [Index(j)] + rel) == ValueAt(items[j], rel)
    ensures ValueAt(previous, [Index(j)] + rel) == ValueAt(ItemOrNull(ItemsOf(previous), j), rel)
  {
    LookupItem(items, j, rel);
    assert ([Index(j)] + rel)[1..] == rel;
  }

  lemma LeafAlone(v: Value, previous: Value, base: seq<Key>)
    requires Leaf(v)
    ensures DeltasOf(v, previous, base) == LeafEvents(DotPath(base), v, previous)
  {
    hide DotPath;
  }

  /** One comparison, leaf by leaf. */
  lemma {:induction false} DeltasLeafByLeaf(v: Value, previous: Value, base: seq<Key>)
    requires Dictionaries(v)
    ensures DeltasOf(v, previous, base) == Emits(Leaves(v), v, previous, base)
    decreases v
  {
    hide DotPath, LeafEvents, Dictionaries, Lookup, MemberDeltas, ItemDeltas;
    match v
    case Obj(members) =>
      MembersLeafByLeaf(members, 0, previous, base);
      assert members[0..] == members;
    case Arr(items) =>
      ItemsLeafByLeaf(items, 0, previous, base);
      assert items[0..] == items;
    case _ =>
      LeafAlone(v, previous, base);
      StandsHere(v, previous);
      OneLeaf(v, previous, base);
  }

  lemma OneLeaf(v: Value, previous: Value, base: seq<Key>)
    ensures Emits([[]], v, previous, base) == LeafEvents(DotPath(base), ValueAt(v, []), ValueAt(previous, []))
  {
    hide LeafEvents, ValueAt, DotPath;
    var places: seq<seq<Key>> := [[]];
    assert places[1..] == [] && base + [] == base && Emits([], v, previous, base) == [];
  }

  lemma StandsHere(v: Value, previous: Value)
    ensures ValueAt(v, []) == v && ValueAt(previous, []) == previous
  {
  }

  lemma {:induction false} MembersLeafByLeaf(all: seq<Member>, j: nat, previous: Value, base: seq<Key>)
    requires Dictionaries(Obj(all)) && j <= |all|
    ensures MemberDeltas(all[j..], MembersOf(previous), base) == Emits(MemberLeaves(all[j..]), Obj(all), previous, base)
    decreases Obj(all), |all| - j
  {
    hide DotPath, LeafEvents, Dictionaries, Lookup, DeltasOf, ValueAt, Leaves;
    if j < |all| {
      var key, part := Name(all[j].key), all[j].value;
      var partBefore := MemberOrNull(MembersOf(previous), all[j].key);
      assert all[j..][0] == all[j] && all[j..][1..] == all[j + 1..];
      PartsAreDictionaries(Obj(all), j);
      DeltasLeafByLeaf(part, partBefore, base + [key]);
      forall rel
        ensures ValueAt(Obj(all), [key] + rel) == ValueAt(part, rel)
        ensures ValueAt(previous, [key] + rel) == ValueAt(partBefore, rel)
      {
        MemberSeen(all, j, previous, rel);
      }
      EmitsUnder(key, Leaves(part), part, Obj(all), partBefore, previous, base);
      MembersLeafByLeaf(all, j + 1, previous, base);
      EmitsJoin(Under(key, Leaves(part)), MemberLeaves(all[j + 1..]), Obj(all), previous, base);
    }
  }

  lemma {:induction false} ItemsLeafByLeaf(all: seq<Value>, j: nat, previous: Value, base: seq<Key>)
    requires Dictionaries(Arr(all)) && j <= |all|
    ensures ItemDeltas(all[j..], ItemsOf(previous), base, j) == Emits(ItemLeaves(all[j..], j), Arr(all), previous, base)
    decreases Arr(all), |all| - j
  {
    hide DotPath, LeafEvents, Dictionaries, Lookup, DeltasOf, ValueAt, Leaves;
    if j < |all| {
      var partBefore := ItemOrNull(ItemsOf(previous), j);
      assert all[j..][0] == all[j] && all[j..][1..] == all[j + 1..];
      PartsAreDictionaries(Arr(all), j);
      DeltasLeafByLeaf(all[j], partBefore, base + [Index(j)]);
      forall rel
        ensures ValueAt(Arr(all), [Index(j)] + rel) == ValueAt(all[j], rel)
        ensures ValueAt(previous, [Index(j)] + rel) == ValueAt(partBefore, rel)
      {
        ItemSeen(all, j, previous, rel);
      }
      EmitsUnder(Index(j), Leaves(all[j]), all[j], Arr(all), partBefore, previous, base);
      ItemsLeafByLeaf(all, j + 1, previous, base);
      EmitsJoin(Under(Index(j), Leaves(all[j])), ItemLeaves(all[j + 1..], j + 1), Arr(all), previous, base);
    }
  }

  // The leaves are the leaves: each once.

  lemma {:induction false} LeavesAreLeaves(v: Value, keys: seq<Key>)
    requires Dictionaries(v)
    ensures keys in Leaves(v) <==> Lookup(v, keys).Some? && Leaf(Lookup(v, keys).value)
    decreases v
  {
    hide Dictionaries;
    match v
    case Obj(members) =>
      DictionaryMembers(members);
      MemberLeavesAre(members, 0, keys);
      assert members[0..] == members;
      if keys != [] && keys[0].Name? && Find(members, keys[0].text) < |members| {
        var k := Find(members, keys[0].text);
        PartsAreDictionaries(v, k);
        LeavesAreLeaves(members[k].value, keys[1..]);
      }
    case Arr(items) =>
      ItemLeavesAre(items, 0, keys);
      if keys != [] && keys[0].Index? && keys[0].index < |items| {
        PartsAreDictionaries(v, keys[0].index);
        LeavesAreLeaves(items[keys[0].index], keys[1..]);
      }
    case _ =>
  }

  lemma InUnder(key: Key, places: seq<seq<Key>>, keys: seq<Key>)
    ensures keys in Under(key, places) <==> keys != [] && keys[0] == key && keys[1..] in places
  {
    if keys != [] && keys[0] == key && keys[1..] in places {
      var i :| 0 <= i < |places| && places[i] == keys[1..];
      assert Under(key, places)[i] == [key] + keys[1..] == keys;
    }
    if keys in Under(key, places) {
      var i :| 0 <= i < |places| && Under(key, places)[i] == keys;
      assert keys[1..] == places[i];
    }
  }

  lemma {:induction false} MemberLeavesAre(all: seq<Member>, j: nat, keys: seq<Key>)
    requires DistinctMembers(all) && j <= |all|
    ensures keys in MemberLeaves(all[j..]) <==>
      && keys != [] && keys[0].Name? && j <= Find(all, keys[0].text) < |all|
      && keys[1..] in Leaves(all[Find(all, keys[0].text)].value)
    decreases |all| - j
  {
    hide Leaves;
    if j < |all| {
      var key := Name(all[j].key);
      assert all[j..][0] == all[j] && all[j..][1..] == all[j + 1..];
      InUnder(key, Leaves(all[j].value), keys);
      MemberLeavesAre(all, j + 1, keys);
      assert Find(all, all[j].key) == j;
    }
  }

  lemma {:induction false} ItemLeavesAre(all: seq<Value>, j: nat, keys: seq<Key>)
    requires j <= |all|
    ensures keys in ItemLeaves(all[j..], j) <==>
      keys != [] && keys[0].Index? && j <= keys[0].index < |all| && keys[1..] in Leaves(all[keys[0].index])
    decreases |all| - j
  {
    hide Leaves;
    if j < |all| {
      assert all[j..][0] == all[j] && all[j..][1..] == all[j + 1..];
      InUnder(Index(j), Leaves(all[j]), keys);
      ItemLeavesAre(all, j + 1, keys);
    }
  }

  ghost predicate Distinct(places: seq<seq<Key>>) { forall i, j :: 0 <= i < j < |places| ==> places[i] != places[j] }

  lemma DistinctJoin(a: seq<seq<Key>>, b: seq<seq<Key>>)
    requires Distinct(a) && Distinct(b) && forall x :: x in a ==> x !in b
    ensures Distinct(a + b)
  {
    forall i, j | 0 <= i < j < |a + b| ensures (a + b)[i] != (a + b)[j] {
      if i < |a| <= j { assert a[i] in a && b[j - |a|] in b; }
    }
  }

  lemma DistinctUnder(key: Key, places: seq<seq<Key>>)
    requires Distinct(places)
    ensures Distinct(Under(key, places))
  {
    var r := Under(key, places);
    forall i, j | 0 <= i < j < |r| ensures r[i] != r[j] { assert r[i][1..] == places[i] && r[j][1..] == places[j]; }
  }

  lemma {:induction false} LeavesDistinct(v: Value)
    requires Dictionaries(v)
    ensures Distinct(Leaves(v))
    decreases v
  {
    hide Dictionaries, Distinct;
    match v
    case Obj(members) =>
      MemberLeavesDistinct(members, 0);
      assert members[0..] == members;
    case Arr(items) => ItemLeavesDistinct(items, 0);
    case _ => OneIsDistinct();
  }

  lemma OneIsDistinct()
    ensures Distinct([[]]) && Distinct([])
  {
  }

  lemma {:induction false} MemberLeavesDistinct(all: seq<Member>, j: nat)
    requires Dictionaries(Obj(all)) && j <= |all|
    ensures Distinct(MemberLeaves(all[j..]))
    decreases Obj(all), |all| - j
  {
    hide Dictionaries, Distinct, Leaves;
    OneIsDistinct();
    if j < |all| {
      var key := Name(all[j].key);
      assert all[j..][0] == all[j] && all[j..][1..] == all[j + 1..];
      DictionaryMembers(all);
      PartsAreDictionaries(Obj(all), j);
      LeavesDistinct(all[j].value);
      DistinctUnder(key, Leaves(all[j].value));
      MemberLeavesDistinct(all, j + 1);
      forall x | x in Under(key, Leaves(all[j].value)) ensures x !in MemberLeaves(all[j + 1..]) {
        InUnder(key, Leaves(all[j].value), x);
        MemberLeavesAre(all, j + 1, x);
        assert Find(all, all[j].key) == j;
      }
      DistinctJoin(Under(key, Leaves(all[j].value)), MemberLeaves(all[j + 1..]));
    }
  }

  lemma {:induction false} ItemLeavesDistinct(all: seq<Value>, j: nat)
    requires Dictionaries(Arr(all)) && j <= |all|
    ensures Distinct(ItemLeaves(all[j..], j))
    decreases Arr(all), |all| - j
  {
    hide Dictionaries, Distinct, Leaves;
    OneIsDistinct();
    if j < |all| {
      assert all[j..][0] == all[j] && all[j..][1..] == all[j + 1..];
      PartsAreDictionaries(Arr(all), j);
      LeavesDistinct(all[j]);
      DistinctUnder(Index(j), Leaves(all[j]));
      ItemLeavesDistinct(all, j + 1);
      forall x | x in Under(Index(j), Leaves(all[j])) ensures x !in ItemLeaves(all[j + 1..], j + 1) {
        InUnder(Index(j), Leaves(all[j]), x);
        ItemLeavesAre(all, j + 1, x);
      }
      DistinctJoin(Under(Index(j), Leaves(all[j])), ItemLeaves(all[j + 1..], j + 1));
    }
  }

  // The deltas of one path.

  function DeltasFor(events: seq<Event>, path: string): seq<Event> {
    if events == [] then []
    else (if events[0].Delta? && events[0].path == path then [events[0]] else []) + DeltasFor(events[1..], path)
  }

  lemma {:induction false} DeltasForJoin(a: seq<Event>, b: seq<Event>, path: string)
    ensures DeltasFor(a + b, path) == DeltasFor(a, path) + DeltasFor(b, path)
    decreases |a|
  {
    if a == [] {
      assert a + b == b;
    } else {
      assert (a + b)[0] == a[0] && (a + b)[1..] == a[1..] + b;
      DeltasForJoin(a[1..], b, path);
    }
  }

  lemma {:induction false} DeltasForDeltas(events: seq<Event>, path: string)
    ensures DeltasFor(Deltas(events), path) == DeltasFor(events, path)
    decreases |events|
  {
    if events != [] {
      DeltasForDeltas(events[1..], path);
      if events[0].Delta? {
        DeltasForJoin([events[0]], Deltas(events[1..]), path);
        assert DeltasFor([events[0]], path) == if events[0].path == path then [events[0]] else [];
      } else {
        assert Deltas(events) == Deltas(events[1..]) && DeltasFor(events, path) == DeltasFor(events[1..], path);
      }
    }
  }

  lemma LeafEventsFor(path: string, leaf: Value, older: Value, other: string)
    ensures DeltasFor(LeafEvents(path, leaf, older), other)
         == if path == other then LeafEvents(path, leaf, older) else []
  {
  }

  lemma {:induction false} EmitsFor(places: seq<seq<Key>>, v: Value, previous: Value, path: string, keys: seq<Key>)
    requires Distinct(places) && path == DotPath(keys)
    requires forall i :: 0 <= i < |places| && DotPath(places[i]) == path ==> places[i] == keys
    ensures DeltasFor(Emits(places, v, previous, []), path)
         == if keys in places then LeafEvents(path, ValueAt(v, keys), ValueAt(previous, keys)) else []
    decreases |places|
  {
    hide *;
    if places == [] {
      NoEmits(v, previous, path);
    } else {
      var first, rest := places[0], places[1..];
      var own := LeafEvents(DotPath(first), ValueAt(v, first), ValueAt(previous, first));
      EmitsFirst(places, v, previous);
      DistinctRest(places);
      assert forall i :: 0 <= i < |rest| ==> rest[i] == places[i + 1];
      EmitsFor(rest, v, previous, path, keys);
      LeafEventsFor(DotPath(first), ValueAt(v, first), ValueAt(previous, first), path);
      DeltasForJoin(own, Emits(rest, v, previous, []), path);
      assert [first] + rest == places;
    }
  }

  lemma NoEmits(v: Value, previous: Value, path: string)
    ensures DeltasFor(Emits([], v, previous, []), path) == []
  {
  }

  lemma EmitsFirst(places: seq<seq<Key>>, v: Value, previous: Value)
    requires places != []
    ensures Emits(places, v, previous, [])
         == LeafEvents(DotPath(places[0]), ValueAt(v, places[0]), ValueAt(previous, places[0]))
            + Emits(places[1..], v, previous, [])
  {
    hide LeafEvents, ValueAt, DotPath;
    assert [] + places[0] == places[0];
  }

  lemma DistinctRest(places: seq<seq<Key>>)
    requires places != [] && Distinct(places)
    ensures Distinct(places[1..]) && places[0] !in places[1..]
  {
    assert forall i :: 0 <= i < |places[1..]| ==> places[1..][i] == places[i + 1];
  }

  /**
    For a path that names one place, one comparison emits: for a number, or a word other than null, exactly one
    delta with that value and its lexeme if what stood there before differs, and none otherwise; for a string the
    new part if it extends what stood there, the whole new text if it does not, and nothing if it is empty or the
    same; and nothing for null and for a container.
   */
  lemma DeltaOfLeaf(current: Value, previous: Value, keys: seq<Key>, events: seq<Event>)
    requires Dictionaries(current) && OnlyAt(current, [], DotPath(keys), keys) && Lookup(current, keys).Some?
    requires Deltas(events) == DeltasOf(current, previous, [])
    ensures var path, leaf, older := DotPath(keys), Lookup(current, keys).value, ValueAt(previous, keys);
      var found := DeltasFor(events, path);
      && (leaf.Num? ==> found == if older == leaf then [] else [Delta(path, leaf, leaf.lexeme)])
      && (leaf.Word? && leaf != NULL ==> found == if older == leaf then [] else [Delta(path, leaf, leaf.lexeme)])
      && (leaf == NULL || leaf.Obj? || leaf.Arr? || leaf == Str("") || leaf == older ==> found == [])
      && (leaf.Str? && leaf != older && leaf.text != "" && older.Str? && older.text <= leaf.text ==>
            exists more :: leaf.text == older.text + more && found == [Delta(path, leaf, more)])
      && (leaf.Str? && leaf.text != "" && !(older.Str? && older.text <= leaf.text) ==>
            found == [Delta(path, leaf, leaf.text)])
  {
    hide *;
    DeltasOfPlace(current, previous, keys, events);
    LeafEventsMean(DotPath(keys), Lookup(current, keys).value, ValueAt(previous, keys));
  }

  lemma DeltasOfPlace(current: Value, previous: Value, keys: seq<Key>, events: seq<Event>)
    requires Dictionaries(current) && OnlyAt(current, [], DotPath(keys), keys) && Lookup(current, keys).Some?
    requires Deltas(events) == DeltasOf(current, previous, [])
    ensures DeltasFor(events, DotPath(keys))
         == LeafEvents(DotPath(keys), Lookup(current, keys).value, ValueAt(previous, keys))
  {
    hide DotPath, Leaves, Emits, Dictionaries, DeltasOf, LeafEvents, Lookup, Distinct, Deltas, DeltasFor;
    var path, places := DotPath(keys), Leaves(current);
    DeltasLeafByLeaf(current, previous, []);
    LeavesAreLeaves(current, keys);
    LeavesDistinct(current);
    forall i | 0 <= i < |places| && DotPath(places[i]) == path ensures places[i] == keys {
      LeavesAreLeaves(current, places[i]);
      assert [] + places[i] == places[i];
    }
    EmitsFor(places, current, previous, path, keys);
    DeltasForDeltas(events, path);
    if !Leaf(Lookup(current, keys).value) { NoLeafEvents(path, Lookup(current, keys).value, ValueAt(previous, keys)); }
  }

  lemma NoLeafEvents(path: string, leaf: Value, older: Value)
    requires !Leaf(leaf)
    ensures LeafEvents(path, leaf, older) == []
  {
  }

  lemma LeafEventsMean(path: string, leaf: Value, older: Value)
    ensures var found := LeafEvents(path, leaf, older);
      && (leaf.Num? ==> found == if older == leaf then [] else [Delta(path, leaf, leaf.lexeme)])
      && (leaf.Word? && leaf != NULL ==> found == if older == leaf then [] else [Delta(path, leaf, leaf.lexeme)])
      && (leaf == NULL || leaf.Obj? || leaf.Arr? || leaf == Str("") || leaf == older ==> found == [])
      && (leaf.Str? && leaf != older && leaf.text != "" && older.Str? && older.text <= leaf.text ==>
            exists more :: leaf.text == older.text + more && found == [Delta(path, leaf, more)])
      && (leaf.Str? && leaf.text != "" && !(older.Str? && older.text <= leaf.text) ==>
            found == [Delta(path, leaf, leaf.text)])
  {
    if leaf.Str? && older.Str? && older.text <= leaf.text {
      assert leaf.text == older.text + leaf.text[|older.text|..];
    }
  }
}
