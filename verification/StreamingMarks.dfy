/**
  What marking a value emits, place by place (agently/utils/StreamingJSONParser.py:743-802): in post-order, so
  that children come before their parents, one done event for each place whose path was not complete.
 */
module StreamingMarks {
  import opened Chars
  import opened Json
  import opened Streaming
  import opened StreamingDeltas
  import opened StreamingEnd
  import opened StreamingLeaves

  /** The places of a value in post-order, the value's own last. */
  function Places(v: Value): seq<seq<Key>>
    decreases v
  {
    (match v
     case Obj(members) => MemberPlaces(members)
     case Arr(items) => ItemPlaces(items, 0)
     case _ => []) + [[]]
  }

  function MemberPlaces(members: seq<Member>): seq<seq<Key>>
    decreases members
  {
    if members == [] then []
    else Under(Name(members[0].key), Places(members[0].value)) + MemberPlaces(members[1..])
  }

  function ItemPlaces(items: seq<Value>, index: nat): seq<seq<Key>>
    decreases items
  {
    if items == [] then [] else Under(Index(index), Places(items[0])) + ItemPlaces(items[1..], index + 1)
  }

  /** One done event for each place whose path is neither empty nor complete already. */
  function Marks(places: seq<seq<Key>>, v: Value, base: seq<Key>, complete: set<string>, source: Source): seq<Event> {
    if places == [] then []
    else
      var path := DotPath(base + places[0]);
      if path == "" || path in complete then Marks(places[1..], v, base, complete, source)
      else
        [Done(path, ValueAt(v, places[0]), source)] + Marks(places[1..], v, base, complete + {path}, source)
  }

  lemma MarksFirst(places: seq<seq<Key>>, v: Value, base: seq<Key>, complete: set<string>, source: Source)
    ensures Marks(places, v, base, complete, source) ==
      if places == [] then []
      else
        var path := DotPath(base + places[0]);
        if path == "" || path in complete then Marks(places[1..], v, base, complete, source)
        else [Done(path, ValueAt(v, places[0]), source)] + Marks(places[1..], v, base, complete + {path}, source)
  {
  }

  lemma {:induction false} MarksJoin(a: seq<seq<Key>>, b: seq<seq<Key>>, v: Value, base: seq<Key>,
                                     complete: set<string>,
                                     source: Source)
    ensures var first := Marks(a, v, base, complete, source);
      Marks(a + b, v, base, complete, source) == first + Marks(b, v, base, Completed(complete, first), source)
    decreases |a|
  {
    hide *;
    MarksFirst(a, v, base, complete, source);
    MarksFirst(a + b, v, base, complete, source);
    NothingCompleted(complete);
    if a == [] {
      assert a + b == b && [] + Marks(b, v, base, complete, source) == Marks(b, v, base, complete, source);
    } else {
      assert (a + b)[0] == a[0] && (a + b)[1..] == a[1..] + b;
      var path := DotPath(base + a[0]);
      if path == "" || path in complete {
        MarksJoin(a[1..], b, v, base, complete, source);
      } else {
        MarksJoin(a[1..], b, v, base, complete + {path}, source);
        var one, rest := Done(path, ValueAt(v, a[0]), source), Marks(a[1..], v, base, complete + {path}, source);
        OneCompleted(complete, one, rest);
        var more := Marks(b, v, base, Completed(complete + {path}, rest), source);
        assert [one] + (rest + more) == [one] + rest + more;
      }
    }
  }

  lemma OneCompleted(complete: set<string>, e: Event, rest: seq<Event>)
    requires e.Done?
    ensures Completed(complete, [e] + rest) == Completed(complete + {e.path}, rest)
  {
    assert ([e] + rest)[1..] == rest;
    assert DonePaths([e] + rest) == [e.path] + DonePaths(rest);
    assert Elements([e.path] + DonePaths(rest)) == {e.path} + Elements(DonePaths(rest));
  }

  lemma {:induction false} MarksUnder(key: Key, places: seq<seq<Key>>, part: Value, v: Value, base: seq<Key>,
                                      complete: set<string>, source: Source)
    requires forall rel :: ValueAt(v, [key] + rel) == ValueAt(part, rel)
    ensures Marks(Under(key, places), v, base, complete, source) == Marks(places, part, base + [key], complete, source)
    decreases |places|
  {
    hide ValueAt, DotPath;
    if places != [] {
      var below := places[0];
      assert Under(key, places)[0] == [key] + below && Under(key, places)[1..] == Under(key, places[1..]);
      assert base + ([key] + below) == base + [key] + below;
      var path := DotPath(base + [key] + below);
      MarksUnder(key, places[1..], part, v, base,
                 if path == "" || path in complete then complete else complete + {path}, source);
    }
  }

  /** Marking a value, place by place. */
  lemma {:induction false} DonesPlaceByPlace(v: Value, base: seq<Key>, complete: set<string>, source: Source)
    requires Dictionaries(v)
    ensures DonesOf(v, base, complete, source) == Marks(Places(v), v, base, complete, source)
    decreases v
  {
    hide DotPath, Dictionaries, Lookup, MemberDones, ItemDones, Marks, MemberPlaces, ItemPlaces, Elements, DonePaths;
    var below :=
      match v
      case Obj(members) => MemberPlaces(members)
      case Arr(items) => ItemPlaces(items, 0)
      case _ => [];
    match v {
      case Obj(members) =>
        MembersPlaceByPlace(members, 0, base, complete, source);
        assert members[0..] == members;
      case Arr(items) =>
        ItemsPlaceByPlace(items, 0, base, complete, source);
        assert items[0..] == items;
      case _ =>
        MarksFirst([], v, base, complete, source);
    }
    MarksJoin(below, [[]], v, base, complete, source);
    OwnMark(v, base, Completed(complete, Marks(below, v, base, complete, source)), source);
  }

  lemma OwnMark(v: Value, base: seq<Key>, complete: set<string>, source: Source)
    ensures Marks([[]], v, base, complete, source)
         == if DotPath(base) != "" && DotPath(base) !in complete then [Done(DotPath(base), v, source)] else []
  {
    hide DotPath;
    var places: seq<seq<Key>> := [[]];
    assert places[1..] == [] && base + [] == base;
    assert Marks([], v, base, complete, source) == [] && Marks([], v, base, complete + {DotPath(base)}, source) == [];
  }

  lemma {:induction false} MembersPlaceByPlace(all: seq<Member>, j: nat, base: seq<Key>, complete: set<string>,
                                               source: Source)
    requires Dictionaries(Obj(all)) && j <= |all|
    ensures MemberDones(all[j..], base, complete, source)
         == Marks(MemberPlaces(all[j..]), Obj(all), base, complete, source)
    decreases Obj(all), |all| - j
  {
    hide *;
    MemberDonesFirst(all[j..], base, complete, source);
    MemberPlacesFirst(all[j..]);
    if j == |all| {
      MarksFirst([], Obj(all), base, complete, source);
    } else {
      var key, part := Name(all[j].key), all[j].value;
      assert all[j..][0] == all[j] && all[j..][1..] == all[j + 1..];
      PartsAreDictionaries(Obj(all), j);
      DonesPlaceByPlace(part, base + [key], complete, source);
      forall rel ensures ValueAt(Obj(all), [key] + rel) == ValueAt(part, rel) { MemberSeen(all, j, NULL, rel); }
      MarksUnder(key, Places(part), part, Obj(all), base, complete, source);
      var first := DonesOf(part, base + [key], complete, source);
      CompletedMeans(complete, first);
      MembersPlaceByPlace(all, j + 1, base, Completed(complete, first), source);
      MarksJoin(Under(key, Places(part)), MemberPlaces(all[j + 1..]), Obj(all), base, complete, source);
    }
  }

  lemma MemberPlacesFirst(members: seq<Member>)
    ensures MemberPlaces(members) == if members == [] then []
      else Under(Name(members[0].key), Places(members[0].value)) + MemberPlaces(members[1..])
  {
  }

  lemma ItemPlacesFirst(items: seq<Value>, index: nat)
    ensures ItemPlaces(items, index)
         == if items == [] then [] else Under(Index(index), Places(items[0])) + ItemPlaces(items[1..], index + 1)
  {
  }

  lemma {:induction false} ItemsPlaceByPlace(all: seq<Value>, j: nat, base: seq<Key>, complete: set<string>,
                                             source: Source)
    requires Dictionaries(Arr(all)) && j <= |all|
    ensures ItemDones(all[j..], base, j, complete, source)
         == Marks(ItemPlaces(all[j..], j), Arr(all), base, complete, source)
    decreases Arr(all), |all| - j
  {
    hide *;
    ItemDonesFirst(all[j..], base, j, complete, source);
    ItemPlacesFirst(all[j..], j);
    if j == |all| {
      MarksFirst([], Arr(all), base, complete, source);
    } else {
      assert all[j..][0] == all[j] && all[j..][1..] == all[j + 1..];
      PartsAreDictionaries(Arr(all), j);
      DonesPlaceByPlace(all[j], base + [Index(j)], complete, source);
      forall rel ensures ValueAt(Arr(all), [Index(j)] + rel) == ValueAt(all[j], rel) { ItemSeen(all, j, NULL, rel); }
      MarksUnder(Index(j), Places(all[j]), all[j], Arr(all), base, complete, source);
      var first := DonesOf(all[j], base + [Index(j)], complete, source);
      CompletedMeans(complete, first);
      ItemsPlaceByPlace(all, j + 1, base, Completed(complete, first), source);
      MarksJoin(Under(Index(j), Places(all[j])), ItemPlaces(all[j + 1..], j + 1), Arr(all), base, complete, source);
    }
  }

  // The places are the places, and children come first.

  /** No place comes before one below it, and the place of an earlier item or member before that of a later one. */
  ghost predicate ChildrenFirst(places: seq<seq<Key>>) {
    forall i, j :: 0 <= i < j < |places| ==> !(places[i] <= places[j])
  }

  lemma ChildrenFirstJoin(a: seq<seq<Key>>, b: seq<seq<Key>>)
    requires ChildrenFirst(a) && ChildrenFirst(b) && forall x, y :: x in a && y in b ==> !(x <= y)
    ensures ChildrenFirst(a + b)
  {
    forall i, j | 0 <= i < j < |a + b| ensures !((a + b)[i] <= (a + b)[j]) {
      if i < |a| <= j { assert a[i] in a && b[j - |a|] in b; }
    }
  }

  lemma ChildrenFirstUnder(key: Key, places: seq<seq<Key>>)
    requires ChildrenFirst(places)
    ensures ChildrenFirst(Under(key, places))
  {
    var r := Under(key, places);
    forall i, j | 0 <= i < j < |r| ensures !(r[i] <= r[j]) {
      assert r[i][1..] == places[i] && r[j][1..] == places[j];
    }
  }

  lemma {:induction false} PlacesChildrenFirst(v: Value)
    requires Dictionaries(v)
    ensures ChildrenFirst(Places(v))
    decreases v
  {
    hide Dictionaries, ChildrenFirst, MemberPlaces, ItemPlaces;
    OneIsInOrder();
    match v
    case Obj(members) =>
      DictionaryMembers(members);
      MembersChildrenFirst(members, 0);
      assert members[0..] == members;
      forall x | x in MemberPlaces(members) ensures x != [] { MemberPlacesAre(members, 0, x); }
      ChildrenFirstJoin(MemberPlaces(members), [[]]);
    case Arr(items) =>
      ItemsChildrenFirst(items, 0);
      assert items[0..] == items;
      forall x | x in ItemPlaces(items, 0) ensures x != [] { ItemPlacesAre(items, 0, x); }
      ChildrenFirstJoin(ItemPlaces(items, 0), [[]]);
    case _ =>
      NothingBefore([[]]);
  }

  lemma NothingBefore(places: seq<seq<Key>>)
    ensures [] + places == places
  {
  }

  lemma OneIsInOrder()
    ensures ChildrenFirst([[]]) && ChildrenFirst([])
  {
  }

  lemma {:induction false} MemberPlacesAre(all: seq<Member>, j: nat, keys: seq<Key>)
    requires DistinctMembers(all) && j <= |all|
    ensures keys in MemberPlaces(all[j..]) <==>
      && keys != [] && keys[0].Name? && j <= Find(all, keys[0].text) < |all|
      && keys[1..] in Places(all[Find(all, keys[0].text)].value)
    decreases |all| - j
  {
    hide Places;
    if j < |all| {
      assert all[j..][0] == all[j] && all[j..][1..] == all[j + 1..];
      InUnder(Name(all[j].key), Places(all[j].value), keys);
      MemberPlacesAre(all, j + 1, keys);
      assert Find(all, all[j].key) == j;
    }
  }

  lemma {:induction false} ItemPlacesAre(all: seq<Value>, j: nat, keys: seq<Key>)
    requires j <= |all|
    ensures keys in ItemPlaces(all[j..], j) <==>
      keys != [] && keys[0].Index? && j <= keys[0].index < |all| && keys[1..] in Places(all[keys[0].index])
    decreases |all| - j
  {
    hide Places;
    if j < |all| {
      assert all[j..][0] == all[j] && all[j..][1..] == all[j + 1..];
      InUnder(Index(j), Places(all[j]), keys);
      ItemPlacesAre(all, j + 1, keys);
    }
  }

  lemma {:induction false} MembersChildrenFirst(all: seq<Member>, j: nat)
    requires Dictionaries(Obj(all)) && j <= |all|
    ensures ChildrenFirst(MemberPlaces(all[j..]))
    decreases Obj(all), |all| - j
  {
    hide Dictionaries, ChildrenFirst, Places;
    OneIsInOrder();
    if j < |all| {
      var key, part := Name(all[j].key), all[j].value;
      assert all[j..][0] == all[j] && all[j..][1..] == all[j + 1..];
      DictionaryMembers(all);
      PartsAreDictionaries(Obj(all), j);
      PlacesChildrenFirst(part);
      ChildrenFirstUnder(key, Places(part));
      MembersChildrenFirst(all, j + 1);
      var here, later := Under(key, Places(part)), MemberPlaces(all[j + 1..]);
      forall x, y | x in here && y in later ensures !(x <= y) {
        InUnder(key, Places(part), x);
        MemberPlacesAre(all, j + 1, y);
        assert Find(all, all[j].key) == j;
      }
      ChildrenFirstJoin(Under(key, Places(part)), MemberPlaces(all[j + 1..]));
    }
  }

  lemma {:induction false} ItemsChildrenFirst(all: seq<Value>, j: nat)
    requires Dictionaries(Arr(all)) && j <= |all|
    ensures ChildrenFirst(ItemPlaces(all[j..], j))
    decreases Arr(all), |all| - j
  {
    hide Dictionaries, ChildrenFirst, Places;
    OneIsInOrder();
    if j < |all| {
      assert all[j..][0] == all[j] && all[j..][1..] == all[j + 1..];
      PartsAreDictionaries(Arr(all), j);
      PlacesChildrenFirst(all[j]);
      ChildrenFirstUnder(Index(j), Places(all[j]));
      ItemsChildrenFirst(all, j + 1);
      var here, later := Under(Index(j), Places(all[j])), ItemPlaces(all[j + 1..], j + 1);
      forall x, y | x in here && y in later ensures !(x <= y) {
        InUnder(Index(j), Places(all[j]), x);
        ItemPlacesAre(all, j + 1, y);
      }
      ChildrenFirstJoin(Under(Index(j), Places(all[j])), ItemPlaces(all[j + 1..], j + 1));
    }
  }

  /** The places are those where the lookup finds something. */
  lemma {:induction false} PlacesArePlaces(v: Value, keys: seq<Key>)
    requires Dictionaries(v)
    ensures keys in Places(v) <==> Lookup(v, keys).Some?
    decreases v
  {
    hide Dictionaries;
    match v
    case Obj(members) =>
      DictionaryMembers(members);
      MemberPlacesAre(members, 0, keys);
      assert members[0..] == members;
      if keys != [] && keys[0].Name? && Find(members, keys[0].text) < |members| {
        var k := Find(members, keys[0].text);
        PartsAreDictionaries(v, k);
        PlacesArePlaces(members[k].value, keys[1..]);
      }
    case Arr(items) =>
      ItemPlacesAre(items, 0, keys);
      assert items[0..] == items;
      if keys != [] && keys[0].Index? && keys[0].index < |items| {
        PartsAreDictionaries(v, keys[0].index);
        PlacesArePlaces(items[keys[0].index], keys[1..]);
      }
    case _ =>
  }

  /**
    Marking a value emits, in an order in which no place comes before one below it, exactly one event for each
    path of a place that was not complete, with the value there that comes first.
   */
  lemma MarkingIsPostOrder(v: Value, complete: set<string>, source: Source)
    requires Dictionaries(v)
    ensures DonesOf(v, [], complete, source) == Marks(Places(v), v, [], complete, source)
    ensures ChildrenFirst(Places(v)) && forall keys :: keys in Places(v) <==> Lookup(v, keys).Some?
  {
    hide *;
    DonesPlaceByPlace(v, [], complete, source);
    PlacesChildrenFirst(v);
    forall keys ensures keys in Places(v) <==> Lookup(v, keys).Some? { PlacesArePlaces(v, keys); }
  }

  // The labels at the end of a stream.

  lemma {:induction false} MarksAreFresh(places: seq<seq<Key>>, v: Value, base: seq<Key>, complete: set<string>,
                                         source: Source)
    ensures forall e :: e in Marks(places, v, base, complete, source) ==>
      e.Done? && e.source == source && e.path !in complete
    decreases |places|
  {
    hide DotPath, ValueAt;
    if places != [] {
      var path := DotPath(base + places[0]);
      MarksAreFresh(places[1..], v, base, complete, source);
      MarksAreFresh(places[1..], v, base, complete + {path}, source);
    }
  }

  /**
    An event of the end of a stream is labelled as observed if and only if the raw buffer closes a value at its
    path. All others carry the label that was given, or without one the one the raw buffer calls for.
   */
  lemma EndLabels(p: StreamingJSONParser, data: Value, observed: seq<Observed.Observation>, complete: set<string>,
                  given: Option<Source>, buffer: string)
    requires Dictionaries(data)
    ensures forall e :: e in Ending(data, observed, complete, p.Label(given, buffer)) ==>
      && e.Done?
      && e.source ==
           if exists k :: 0 <= k < |observed| && observed[k].path == e.path then ObservedBoundary
           else if given.Some? then given.value
           else if Provenance.LooksComplete(buffer) then FinalReconciliation
           else SyntheticRepair
  {
    hide *;
    var source, first := p.Label(given, buffer), FreshObserved(observed, complete);
    var done := Completed(complete, first);
    p.LabelMeans(given, buffer);
    ObservedBecomesComplete(observed, complete);
    FreshIsObserved(observed, complete);
    MarkingIsPostOrder(data, done, source);
    MarksAreFresh(Places(data), data, [], done, source);
    EndingMeans(data, observed, complete, source);
  }

  lemma {:induction false} FreshIsObserved(observed: seq<Observed.Observation>, complete: set<string>)
    ensures forall e :: e in FreshObserved(observed, complete) ==>
      e.Done? && exists k :: 0 <= k < |observed| && observed[k].path == e.path
    decreases |observed|
  {
    if observed != [] {
      var later := complete + {observed[0].path};
      FreshIsObserved(observed[1..], complete);
      FreshIsObserved(observed[1..], later);
      assert forall k :: 0 <= k < |observed[1..]| ==> observed[1..][k] == observed[k + 1];
    }
  }
}
