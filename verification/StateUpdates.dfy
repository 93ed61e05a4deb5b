/**
  Which sets of keys make `update` idempotent (agently/utils/StateData.py:226-270 and 305-313): exactly those of
  which no key's dotted path extends another's.
 */
module StateUpdates {
  import opened Chars
  import opened StateValues
  import opened Texts

  /** A value that stands at the end of `rest` in nested dictionaries. */
  function Nest(rest: seq<string>, x: Value): Value {
    if rest == [] then x else Dict(map[rest[0] := Nest(rest[1..], x)])
  }

  const EMPTY := Dict(map[])

  lemma SetIntoEmpty(x: Value)
    ensures SetItem(EMPTY, x) == x
  {
    if x.Dict? { assert SetItem(EMPTY, x).fields == x.fields; }
  }

  lemma SetEmpty(v: Value)
    requires v.Dict?
    ensures SetItem(v, EMPTY) == v
  {
    assert SetItem(v, EMPTY).fields == v.fields;
  }

  /** Merging a nested value does what a dotted write of its innermost value does. */
  lemma {:induction false} NestedMerge(at: Value, rest: Path, x: Value)
    requires !Walk(at, rest, x, false).1
    ensures SetItem(at, Nest(rest, x)) == Walk(at, rest, x, false).0
    decreases |rest|
  {
    hide *;
    var k, tail := rest[0], rest[1..];
    WalkFirst(at, rest, x);
    NestFirst(rest, x);
    SetOne(at, k, Nest(tail, x));
    if tail == [] {
      NestFirst(tail, x);
    } else {
      NestedMerge(if k in at.fields then at.fields[k] else EMPTY, tail, x);
    }
  }

  lemma NestFirst(rest: seq<string>, x: Value)
    ensures Nest(rest, x) == if rest == [] then x else Dict(map[rest[0] := Nest(rest[1..], x)])
  {
  }

  /** Merging one field; a field that is missing is merged like one that holds an empty dictionary. */
  lemma SetOne(at: Value, k: string, inner: Value)
    requires at.Dict?
    ensures SetItem(at, Dict(map[k := inner]))
         == Dict(at.fields[k := SetItem(if k in at.fields then at.fields[k] else EMPTY, inner)])
  {
    SetIntoEmpty(inner);
    var one: Fields := map[k := inner];
    var after := SetItem(at, Dict(one)).fields;
    assert one.Keys == {k} && after.Keys == at.fields.Keys + {k};
    assert forall j :: j in at.fields && j != k ==> after[j] == at.fields[j];
    assert after == at.fields[k := after[k]];
  }

  lemma WalkFirst(at: Value, path: Path, x: Value)
    requires !Walk(at, path, x, false).1
    ensures at.Dict?
    ensures var had := if path[0] in at.fields then at.fields[path[0]] else EMPTY;
      if |path| == 1 then Walk(at, path, x, false).0 == Dict(at.fields[path[0] := SetItem(had, x)])
      else
        && !Walk(had, path[1..], x, false).1
        && Walk(at, path, x, false).0 == Dict(at.fields[path[0] := Walk(had, path[1..], x, false).0])
  {
    hide SetItem;
    if |path| > 1 && path[0] !in at.fields {
      var below := Walk(EMPTY, path[1..], x, false).0;
      assert at.fields[path[0] := EMPTY][path[0] := below] == at.fields[path[0] := below];
    }
    if |path| == 1 && path[0] !in at.fields {
      assert at.fields[path[0] := EMPTY][path[0] := SetItem(EMPTY, x)] == at.fields[path[0] := SetItem(EMPTY, x)];
    }
  }

  lemma {:induction false} NestedWrite(at: Value, path: Path, rest: seq<string>, x: Value)
    requires !Walk(at, path + rest, x, false).1
    ensures Walk(at, path, Nest(rest, x), false) == Walk(at, path + rest, x, false)
    decreases |path|
  {
    var all := path + rest;
    var made := if path[0] in at.fields then at.fields else at.fields[path[0] := EMPTY];
    if rest == [] {
      assert all == path;
    } else {
      assert all[1..] == path[1..] + rest;
      if |path| == 1 {
        assert all[1..] == rest;
        NestedMerge(made[path[0]], rest, x);
      } else {
        NestedWrite(made[path[0]], path[1..], rest, x);
      }
    }
  }

  /** Every proper prefix of a path that was written holds a dictionary. */
  lemma {:induction false} PrefixIsDict(at: Value, path: Path, n: nat, x: Value)
    requires n < |path| && !Walk(at, path, x, false).1
    ensures GetIn(Walk(at, path, x, false).0, path[..n]).Some?
      && GetIn(Walk(at, path, x, false).0, path[..n]).value.Dict?
    decreases n
  {
    if n == 0 {
      assert path[..0] == [];
    } else {
      var made := if path[0] in at.fields then at.fields else at.fields[path[0] := EMPTY];
      assert path[..n][0] == path[0] && path[..n][1..] == path[1..][..n - 1];
      PrefixIsDict(made[path[0]], path[1..], n - 1, x);
    }
  }

  lemma WritableAgain(at: Value, path: Path, x: Value, y: Value)
    requires !Walk(at, path, x, false).1
    ensures !Walk(Walk(at, path, x, false).0, path, y, false).1
  {
    var after := Walk(at, path, x, false).0;
    RaisesAlike(after, path, y, Null, false, true);
    RaisesIff(after, path);
    forall n | 0 <= n < |path| ensures GetIn(after, path[..n]).Some? && GetIn(after, path[..n]).value.Dict? {
      PrefixIsDict(at, path, n, x);
    }
  }

  // A state that is made of dictionaries only.

  predicate AllDicts(v: Value) {
    v.Dict? && forall k :: k in v.fields ==> AllDicts(v.fields[k])
  }

  lemma {:induction false} PartIsDicts(v: Value, path: seq<string>)
    requires AllDicts(v) && GetIn(v, path).Some?
    ensures AllDicts(GetIn(v, path).value)
    decreases |path|
  {
    if path != [] { PartIsDicts(v.fields[path[0]], path[1..]); }
  }

  lemma {:induction false} MakePath(at: Value, path: Path)
    requires AllDicts(at)
    ensures !Walk(at, path, EMPTY, false).1 && AllDicts(Walk(at, path, EMPTY, false).0)
    ensures GetIn(Walk(at, path, EMPTY, false).0, path).Some?
    ensures forall q :: GetIn(at, q).Some? ==> GetIn(Walk(at, path, EMPTY, false).0, q).Some?
    decreases |path|
  {
    var k := path[0];
    var made := if k in at.fields then at.fields else at.fields[k := EMPTY];
    var after := Walk(at, path, EMPTY, false).0;
    if |path| == 1 {
      SetEmpty(made[k]);
      assert path[1..] == [];
    } else {
      MakePath(made[k], path[1..]);
    }
    forall q | GetIn(at, q).Some? ensures GetIn(after, q).Some? {
      if q != [] && q[0] == k { assert GetIn(made[k], q[1..]).Some?; }
    }
  }

  /** A dictionary at every path. */
  function Skeleton(paths: seq<Path>): Value {
    if paths == [] then EMPTY else Walk(Skeleton(paths[1..]), paths[0], EMPTY, false).0
  }

  lemma {:induction false} SkeletonHasAll(paths: seq<Path>)
    ensures AllDicts(Skeleton(paths)) && forall k :: 0 <= k < |paths| ==> GetIn(Skeleton(paths), paths[k]).Some?
  {
    if paths != [] {
      SkeletonHasAll(paths[1..]);
      MakePath(Skeleton(paths[1..]), paths[0]);
      forall k | 0 < k < |paths| ensures GetIn(Skeleton(paths), paths[k]).Some? {
        assert paths[k] == paths[1..][k - 1];
      }
    }
  }

  // Two keys of which one extends the other, among any others.

  predicate DistinctPaths(paths: seq<Path>) { forall i, j :: 0 <= i < j < |paths| ==> paths[i] != paths[j] }

  predicate ApartPaths(paths: seq<Path>) { forall i, j :: 0 <= i < j < |paths| ==> Apart(paths[i], paths[j]) }

  function Entries(paths: seq<Path>, values: seq<Value>): (r: seq<Entry>)
    requires |paths| == |values|
    ensures |r| == |paths| && forall i :: 0 <= i < |r| ==> r[i] == Entry(paths[i], values[i])
  {
    seq(|paths|, i requires 0 <= i < |paths| => Entry(paths[i], values[i]))
  }

  predicate TwiceIsOnce(at: Value, entries: seq<Entry>) {
    UpdateAll(UpdateAll(at, entries).0, entries) == UpdateAll(at, entries)
  }

  /**
    Two keys whose paths, with some rest, name the same place `paths[longer]`: the first writes `x` there, the
    second `y`; no path goes further, and every other key brings an empty dictionary.
   */
  datatype Clash = Clash(paths: seq<Path>, first: nat, second: nat, longer: nat, x: Value, y: Value) {
    ghost predicate Valid() {
      && first < second < |paths| && (longer == first || longer == second)
      && paths[first] <= Place() && paths[second] <= Place()
      && forall k :: 0 <= k < |paths| && k != longer ==> paths[k] < Place() || Apart(Place(), paths[k])
    }

    function Place(): Path
      requires longer < |paths|
    {
      paths[longer]
    }

    function Values(): (r: seq<Value>)
      requires longer < |paths|
      requires first < |paths| && paths[first] <= Place() && second < |paths| && paths[second] <= Place()
      ensures |r| == |paths|
    {
      seq(|paths|, k requires 0 <= k < |paths| =>
        if k == first then Nest(Place()[|paths[first]|..], x)
        else if k == second then Nest(Place()[|paths[second]|..], y)
        else EMPTY)
    }

    /** The place can be written, and every other key already finds a dictionary. */
    ghost predicate Ready(at: Value)
      requires longer < |paths|
    {
      && !Walk(at, Place(), Null, false).1
      && forall k :: 0 <= k < |paths| && k != longer ==> GetIn(at, paths[k]).Some? && GetIn(at, paths[k]).value.Dict?
    }
  }

  lemma WriteKeepsReady(c: Clash, at: Value, v: Value)
    requires c.Valid() && c.Ready(at)
    ensures var one := Walk(at, c.Place(), v, false);
      && !one.1 && c.Ready(one.0) && GetIn(one.0, c.Place()) == Some(SetItem(Before(at, c.Place()), v))
  {
    var place := c.Place();
    RaisesAlike(at, place, v, Null, false, false);
    WritableAgain(at, place, v, Null);
    GetAfterSet(at, place, v, false);
    var after := Walk(at, place, v, false).0;
    forall k | 0 <= k < |c.paths| && k != c.longer
      ensures GetIn(after, c.paths[k]).Some? && GetIn(after, c.paths[k]).value.Dict? {
      if Apart(place, c.paths[k]) {
        SetFrame(at, place, v, false, c.paths[k]);
      } else {
        assert c.paths[k] == place[..|c.paths[k]|];
        PrefixIsDict(at, place, |c.paths[k]|, v);
      }
    }
  }

  /** What one entry does. */
  lemma EntryTurn(c: Clash, at: Value, k: nat)
    requires c.Valid() && c.Ready(at) && k < |c.paths|
    ensures Walk(at, c.paths[k], c.Values()[k], false) ==
      if k == c.first then Walk(at, c.Place(), c.x, false)
      else if k == c.second then Walk(at, c.Place(), c.y, false)
      else (at, false)
  {
    var path, place := c.paths[k], c.Place();
    if k == c.first || k == c.second {
      var v := if k == c.first then c.x else c.y;
      var rest := place[|path|..];
      assert place == path + rest;
      RaisesAlike(at, place, v, Null, false, false);
      NestedWrite(at, path, rest, v);
    } else {
      SetEmpty(GetIn(at, path).value);
      AbsorbedIsNoop(at, path, EMPTY);
    }
  }

  /** The state after the entries from `k` on. */
  function Passed(c: Clash, at: Value, k: nat): Value
    requires c.longer < |c.paths|
  {
    var one := if k <= c.first then Walk(at, c.Place(), c.x, false).0 else at;
    if k <= c.second then Walk(one, c.Place(), c.y, false).0 else one
  }

  lemma {:induction false} PassFrom(c: Clash, at: Value, k: nat)
    requires c.Valid() && c.Ready(at) && k <= |c.paths|
    ensures UpdateAll(at, Entries(c.paths, c.Values())[k..]) == (Passed(c, at, k), false)
    decreases |c.paths| - k
  {
    hide Walk, SetItem, GetIn, Nest;
    var all := Entries(c.paths, c.Values());
    if k < |c.paths| {
      assert all[k..][0] == all[k] && all[k..][1..] == all[k + 1..];
      EntryTurn(c, at, k);
      if k == c.first { WriteKeepsReady(c, at, c.x); }
      if k == c.second { WriteKeepsReady(c, at, c.y); }
      PassFrom(c, Walk(at, c.paths[k], c.Values()[k], false).0, k + 1);
    }
  }

  /** A whole pass: the two writes, one after the other, and nothing else. */
  lemma Pass(c: Clash, at: Value)
    requires c.Valid() && c.Ready(at)
    ensures var one := Walk(at, c.Place(), c.x, false).0;
            var two := Walk(one, c.Place(), c.y, false).0;
      && UpdateAll(at, Entries(c.paths, c.Values())) == (two, false) && c.Ready(two)
      && GetIn(two, c.Place()) == Some(SetItem(SetItem(Before(at, c.Place()), c.x), c.y))
  {
    var all := Entries(c.paths, c.Values());
    var one := Walk(at, c.Place(), c.x, false).0;
    assert all[0..] == all;
    PassFrom(c, at, 0);
    WriteKeepsReady(c, at, c.x);
    WriteKeepsReady(c, one, c.y);
  }

  function Lengths(paths: seq<Path>): nat {
    if paths == [] then 0 else |paths[0]| + Lengths(paths[1..])
  }

  lemma {:induction false} LengthsCover(paths: seq<Path>, k: nat)
    requires k < |paths|
    ensures |paths[k]| <= Lengths(paths)
  {
    if k > 0 { LengthsCover(paths[1..], k - 1); }
  }

  /** Of the paths that extend one, some is not extended any further. */
  lemma {:induction false} FarthestExtension(paths: seq<Path>, shorter: nat, longer: nat) returns (farthest: nat)
    requires shorter < |paths| && longer < |paths| && paths[shorter] < paths[longer]
    ensures farthest < |paths| && paths[shorter] < paths[farthest]
    ensures forall k :: 0 <= k < |paths| ==> !(paths[farthest] < paths[k])
    decreases Lengths(paths) - |paths[longer]|
  {
    LengthsCover(paths, longer);
    if k :| 0 <= k < |paths| && paths[longer] < paths[k] {
      LengthsCover(paths, k);
      farthest := FarthestExtension(paths, shorter, k);
    } else {
      farthest := longer;
    }
  }

  /** When one key extends another, some values of the keys tell the second update from the first. */
  lemma ClashChanges(paths: seq<Path>, shorter: nat, longer: nat) returns (values: seq<Value>)
    requires DistinctPaths(paths) && shorter < |paths| && longer < |paths| && paths[shorter] < paths[longer]
    ensures |values| == |paths| && !TwiceIsOnce(Skeleton(paths), Entries(paths, values))
    ensures !UpdateAll(Skeleton(paths), Entries(paths, values)).1
  {
    var place := FarthestExtension(paths, shorter, longer);
    var x, y := Atom("5"), List([Atom("2")]);
    var c := if shorter < place then Clash(paths, shorter, place, place, x, y)
      else Clash(paths, place, shorter, place, x, y);
    forall k | 0 <= k < |paths| && k != place ensures paths[k] < paths[place] || Apart(paths[place], paths[k]) {
      assert paths[k] != paths[place];
    }
    values := c.Values();
    var start := Skeleton(paths);
    SkeletonIsReady(c);
    Pass(c, start);
    var once := UpdateAll(start, Entries(paths, values)).0;
    Pass(c, once);
    SkeletonHasAll(paths);
    PartIsDicts(start, c.Place());
    MergedTwice(Before(start, c.Place()));
  }

  lemma SkeletonIsReady(c: Clash)
    requires c.Valid()
    ensures c.Ready(Skeleton(c.paths))
  {
    var start := Skeleton(c.paths);
    SkeletonHasAll(c.paths);
    forall k | 0 <= k < |c.paths| ensures GetIn(start, c.paths[k]).value.Dict? { PartIsDicts(start, c.paths[k]); }
    MakePath(start, c.Place());
    RaisesAlike(start, c.Place(), EMPTY, Null, false, false);
  }

  lemma MergedTwice(v: Value)
    requires v.Dict?
    ensures var x, y := Atom("5"), List([Atom("2")]);
      && SetItem(SetItem(v, x), y) == y
      && SetItem(SetItem(y, x), y) == List([Atom("2"), Atom("5")])
  {
    var two, five := Atom("2"), Atom("5");
    assert [two][1..] == [] && Union([two], [five]) == [two, five] by { assert [five][1..] == []; }
    assert Union([two, five], [two]) == [two, five];
  }

  /** Exact for the paths of the keys; they need only be different. */
  lemma PathsIdempotentIff(paths: seq<Path>)
    requires DistinctPaths(paths)
    ensures (forall fields: Fields, values: seq<Value> :: |values| == |paths| ==>
      TwiceIsOnce(Dict(fields), Entries(paths, values)))
        <==> ApartPaths(paths)
  {
    if ApartPaths(paths) {
      forall fields: Fields, values: seq<Value> | |values| == |paths|
        ensures TwiceIsOnce(Dict(fields), Entries(paths, values)) {
        var entries := Entries(paths, values);
        forall i, j | 0 <= i < j < |entries| ensures Apart(entries[i].path, entries[j].path) {
          assert Apart(paths[i], paths[j]);
        }
        UpdateIdempotent(Dict(fields), entries);
      }
    } else {
      var i, j :| 0 <= i < j < |paths| && !Apart(paths[i], paths[j]);
      assert paths[i] != paths[j];
      var values;
      if paths[i] < paths[j] { values := ClashChanges(paths, i, j); } else { values := ClashChanges(paths, j, i); }
      SkeletonHasAll(paths);
      assert Skeleton(paths) == Dict(Skeleton(paths).fields);
    }
  }

  /** The paths of a mapping's keys, dotted or not. */
  function PathsOf(keys: seq<string>): (r: seq<Path>)
    ensures |r| == |keys| && forall i :: 0 <= i < |r| ==> r[i] == Split(keys[i], '.')
  {
    seq(|keys|, i requires 0 <= i < |keys| => Split(keys[i], '.'))
  }

  predicate DistinctKeys(keys: seq<string>) {
    forall i, j :: 0 <= i < j < |keys| ==> keys[i] != keys[j]
  }

  lemma DistinctKeysDistinctPaths(keys: seq<string>)
    requires DistinctKeys(keys)
    ensures DistinctPaths(PathsOf(keys))
  {
    var paths := PathsOf(keys);
    forall i, j | 0 <= i < j < |paths| ensures paths[i] != paths[j] {
      JoinSplit(keys[i], '.');
      JoinSplit(keys[j], '.');
    }
  }

  /**
    The condition is exact for the keys of any mapping: an update with these keys is idempotent on every state
    and for all values, if and only if no key's path extends another's.
   */
  lemma UpdateIdempotentIff(keys: seq<string>)
    requires DistinctKeys(keys)
    ensures (forall fields: Fields, values: seq<Value> :: |values| == |keys| ==>
      TwiceIsOnce(Dict(fields), Entries(PathsOf(keys), values)))
        <==> ApartPaths(PathsOf(keys))
  {
    DistinctKeysDistinctPaths(keys);
    PathsIdempotentIff(PathsOf(keys));
  }
}
