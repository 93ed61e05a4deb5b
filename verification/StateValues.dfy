/**
  The layered state store on values (agently/utils/StateData.py): the recursive merge of a partial mapping,
  dotted-path writes, and the view through a chain of parents. Dictionary order is not kept.
 */
module StateValues {
  import opened Chars

  datatype Value = Atom(repr: string) | Null | Dict(fields: map<string, Value>) | List(items: seq<Value>)

  type Fields = map<string, Value>

  /** Appends the values of `ys` that are not there yet, one after the other. */
  function Union(xs: seq<Value>, ys: seq<Value>): (r: seq<Value>)
    ensures xs <= r
    ensures forall y :: y in r <==> y in xs || y in ys
    decreases |ys|
  {
    if ys == [] then xs else Union(if ys[0] in xs then xs else xs + [ys[0]], ys[1..])
  }

  lemma {:induction false} UnionSplit(xs: seq<Value>, ys: seq<Value>, zs: seq<Value>)
    ensures Union(xs, ys + zs) == Union(Union(xs, ys), zs)
    decreases |ys|
  {
    if ys == [] {
      assert ys + zs == zs;
    } else {
      assert (ys + zs)[1..] == ys[1..] + zs;
      UnionSplit(if ys[0] in xs then xs else xs + [ys[0]], ys[1..], zs);
    }
  }

  lemma {:induction false} UnionContained(xs: seq<Value>, ys: seq<Value>)
    requires forall y :: y in ys ==> y in xs
    ensures Union(xs, ys) == xs
    decreases |ys|
  {
    if ys != [] {
      assert ys[0] in ys;
      UnionContained(xs, ys[1..]);
    }
  }

  /** Ordered list union with de-duplication is associative. */
  lemma {:induction false} UnionAssociative(xs: seq<Value>, ys: seq<Value>, zs: seq<Value>)
    ensures Union(Union(xs, ys), zs) == Union(xs, Union(ys, zs))
    decreases |zs|
  {
    if zs == [] {
    } else if zs[0] in ys {
      UnionSplit(Union(xs, ys), [zs[0]], zs[1..]);
      assert [zs[0]] + zs[1..] == zs;
      UnionContained(Union(xs, ys), [zs[0]]);
      UnionAssociative(xs, ys, zs[1..]);
    } else {
      var ys' := ys + [zs[0]];
      UnionSplit(xs, ys, [zs[0]]);
      UnionSplit(Union(xs, ys), [zs[0]], zs[1..]);
      assert [zs[0]] + zs[1..] == zs;
      UnionAssociative(xs, ys', zs[1..]);
    }
  }

  /** What is added is new where it stands, even when it comes twice. */
  lemma {:induction false} UnionAddsOnce(xs: seq<Value>, ys: seq<Value>, i: nat)
    requires |xs| <= i < |Union(xs, ys)|
    ensures Union(xs, ys)[i] !in Union(xs, ys)[..i]
    decreases |ys|
  {
    var more := if ys[0] in xs then xs else xs + [ys[0]];
    if i < |more| {
      assert Union(xs, ys)[..i] == xs;
    } else {
      UnionAddsOnce(more, ys[1..], i);
    }
  }

  // The view through parents (lines 114-147).

  /** One key that both levels hold. */
  function MergeValue(child: Value, parent: Value): Value
    decreases child
  {
    match (child, parent)
    case (Dict(c), Dict(p)) =>
      Dict(map k | k in c.Keys + p.Keys ::
        if k !in p then c[k] else if k !in c then p[k] else MergeValue(c[k], p[k]))
    case (List(xs), List(ys)) => List(Union(xs, ys))
    case (List(xs), other) => List(Union(xs, [other]))
    case _ => child
  }

  function MergeView(child: Fields, parent: Fields): (r: Fields)
    ensures r.Keys == child.Keys + parent.Keys
    ensures forall k :: k in r ==>
      r[k] == if k !in parent then child[k] else if k !in child then parent[k] else MergeValue(child[k], parent[k])
  {
    MergeValue(Dict(child), Dict(parent)).fields
  }

  /** The loop over the chain: the object's own data first, then its parent's, and so on. */
  function InheritedView(result: Fields, chain: seq<Fields>): Fields
    decreases |chain|
  {
    if chain == [] then result else InheritedView(MergeView(result, chain[0]), chain[1..])
  }

  /** The reading the chain is meant to have: local data over the parent's own view. */
  function LayeredView(chain: seq<Fields>): Fields
    decreases |chain|
  {
    if chain == [] then map[] else MergeView(chain[0], LayeredView(chain[1..]))
  }

  /** `child` may stand on `parent` with more levels above: no container hides a value of another kind. */
  predicate Stackable(child: Value, parent: Value)
    decreases child
  {
    match (child, parent)
    case (Dict(c), Dict(p)) => forall k :: k in c && k in p ==> Stackable(c[k], p[k])
    case (List(_), List(_)) => true
    case _ => child.Atom? || child.Null?
  }

  lemma {:induction false} MergeAssociative(a: Value, b: Value, c: Value)
    requires Stackable(a, b)
    ensures MergeValue(MergeValue(a, b), c) == MergeValue(a, MergeValue(b, c))
    decreases a
  {
    match (a, b) {
      case (Dict(x), Dict(y)) =>
        if c.Dict? {
          var z := c.fields;
          var left, right := MergeValue(MergeValue(a, b), c).fields, MergeValue(a, MergeValue(b, c)).fields;
          assert left.Keys == right.Keys;
          forall k | k in left ensures left[k] == right[k] {
            if k in x && k in y && k in z { MergeAssociative(x[k], y[k], z[k]); }
          }
        }
      case (List(xs), List(ys)) =>
        UnionAssociative(xs, ys, if c.List? then c.items else [c]);
      case _ =>
    }
  }

  /** A value that is not in a finite list of values. */
  function Depth(v: Value): nat
    decreases v
  {
    match v
    case List(items) => 1 + DepthOf(items)
    case _ => 0
  }

  function DepthOf(items: seq<Value>): nat
    decreases items
  {
    if items == [] then 0
    else if Depth(items[0]) >= DepthOf(items[1..]) then Depth(items[0]) else DepthOf(items[1..])
  }

  function Nested(n: nat): (v: Value)
    ensures Depth(v) == n + 1
  {
    if n == 0 then List([])
    else
      var inner := Nested(n - 1);
      assert [inner][1..] == [];
      assert DepthOf([inner]) == Depth(inner);
      List([inner])
  }

  lemma {:induction false} DeeperIsNew(v: Value, items: seq<Value>)
    requires Depth(v) > DepthOf(items)
    ensures v !in items
  {
    if items != [] { DeeperIsNew(v, items[1..]); }
  }

  /** A key that a map does not hold. */
  lemma NewKey(m: Fields) returns (k: string)
    ensures k !in m
  {
    k := Longer(m.Keys);
  }

  ghost function Longer(keys: set<string>): (k: string)
    ensures forall x :: x in keys ==> |x| < |k|
    decreases keys
  {
    if keys == {} then "a"
    else
      var x :| x in keys;
      var k := Longer(keys - {x});
      if |x| < |k| then k else x + "a"
  }

  /** Where `b` does not fit under `a`, some further level tells the two readings apart. */
  lemma {:induction false} NotStackable(a: Value, b: Value) returns (c: Value)
    requires !Stackable(a, b)
    ensures MergeValue(MergeValue(a, b), c) != MergeValue(a, MergeValue(b, c))
    ensures a.Dict? ==> c.Dict?
    decreases a
  {
    match (a, b) {
      case (Dict(x), Dict(y)) =>
        var k :| k in x && k in y && !Stackable(x[k], y[k]);
        var below := NotStackable(x[k], y[k]);
        c := Dict(map[k := below]);
        FieldTells(x, y, k, below);
      case (Dict(x), _) =>
        var k := NewKey(x);
        c := Dict(map[k := Null]);
        assert k in MergeValue(MergeValue(a, b), c).fields;
      case (List(xs), _) =>
        c := ItemTells(xs, b);
    }
  }

  lemma FieldTells(x: Fields, y: Fields, k: string, below: Value)
    requires k in x && k in y
    requires MergeValue(MergeValue(x[k], y[k]), below) != MergeValue(x[k], MergeValue(y[k], below))
    ensures var c := Dict(map[k := below]);
      MergeValue(MergeValue(Dict(x), Dict(y)), c) != MergeValue(Dict(x), MergeValue(Dict(y), c))
  {
    hide MergeValue;
    var z := map[k := below];
    SharedField(x, y, k);
    SharedField(y, z, k);
    SharedField(MergeValue(Dict(x), Dict(y)).fields, z, k);
    SharedField(x, MergeValue(Dict(y), Dict(z)).fields, k);
  }

  lemma SharedField(x: Fields, y: Fields, k: string)
    requires k in x && k in y
    ensures var r := MergeValue(Dict(x), Dict(y)); r.Dict? && k in r.fields && r.fields[k] == MergeValue(x[k], y[k])
  {
  }

  lemma ItemTells(xs: seq<Value>, b: Value) returns (c: Value)
    requires !b.List?
    ensures MergeValue(MergeValue(List(xs), b), c) != MergeValue(List(xs), MergeValue(b, c))
  {
    var n := Nested(DepthOf(xs + [b]));
    DeeperIsNew(n, xs + [b]);
    assert b in xs + [b];
    c := List([n]);
    assert n in MergeValue(MergeValue(List(xs), b), c).items;
    assert MergeValue(List(xs), MergeValue(b, c)) == List(Union(xs, [b]));
  }

  /**
    Merging levels is associative exactly when no container of the lower level hides a value of another
    kind: only then does it not matter whether the middle level is merged downwards or upwards first.
   */
  lemma MergeAssociativeIff(a: Value, b: Value)
    ensures (forall c :: MergeValue(MergeValue(a, b), c) == MergeValue(a, MergeValue(b, c))) <==> Stackable(a, b)
  {
    if Stackable(a, b) {
      forall c ensures MergeValue(MergeValue(a, b), c) == MergeValue(a, MergeValue(b, c)) { MergeAssociative(a, b, c); }
    } else {
      var c := NotStackable(a, b);
    }
  }

  lemma MergeNothing(m: Fields)
    ensures MergeView(m, map[]) == m && MergeView(map[], m) == m
  {
  }

  lemma MergeViewAssociative(a: Fields, b: Fields, c: Fields)
    requires Stackable(Dict(a), Dict(b))
    ensures MergeView(MergeView(a, b), c) == MergeView(a, MergeView(b, c))
  {
    MergeAssociative(Dict(a), Dict(b), Dict(c));
  }

  lemma InheritedFirst(result: Fields, chain: seq<Fields>)
    ensures InheritedView(result, chain)
         == if chain == [] then result else InheritedView(MergeView(result, chain[0]), chain[1..])
  {
  }

  /** The last level is merged last. */
  lemma {:induction false} InheritedTop(result: Fields, chain: seq<Fields>, top: Fields)
    ensures InheritedView(result, chain + [top]) == MergeView(InheritedView(result, chain), top)
    decreases |chain|
  {
    hide *;
    InheritedFirst(result, chain);
    InheritedFirst(result, chain + [top]);
    if chain == [] {
      assert (chain + [top])[1..] == [];
      InheritedFirst(MergeView(result, top), []);
    } else {
      assert (chain + [top])[1..] == chain[1..] + [top];
      InheritedTop(MergeView(result, chain[0]), chain[1..], top);
    }
  }

  /** A level that fits on a merged one fits on the upper part of it. */
  lemma {:induction false} StackableUpper(a: Value, b: Value, c: Value)
    requires Stackable(a, MergeValue(b, c))
    ensures Stackable(a, b)
    decreases a
  {
    match (a, b) {
      case (Dict(x), Dict(y)) =>
        if c.Dict? {
          var m := MergeValue(b, c).fields;
          forall k | k in x && k in y ensures Stackable(x[k], y[k]) {
            assert k in m;
            if k in c.fields { StackableUpper(x[k], y[k], c.fields[k]); }
          }
        }
      case _ =>
    }
  }

  /** Local data that fits on a whole view goes over it as over its levels one by one. */
  lemma {:induction false} LocalOverView(local: Fields, above: seq<Fields>)
    requires Stackable(Dict(local), Dict(InheritedView(map[], above)))
    ensures InheritedView(local, above) == MergeView(local, InheritedView(map[], above))
    decreases |above|
  {
    hide *;
    InheritedFirst(local, above);
    InheritedFirst(map[], above);
    MergeNothing(local);
    if above != [] {
      var n := |above| - 1;
      var below, top := above[..n], above[n];
      assert above == below + [top];
      InheritedTop(local, below, top);
      InheritedTop(map[], below, top);
      FitsOnPart(local, InheritedView(map[], below), top);
      LocalOverView(local, below);
      MergeViewAssociative(local, InheritedView(map[], below), top);
    }
  }

  lemma FitsOnPart(local: Fields, view: Fields, top: Fields)
    requires Stackable(Dict(local), Dict(MergeView(view, top)))
    ensures Stackable(Dict(local), Dict(view))
  {
    StackableUpper(Dict(local), Dict(view), Dict(top));
  }

  /** Local data first, then the levels above: the loop starts from nothing. */
  lemma LocalFirst(local: Fields, above: seq<Fields>)
    ensures InheritedView(map[], [local] + above) == InheritedView(local, above)
  {
    MergeNothing(local);
    assert ([local] + above)[1..] == above;
  }

  /** Whether the local data goes over the view of its parent, for this level at the top of the chain. */
  predicate LocalOverParent(local: Fields, above: seq<Fields>, top: Fields) {
    InheritedView(map[], [local] + above + [top]) == MergeView(local, InheritedView(map[], above + [top]))
  }

  lemma LocalOverParentMeans(local: Fields, above: seq<Fields>, top: Fields)
    ensures LocalOverParent(local, above, top) <==>
      MergeView(InheritedView(local, above), top) == MergeView(local, MergeView(InheritedView(map[], above), top))
  {
    assert [local] + above + [top] == [local] + (above + [top]);
    LocalFirst(local, above + [top]);
    InheritedTop(local, above, top);
    InheritedTop(map[], above, top);
    hide InheritedView, MergeView;
  }

  /**
    The inherited view is a chain merge: what the loop computes from the object outwards is the local data
    over the parent's own view, whatever the last level of the chain, exactly when no container of the local
    data hides a value of another kind in the view of the levels between. With a single parent there are none.
   */
  lemma ViewIsLocalOverParentIff(local: Fields, above: seq<Fields>)
    ensures (forall top: Fields :: LocalOverParent(local, above, top))
      <==> Stackable(Dict(local), Dict(InheritedView(map[], above)))
    ensures above == [] ==> Stackable(Dict(local), Dict(InheritedView(map[], above)))
  {
    var view := InheritedView(map[], above);
    if Stackable(Dict(local), Dict(view)) {
      forall top: Fields ensures LocalOverParent(local, above, top) {
        LocalOverParentMeans(local, above, top);
        LocalOverView(local, above);
        MergeViewAssociative(local, view, top);
      }
    } else {
      var top := TellsApart(local, above);
    }
  }

  /** Where the local data does not fit, some last level tells the two readings apart. */
  lemma TellsApart(local: Fields, above: seq<Fields>) returns (top: Fields)
    requires !Stackable(Dict(local), Dict(InheritedView(map[], above)))
    ensures !LocalOverParent(local, above, top)
  {
    hide InheritedView, Stackable, LocalOverParent;
    var view := InheritedView(map[], above);
    if InheritedView(local, above) == MergeView(local, view) {
      var c := NotStackable(Dict(local), Dict(view));
      top := c.fields;
    } else {
      top := map[];
      MergeNothing(InheritedView(local, above));
      MergeNothing(view);
    }
    LocalOverParentMeans(local, above, top);
  }

  /** Each level fits on the view of the levels between it and the last one. */
  predicate Fits(chain: seq<Fields>)
    decreases |chain|
  {
    |chain| <= 1 ||
    (Stackable(Dict(chain[0]), Dict(InheritedView(map[], chain[1..|chain| - 1]))) && Fits(chain[1..]))
  }

  /** Then the view is the levels laid one over the other, from the last one inwards. */
  lemma {:induction false} ViewIsLayered(chain: seq<Fields>)
    requires Fits(chain)
    ensures InheritedView(map[], chain) == LayeredView(chain)
    decreases |chain|
  {
    if |chain| == 1 {
      assert chain == [chain[0]] && chain[1..] == [];
      MergeNothing(chain[0]);
    } else if |chain| > 1 {
      var local, above, top := chain[0], chain[1..|chain| - 1], chain[|chain| - 1];
      assert chain == [local] + above + [top] && chain[1..] == above + [top];
      ViewIsLocalOverParentIff(local, above);
      ViewIsLayered(chain[1..]);
      assert LocalOverParent(local, above, top);
    }
  }

  /** Levels that fit in pairs fit on each other's views. */
  lemma {:induction false} PairsFit(chain: seq<Fields>)
    requires forall i, j :: 0 <= i < j < |chain| - 1 ==> Stackable(Dict(chain[i]), Dict(chain[j]))
    ensures Fits(chain)
    decreases |chain|
  {
    if |chain| > 1 {
      var rest, above := chain[1..], chain[1..|chain| - 1];
      forall i, j | 0 <= i < j < |rest| - 1 ensures Stackable(Dict(rest[i]), Dict(rest[j])) {
        assert rest[i] == chain[i + 1] && rest[j] == chain[j + 1];
      }
      PairsFit(rest);
      forall j | 0 <= j < |above| ensures Stackable(Dict(chain[0]), Dict(above[j])) {
        assert above[j] == chain[j + 1];
      }
      FitsOnAll(chain[0], above);
    }
  }

  lemma {:induction false} FitsOnAll(local: Fields, above: seq<Fields>)
    requires forall j :: 0 <= j < |above| ==> Stackable(Dict(local), Dict(above[j]))
    ensures Stackable(Dict(local), Dict(InheritedView(map[], above)))
    decreases |above|
  {
    if above != [] {
      var n := |above| - 1;
      assert above == above[..n] + [above[n]];
      FitsOnAll(local, above[..n]);
      InheritedTop(map[], above[..n], above[n]);
      StackableOnMerge(Dict(local), Dict(InheritedView(map[], above[..n])), Dict(above[n]));
    }
  }

  lemma {:induction false} StackableOnMerge(a: Value, b: Value, c: Value)
    requires Stackable(a, b) && Stackable(a, c)
    ensures Stackable(a, MergeValue(b, c))
    decreases a
  {
    if a.Dict? && b.Dict? && c.Dict? {
      var m := MergeValue(b, c).fields;
      forall k | k in a.fields && k in m ensures Stackable(a.fields[k], m[k]) {
        if k in b.fields && k in c.fields { StackableOnMerge(a.fields[k], b.fields[k], c.fields[k]); }
      }
    }
  }

  // Recursive merge of a partial mapping (lines 226-270 and 305-313).

  /** `_set_item` where `was` stands. */
  function SetItem(was: Value, value: Value): Value
    decreases value
  {
    match (was, value)
    case (Dict(m), Dict(n)) =>
      Dict(map k | k in m.Keys + n.Keys :: if k !in m then n[k] else if k !in n then m[k] else SetItem(m[k], n[k]))
    case (List(xs), List(ys)) => List(Union(xs, ys))
    case (List(xs), v) => List(Union(xs, [v]))
    case (_, v) => v
  }

  lemma {:induction false} SetItself(v: Value)
    ensures SetItem(v, v) == v
    decreases v
  {
    match v
    case Dict(m) =>
      var r := SetItem(v, v).fields;
      forall k | k in m ensures r[k] == m[k] { SetItself(m[k]); }
      assert r.Keys == m.Keys;
    case List(xs) => UnionContained(xs, xs);
    case _ =>
  }

  /** Merging the same value a second time changes nothing, whatever kinds meet. */
  lemma {:induction false} SetItemIdempotent(was: Value, v: Value)
    ensures SetItem(SetItem(was, v), v) == SetItem(was, v)
    decreases v
  {
    match (was, v) {
      case (Dict(m), Dict(n)) =>
        var once := SetItem(was, v).fields;
        var twice := SetItem(Dict(once), v).fields;
        forall k | k in once ensures twice[k] == once[k] {
          if k in n {
            if k in m { SetItemIdempotent(m[k], n[k]); } else { SetItself(n[k]); }
          }
        }
        assert twice.Keys == once.Keys;
      case (List(xs), List(ys)) =>
        UnionContained(Union(xs, ys), ys);
      case (List(xs), _) =>
        UnionContained(Union(xs, [v]), [v]);
      case _ =>
        SetItself(v);
    }
  }

  // Dotted paths (lines 166-198, 272-294 and 376-394). A path is the list of its parts.

  type Path = p: seq<string> | p != [] witness ["k"]

  function GetIn(v: Value, path: seq<string>): Option<Value>
    decreases |path|
  {
    if path == [] then Some(v)
    else if v.Dict? && path[0] in v.fields then GetIn(v.fields[path[0]], path[1..])
    else None
  }

  /** A path that leads somewhere passes only through dictionaries that have its next key. */
  lemma {:induction false} GetPasses(v: Value, path: seq<string>, n: nat)
    requires n < |path| && GetIn(v, path).Some?
    ensures var here := GetIn(v, path[..n]); here.Some? && here.value.Dict? && path[n] in here.value.fields
    decreases n
  {
    if n > 0 {
      assert path[..n][1..] == path[1..][..n - 1];
      GetPasses(v.fields[path[0]], path[1..], n - 1);
    }
  }

  /** How a write places its value: it covers what is there, or merges into it. */
  function Place(was: Value, value: Value, cover: bool): Value {
    if cover then value else SetItem(was, value)
  }

  /**
    The walk of a dotted write from `at` on, with the state it leaves behind and whether it raised. Missing
    dictionaries are created on the way, so a walk that raises could have changed something.
   */
  function Walk(at: Value, path: Path, value: Value, cover: bool): (r: (Value, bool))
    decreases |path|
  {
    if !at.Dict? then (at, true)
    else
      var made := if path[0] in at.fields then at.fields else at.fields[path[0] := Dict(map[])];
      if |path| == 1 then (Dict(made[path[0] := Place(made[path[0]], value, cover)]), false)
      else
        var below := Walk(made[path[0]], path[1..], value, cover);
        (Dict(made[path[0] := below.0]), below.1)
  }

  predicate Raises(at: Value, path: Path) { Walk(at, path, Null, true).1 }

  lemma {:induction false} RaisesAlike(at: Value, path: Path, v: Value, w: Value, c: bool, d: bool)
    ensures Walk(at, path, v, c).1 == Walk(at, path, w, d).1
    decreases |path|
  {
    if at.Dict? && |path| > 1 {
      var made := if path[0] in at.fields then at.fields else at.fields[path[0] := Dict(map[])];
      RaisesAlike(made[path[0]], path[1..], v, w, c, d);
    }
  }

  /** A write raises exactly when some proper prefix of its path holds something that is no dictionary. */
  lemma {:induction false} RaisesIff(at: Value, path: Path)
    ensures Raises(at, path) <==>
            exists n :: 0 <= n < |path| && GetIn(at, path[..n]).Some? && !GetIn(at, path[..n]).value.Dict?
    decreases |path|
  {
    assert path[..0] == [];
    if at.Dict? {
      var rest := path[1..];
      forall n | 0 < n < |path|
        ensures GetIn(at, path[..n]) ==
          if path[0] in at.fields then GetIn(at.fields[path[0]], rest[..n - 1]) else None
      {
        assert path[..n][1..] == rest[..n - 1];
      }
      if |path| > 1 {
        if path[0] in at.fields {
          RaisesIff(at.fields[path[0]], rest);
          if Raises(at.fields[path[0]], rest) {
            var n :| 0 <= n < |rest| && GetIn(at.fields[path[0]], rest[..n]).Some?
              && !GetIn(at.fields[path[0]], rest[..n]).value.Dict?;
            assert GetIn(at, path[..n + 1]) == GetIn(at.fields[path[0]], rest[..n]);
          }
        } else {
          NeverRaisesInNew(rest);
        }
      }
    } else {
      assert GetIn(at, path[..0]) == Some(at);
    }
  }

  lemma {:induction false} NeverRaisesInNew(path: Path)
    ensures !Raises(Dict(map[]), path)
    decreases |path|
  {
    if |path| > 1 { NeverRaisesInNew(path[1..]); }
  }

  /** A write that raises has changed nothing. */
  lemma {:induction false} RaisedChangedNothing(at: Value, path: Path, value: Value, cover: bool)
    requires Walk(at, path, value, cover).1
    ensures Walk(at, path, value, cover).0 == at
    decreases |path|
  {
    if at.Dict? && |path| > 1 {
      if path[0] in at.fields {
        RaisedChangedNothing(at.fields[path[0]], path[1..], value, cover);
        assert at.fields[path[0] := at.fields[path[0]]] == at.fields;
      } else {
        NeverRaisesInNew(path[1..]);
        RaisesAlike(Dict(map[]), path[1..], value, Null, cover, true);
      }
    }
  }

  /** What stood at a path, as a merging write sees it: a missing value is created as an empty dictionary. */
  function Before(at: Value, path: Path): Value {
    match GetIn(at, path)
    case Some(v) => v
    case None => Dict(map[])
  }

  /** Get after set: the path holds what was placed there. */
  lemma {:induction false} GetAfterSet(at: Value, path: Path, value: Value, cover: bool)
    requires !Walk(at, path, value, cover).1
    ensures GetIn(Walk(at, path, value, cover).0, path) == Some(Place(Before(at, path), value, cover))
    decreases |path|
  {
    var made := if path[0] in at.fields then at.fields else at.fields[path[0] := Dict(map[])];
    var after := Walk(at, path, value, cover).0;
    if |path| == 1 {
      assert path[1..] == [];
      assert GetIn(after, path) == GetIn(after.fields[path[0]], []) == Some(after.fields[path[0]]);
      assert GetIn(at, path) == if path[0] in at.fields then Some(at.fields[path[0]]) else None;
      assert made[path[0]] == Before(at, path);
    } else {
      GetAfterSet(made[path[0]], path[1..], value, cover);
      assert GetIn(after, path) == GetIn(after.fields[path[0]], path[1..]);
    }
  }

  // Writing step by step: what a walk does below the place it has reached.

  /** `at` with `x` where `path` leads. */
  function PutIn(at: Value, path: seq<string>, x: Value): Value
    requires GetIn(at, path).Some?
    decreases |path|
  {
    if path == [] then x else Dict(at.fields[path[0] := PutIn(at.fields[path[0]], path[1..], x)])
  }

  lemma {:induction false} PutInSame(at: Value, path: seq<string>)
    requires GetIn(at, path).Some?
    ensures PutIn(at, path, GetIn(at, path).value) == at
    decreases |path|
  {
    if path != [] {
      PutInSame(at.fields[path[0]], path[1..]);
      assert at.fields[path[0] := at.fields[path[0]]] == at.fields;
    }
  }

  lemma {:induction false} PutInTwice(at: Value, path: seq<string>, x: Value, y: Value)
    requires GetIn(at, path).Some?
    ensures GetIn(PutIn(at, path, x), path) == Some(x) && PutIn(PutIn(at, path, x), path, y) == PutIn(at, path, y)
    decreases |path|
  {
    if path != [] {
      PutInTwice(at.fields[path[0]], path[1..], x, y);
      var once := at.fields[path[0] := PutIn(at.fields[path[0]], path[1..], x)];
      assert once[path[0] := PutIn(at.fields[path[0]], path[1..], y)]
        == at.fields[path[0] := PutIn(at.fields[path[0]], path[1..], y)];
    }
  }

  /** A walk that has reached `path[..n]` only has the rest to do there. */
  lemma {:induction false} WalkFrom(at: Value, path: Path, n: nat, value: Value, cover: bool)
    requires n < |path| && GetIn(at, path[..n]).Some?
    ensures var below := Walk(GetIn(at, path[..n]).value, path[n..], value, cover);
            Walk(at, path, value, cover) == (PutIn(at, path[..n], below.0), below.1)
    decreases n
  {
    if n == 0 {
      assert path[..0] == [] && path[0..] == path;
    } else {
      var rest := path[1..];
      assert path[..n][0] == path[0] && path[..n][1..] == rest[..n - 1] && rest[n - 1..] == path[n..];
      WalkFrom(at.fields[path[0]], rest, n - 1, value, cover);
    }
  }

  /** Creating the next dictionary ahead of the walk makes no difference to it. */
  lemma WalkCreates(at: Value, path: Path, n: nat, value: Value, cover: bool)
    requires n < |path| && GetIn(at, path[..n]).Some? && GetIn(at, path[..n]).value.Dict?
    requires path[n] !in GetIn(at, path[..n]).value.fields
    ensures var here := GetIn(at, path[..n]).value.fields;
            Walk(PutIn(at, path[..n], Dict(here[path[n] := Dict(map[])])), path, value, cover)
              == Walk(at, path, value, cover)
  {
    var here := GetIn(at, path[..n]).value;
    var made := Dict(here.fields[path[n] := Dict(map[])]);
    PutInTwice(at, path[..n], made, Walk(made, path[n..], value, cover).0);
    WalkFrom(at, path, n, value, cover);
    WalkFrom(PutIn(at, path[..n], made), path, n, value, cover);
    assert path[n..][0] == path[n];
  }

  predicate Apart(p: seq<string>, q: seq<string>) { !(p <= q) && !(q <= p) }

  lemma ApartTail(p: Path, q: Path)
    requires Apart(p, q) && p[0] == q[0]
    ensures p[1..] != [] && q[1..] != [] && Apart(p[1..], q[1..])
  {
    assert p == [p[0]] + p[1..] && q == [q[0]] + q[1..];
  }

  /** The frame: a write leaves every path that neither prefixes nor extends it as it was. */
  lemma {:induction false} SetFrame(at: Value, path: Path, value: Value, cover: bool, other: seq<string>)
    requires Apart(path, other)
    ensures GetIn(Walk(at, path, value, cover).0, other) == GetIn(at, other)
    decreases |path|
  {
    if Walk(at, path, value, cover).1 {
      RaisedChangedNothing(at, path, value, cover);
      return;
    }
    var made := if path[0] in at.fields then at.fields else at.fields[path[0] := Dict(map[])];
    if other[0] == path[0] {
      ApartTail(path, other);
      SetFrame(made[path[0]], path[1..], value, cover, other[1..]);
      if path[0] !in at.fields { assert GetIn(Dict(map[]), other[1..]) == None; }
    }
  }

  /** `__delitem__` with a dotted key. */
  function Deleted(at: Value, path: Path): Value
    decreases |path|
  {
    if !at.Dict? || path[0] !in at.fields then at
    else if |path| == 1 then Dict(at.fields - {path[0]})
    else Dict(at.fields[path[0] := Deleted(at.fields[path[0]], path[1..])])
  }

  lemma {:induction false} GetAfterDelete(at: Value, path: Path)
    ensures GetIn(Deleted(at, path), path) == None
    decreases |path|
  {
    if at.Dict? && path[0] in at.fields && |path| > 1 { GetAfterDelete(at.fields[path[0]], path[1..]); }
  }

  /** A deletion that has reached `path[..n]` only has the rest to do there. */
  lemma {:induction false} DeleteFrom(at: Value, path: Path, n: nat)
    requires n < |path| && GetIn(at, path[..n]).Some?
    ensures Deleted(at, path) == PutIn(at, path[..n], Deleted(GetIn(at, path[..n]).value, path[n..]))
    decreases n
  {
    if n == 0 {
      assert path[..0] == [] && path[0..] == path;
    } else {
      var rest := path[1..];
      assert path[..n][0] == path[0] && path[..n][1..] == rest[..n - 1] && rest[n - 1..] == path[n..];
      DeleteFrom(at.fields[path[0]], rest, n - 1);
    }
  }

  /** Deleting leaves every path that does not extend the deleted one, and is no prefix of it, as it was. */
  lemma {:induction false} DeleteFrame(at: Value, path: Path, other: seq<string>)
    requires Apart(path, other)
    ensures GetIn(Deleted(at, path), other) == GetIn(at, other)
    decreases |path|
  {
    if at.Dict? && path[0] in at.fields && other[0] == path[0] {
      ApartTail(path, other);
      DeleteFrame(at.fields[path[0]], path[1..], other[1..]);
    }
  }

  // Updates with several entries, some of them dotted, in order; the first write that raises stops them.

  datatype Entry = Entry(path: Path, value: Value)

  function UpdateAll(at: Value, entries: seq<Entry>): (r: (Value, bool))
    decreases |entries|
  {
    if entries == [] then (at, false)
    else
      var one := Walk(at, entries[0].path, entries[0].value, false);
      if one.1 then one else UpdateAll(one.0, entries[1..])
  }

  predicate ApartEntries(entries: seq<Entry>) {
    forall i, j :: 0 <= i < j < |entries| ==> Apart(entries[i].path, entries[j].path)
  }

  /** An entry has nothing left to do: its path holds a value that absorbs it. */
  predicate Absorbed(at: Value, e: Entry) {
    match GetIn(at, e.path)
    case None => false
    case Some(v) => SetItem(v, e.value) == v
  }

  lemma {:induction false} AbsorbedIsNoop(at: Value, path: Path, value: Value)
    requires GetIn(at, path).Some? && SetItem(GetIn(at, path).value, value) == GetIn(at, path).value
    ensures Walk(at, path, value, false) == (at, false)
    decreases |path|
  {
    if |path| == 1 {
      assert path[1..] == [];
      assert GetIn(at, path) == Some(at.fields[path[0]]);
    } else {
      AbsorbedIsNoop(at.fields[path[0]], path[1..], value);
    }
    assert at.fields[path[0] := at.fields[path[0]]] == at.fields;
  }

  lemma {:induction false} AllAbsorbedIsNoop(at: Value, entries: seq<Entry>)
    requires forall e :: e in entries ==> Absorbed(at, e)
    ensures UpdateAll(at, entries) == (at, false)
    decreases |entries|
  {
    if entries != [] {
      assert Absorbed(at, entries[0]);
      AbsorbedIsNoop(at, entries[0].path, entries[0].value);
      AllAbsorbedIsNoop(at, entries[1..]);
    }
  }

  /** Entries on paths apart from a given one leave it alone. */
  lemma {:induction false} UpdateFrame(at: Value, entries: seq<Entry>, other: seq<string>)
    requires forall e :: e in entries ==> Apart(e.path, other)
    ensures GetIn(UpdateAll(at, entries).0, other) == GetIn(at, other)
    decreases |entries|
  {
    if entries != [] {
      var one := Walk(at, entries[0].path, entries[0].value, false);
      assert entries[0] in entries;
      SetFrame(at, entries[0].path, entries[0].value, false, other);
      if !one.1 { UpdateFrame(one.0, entries[1..], other); }
    }
  }

  lemma {:induction false} UpdatedIsAbsorbed(at: Value, entries: seq<Entry>, e: Entry)
    requires ApartEntries(entries) && !UpdateAll(at, entries).1 && e in entries
    ensures Absorbed(UpdateAll(at, entries).0, e)
    decreases |entries|
  {
    var first, rest := entries[0], entries[1..];
    var one := Walk(at, first.path, first.value, false);
    if e == first {
      GetAfterSet(at, e.path, e.value, false);
      SetItemIdempotent(Before(at, e.path), e.value);
      forall other | other in rest ensures Apart(other.path, e.path) {
        var j :| 0 <= j < |rest| && rest[j] == other;
        assert entries[j + 1] == other && Apart(entries[0].path, entries[j + 1].path);
      }
      UpdateFrame(one.0, rest, e.path);
    } else {
      forall i, j | 0 <= i < j < |rest| ensures Apart(rest[i].path, rest[j].path) {
        assert Apart(entries[i + 1].path, entries[j + 1].path);
      }
      UpdatedIsAbsorbed(one.0, rest, e);
    }
  }

  lemma {:induction false} UpdateJoin(at: Value, a: seq<Entry>, b: seq<Entry>)
    ensures UpdateAll(at, a + b) == if UpdateAll(at, a).1 then UpdateAll(at, a) else UpdateAll(UpdateAll(at, a).0, b)
    decreases |a|
  {
    if a == [] {
      assert a + b == b;
    } else {
      assert (a + b)[1..] == a[1..] + b;
      UpdateJoin(Walk(at, a[0].path, a[0].value, false).0, a[1..], b);
    }
  }

  /** An update that raises does so at some entry, and has carried out the ones before it. */
  lemma {:induction false} FirstRaise(at: Value, entries: seq<Entry>) returns (n: nat)
    requires UpdateAll(at, entries).1
    ensures n < |entries| && !UpdateAll(at, entries[..n]).1
    ensures Walk(UpdateAll(at, entries[..n]).0, entries[n].path, entries[n].value, false) == UpdateAll(at, entries)
    decreases |entries|
  {
    var one := Walk(at, entries[0].path, entries[0].value, false);
    if one.1 {
      n := 0;
      assert entries[..0] == [];
    } else {
      var m := FirstRaise(one.0, entries[1..]);
      n := m + 1;
      assert entries[..n][0] == entries[0] && entries[..n][1..] == entries[1..][..m];
    }
  }

  lemma {:induction false} SecondPass(at: Value, entries: seq<Entry>)
    requires ApartEntries(entries) && !UpdateAll(at, entries).1
    ensures UpdateAll(UpdateAll(at, entries).0, entries) == UpdateAll(at, entries)
  {
    var after := UpdateAll(at, entries).0;
    forall e | e in entries ensures Absorbed(after, e) { UpdatedIsAbsorbed(at, entries, e); }
    AllAbsorbedIsNoop(after, entries);
  }

  /**
    `update` is idempotent when no key's path extends another's: applying the same mapping twice leaves the
    state, and gives the answer, of applying it once, through every mismatch of kinds, for dotted and plain
    keys alike, and also when it raises on the way.
   */
  lemma UpdateIdempotent(at: Value, entries: seq<Entry>)
    requires ApartEntries(entries)
    ensures UpdateAll(UpdateAll(at, entries).0, entries) == UpdateAll(at, entries)
  {
    if !UpdateAll(at, entries).1 {
      SecondPass(at, entries);
    } else {
      var n := FirstRaise(at, entries);
      var done, last := entries[..n], entries[n];
      var after := UpdateAll(at, done).0;
      forall i, j | 0 <= i < j < |done| ensures Apart(done[i].path, done[j].path) {
        assert done[i] == entries[i] && done[j] == entries[j];
      }
      RaisedChangedNothing(after, last.path, last.value, false);
      SecondPass(at, done);
      UpdateJoin(after, done, entries[n..]);
      assert done + entries[n..] == entries && entries[n..][0] == last;
    }
  }

  lemma SameLengthApart(p: Path, q: Path)
    requires |p| == |q| && p != q
    ensures Apart(p, q)
  {
    assert p == p[..|q|] && q == q[..|p|];
  }

  lemma {:induction false} PlainKeysNeverRaise(at: Value, entries: seq<Entry>)
    requires at.Dict? && forall e :: e in entries ==> |e.path| == 1
    ensures !UpdateAll(at, entries).1
    decreases |entries|
  {
    if entries != [] {
      assert entries[0] in entries;
      PlainKeysNeverRaise(Walk(at, entries[0].path, entries[0].value, false).0, entries[1..]);
    }
  }

  /** A mapping without dotted keys: no condition is left. */
  lemma PlainUpdateIdempotent(at: Value, entries: seq<Entry>)
    requires at.Dict? && forall e :: e in entries ==> |e.path| == 1
    requires forall i, j :: 0 <= i < j < |entries| ==> entries[i].path != entries[j].path
    ensures UpdateAll(UpdateAll(at, entries).0, entries) == UpdateAll(at, entries) && !UpdateAll(at, entries).1
  {
    PlainKeysNeverRaise(at, entries);
    forall i, j | 0 <= i < j < |entries| ensures Apart(entries[i].path, entries[j].path) {
      assert entries[i] in entries && entries[j] in entries;
      SameLengthApart(entries[i].path, entries[j].path);
    }
    UpdateIdempotent(at, entries);
  }

  /** With keys that extend each other it fails: the second pass can even raise. */
  lemma OverlappingKeysBreakUpdate()
    ensures var entries := [Entry(["a", "b"], Atom("1")), Entry(["a"], Atom("2"))];
            var once := UpdateAll(Dict(map[]), entries);
            !once.1 && UpdateAll(once.0, entries).1
  {
    var entries := [Entry(["a", "b"], Atom("1")), Entry(["a"], Atom("2"))];
    var none: Fields := map[];
    assert ["a", "b"][1..] == ["b"];
    var inner := none["b" := Dict(none)]["b" := Atom("1")];
    assert Walk(Dict(none), ["b"], Atom("1"), false) == (Dict(inner), false);
    var first := none["a" := Dict(none)]["a" := Dict(inner)];
    assert Walk(Dict(none), ["a", "b"], Atom("1"), false) == (Dict(first), false);
    var second := first["a" := Atom("2")];
    assert Walk(Dict(first), ["a"], Atom("2"), false) == (Dict(second), false);
    assert entries[1..] == [entries[1]] && entries[1..][1..] == [];
    assert UpdateAll(Dict(first), [entries[1]]) == (Dict(second), false);
    assert Walk(Atom("2"), ["b"], Atom("1"), false).1;
    assert Walk(Dict(second), ["a", "b"], Atom("1"), false).1;
  }
}
