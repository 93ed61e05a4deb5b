/**
  The nested dictionaries and lists of the state store as objects that are updated in place
  (agently/utils/StateData.py:95-147 and 226-270). A ghost shape records which object stands where; what a
  shape stands for is a value of StateValues.
 */
module StateStore {
  import V = StateValues

  class DictObj {
    var fields: map<string, Ref>

    constructor (fields: map<string, Ref>)
      ensures this.fields == fields
    {
      this.fields := fields;
    }
  }

  class ListObj {
    var items: seq<Ref>

    constructor (items: seq<Ref>)
      ensures this.items == items
    {
      this.items := items;
    }
  }

  datatype Ref = AtomRef(repr: string) | NullRef | DictAt(dict: DictObj) | ListAt(list: ListObj)

  /** A container's `foot` holds its own object and the feet of its parts. */
  datatype Shape =
    | AtomShape(repr: string)
    | NullShape
    | DictShape(dict: DictObj, foot: set<object>, parts: map<string, Shape>)
    | ListShape(list: ListObj, foot: set<object>, items: seq<Shape>)

  ghost function RefOf(s: Shape): Ref {
    match s
    case AtomShape(repr) => AtomRef(repr)
    case NullShape => NullRef
    case DictShape(dict, _, _) => DictAt(dict)
    case ListShape(list, _, _) => ListAt(list)
  }

  ghost function Foot(s: Shape): set<object> {
    match s
    case DictShape(_, foot, _) => foot
    case ListShape(_, foot, _) => foot
    case _ => {}
  }

  /** No object stands at two places. */
  ghost predicate Tree(s: Shape)
    decreases s
  {
    match s
    case DictShape(dict, foot, parts) =>
      && dict in foot
      && (forall k :: k in parts ==> Tree(parts[k]) && Foot(parts[k]) <= foot - {dict})
      && forall k, l :: k in parts && l in parts && k != l ==> Foot(parts[k]) !! Foot(parts[l])
    case ListShape(list, foot, items) =>
      && list in foot
      && (forall i :: 0 <= i < |items| ==> Tree(items[i]) && Foot(items[i]) <= foot - {list})
      && forall i, j :: 0 <= i < j < |items| ==> Foot(items[i]) !! Foot(items[j])
    case _ => true
  }

  /** The heap agrees with the shape. */
  ghost predicate Good(s: Shape)
    requires Tree(s)
    reads Foot(s)
    decreases s
  {
    match s
    case DictShape(dict, _, parts) =>
      && dict.fields.Keys == parts.Keys
      && forall k :: k in parts ==> dict.fields[k] == RefOf(parts[k]) && Good(parts[k])
    case ListShape(list, _, items) =>
      && |list.items| == |items|
      && forall i :: 0 <= i < |items| ==> list.items[i] == RefOf(items[i]) && Good(items[i])
    case _ => true
  }

  /** The value a shape stands for. */
  ghost function ValueOf(s: Shape): V.Value
    decreases s
  {
    match s
    case AtomShape(repr) => V.Atom(repr)
    case NullShape => V.Null
    case DictShape(_, _, parts) => V.Dict(map k | k in parts :: ValueOf(parts[k]))
    case ListShape(_, _, items) => V.List(seq(|items|, i requires 0 <= i < |items| => ValueOf(items[i])))
  }

  ghost function FieldsOf(parts: map<string, Shape>): (r: V.Fields)
    ensures r.Keys == parts.Keys && forall k :: k in parts ==> r[k] == ValueOf(parts[k])
  {
    map k | k in parts :: ValueOf(parts[k])
  }

  ghost function ValuesOf(items: seq<Shape>): (r: seq<V.Value>)
    ensures |r| == |items| && forall i :: 0 <= i < |items| ==> r[i] == ValueOf(items[i])
  {
    seq(|items|, i requires 0 <= i < |items| => ValueOf(items[i]))
  }

  lemma ValueParts(s: Shape)
    ensures s.AtomShape? ==> ValueOf(s) == V.Atom(s.repr)
    ensures s.NullShape? ==> ValueOf(s) == V.Null
    ensures s.DictShape? ==> ValueOf(s) == V.Dict(FieldsOf(s.parts))
    ensures s.ListShape? ==> ValueOf(s) == V.List(ValuesOf(s.items))
  {
    if s.DictShape? { assert ValueOf(s).fields == FieldsOf(s.parts); }
    if s.ListShape? { assert ValueOf(s).items == ValuesOf(s.items); }
  }

  /** `r` holds, in this heap, a value of this shape. */
  ghost predicate Holds(r: Ref, s: Shape)
    reads Foot(s)
  {
    r == RefOf(s) && Tree(s) && Good(s)
  }

  /** Entries that hold their parts inside `foot`, with no object in two of them. */
  ghost predicate FieldsHold(fields: map<string, Ref>, parts: map<string, Shape>, foot: set<object>)
    reads foot
  {
    && fields.Keys == parts.Keys
    && (forall k :: k in parts ==> Foot(parts[k]) <= foot && Holds(fields[k], parts[k]))
    && forall k, l :: k in parts && l in parts && k != l ==> Foot(parts[k]) !! Foot(parts[l])
  }

  ghost predicate ItemsHold(refs: seq<Ref>, items: seq<Shape>, foot: set<object>)
    reads foot
  {
    && |refs| == |items|
    && (forall i :: 0 <= i < |items| ==> Foot(items[i]) <= foot && Holds(refs[i], items[i]))
    && forall i, j :: 0 <= i < j < |items| ==> Foot(items[i]) !! Foot(items[j])
  }

  lemma Kinds(r: Ref, s: Shape)
    requires Holds(r, s)
    ensures r == RefOf(s)
    ensures r.DictAt? <==> s.DictShape?
    ensures r.ListAt? <==> s.ListShape?
    ensures r.AtomRef? <==> s.AtomShape?
    ensures r.NullRef? <==> s.NullShape?
    ensures r.DictAt? ==> r.dict == s.dict && Foot(s) == s.foot
    ensures r.ListAt? ==> r.list == s.list && Foot(s) == s.foot
    ensures !r.DictAt? && !r.ListAt? ==> Foot(s) == {}
    ensures r.AtomRef? ==> r.repr == s.repr
  {
  }

  lemma DictHolds(dict: DictObj, s: Shape)
    requires s.DictShape? && s.dict == dict
    ensures Holds(DictAt(dict), s) <==> dict in s.foot && FieldsHold(dict.fields, s.parts, s.foot - {dict})
    ensures Foot(s) == s.foot
  {
  }

  lemma ListHolds(list: ListObj, s: Shape)
    requires s.ListShape? && s.list == list
    ensures Holds(ListAt(list), s) <==> list in s.foot && ItemsHold(list.items, s.items, s.foot - {list})
    ensures Foot(s) == s.foot
  {
  }

  lemma FieldHolds(fields: map<string, Ref>, parts: map<string, Shape>, foot: set<object>, k: string)
    requires FieldsHold(fields, parts, foot)
    ensures fields.Keys == parts.Keys
    ensures k in parts ==> Holds(fields[k], parts[k]) && Foot(parts[k]) <= foot
  {
  }

  lemma ItemHolds(refs: seq<Ref>, items: seq<Shape>, foot: set<object>, i: nat)
    requires ItemsHold(refs, items, foot)
    ensures |refs| == |items|
    ensures i < |refs| ==> Holds(refs[i], items[i]) && Foot(items[i]) <= foot
  {
  }

  lemma NoFields(foot: set<object>)
    ensures FieldsHold(map[], map[], foot)
  {
  }

  lemma NoItems(foot: set<object>)
    ensures ItemsHold([], [], foot)
  {
  }

  /** Taking an entry away frees its objects. */
  lemma TakeField(fields: map<string, Ref>, parts: map<string, Shape>, foot: set<object>, k: string)
    requires FieldsHold(fields, parts, foot)
    ensures FieldsHold(fields - {k}, parts - {k}, if k in parts then foot - Foot(parts[k]) else foot)
  {
  }

  /** An entry with objects of its own can be put beside the others. */
  lemma PutField(fields: map<string, Ref>, parts: map<string, Shape>, foot: set<object>, k: string, r: Ref, s: Shape)
    requires FieldsHold(fields - {k}, parts - {k}, foot) && Holds(r, s) && foot !! Foot(s)
    ensures FieldsHold(fields[k := r], parts[k := s], foot + Foot(s))
  {
    hide Holds, Foot;
    assert fields[k := r].Keys == (fields - {k}).Keys + {k} && parts[k := s].Keys == (parts - {k}).Keys + {k};
    var fields', parts' := fields[k := r], parts[k := s];
    forall l | l in parts' ensures Foot(parts'[l]) <= foot + Foot(s) && Holds(fields'[l], parts'[l]) {
      if l != k { assert l in (parts - {k}); }
    }
    forall l, m | l in parts' && m in parts' && l != m ensures Foot(parts'[l]) !! Foot(parts'[m]) {
      assert l != k ==> l in (parts - {k});
      assert m != k ==> m in (parts - {k});
    }
  }

  lemma WiderFields(fields: map<string, Ref>, parts: map<string, Shape>, foot: set<object>, wider: set<object>)
    requires FieldsHold(fields, parts, foot) && foot <= wider
    ensures FieldsHold(fields, parts, wider)
  {
  }

  lemma PutItem(refs: seq<Ref>, items: seq<Shape>, foot: set<object>, r: Ref, s: Shape)
    requires ItemsHold(refs, items, foot) && Holds(r, s) && foot !! Foot(s)
    ensures ItemsHold(refs + [r], items + [s], foot + Foot(s))
  {
    hide Holds, Foot;
  }

  // Copies and comparisons (lines 95-112).

  /** A copy shares nothing with what it copies. */
  method Copy(r: Ref, ghost s: Shape) returns (r': Ref, ghost s': Shape)
    requires Holds(r, s)
    ensures Holds(r', s') && ValueOf(s') == ValueOf(s) && fresh(Foot(s'))
    decreases s, 1
  {
    hide *;
    Kinds(r, s);
    match r
    case AtomRef(_) => return r, s;
    case NullRef => return r, s;
    case DictAt(dict) =>
      DictHolds(dict, s);
      var fields, parts, foot := CopyFields(dict.fields, s.parts, s.foot - {dict}, s);
      var d := new DictObj(fields);
      r', s' := DictAt(d), DictShape(d, {d} + foot, parts);
      assert {d} + foot - {d} == foot;
      DictHolds(d, s');
      ValueParts(s);
      ValueParts(s');
    case ListAt(list) =>
      ListHolds(list, s);
      var items, parts, foot := CopyItems(list.items, s.items, s.foot - {list}, s);
      var l := new ListObj(items);
      r', s' := ListAt(l), ListShape(l, {l} + foot, parts);
      assert {l} + foot - {l} == foot;
      ListHolds(l, s');
      ValueParts(s);
      ValueParts(s');
  }

  method CopyFields(fields: map<string, Ref>, ghost parts: map<string, Shape>, ghost foot: set<object>, ghost s: Shape)
    returns (fields': map<string, Ref>, ghost parts': map<string, Shape>, ghost foot': set<object>)
    requires s.DictShape? && s.parts == parts && FieldsHold(fields, parts, foot)
    ensures FieldsHold(fields', parts', foot') && FieldsOf(parts') == FieldsOf(parts) && fresh(foot')
    decreases s, 0
  {
    hide *;
    fields', parts', foot' := map[], map[], {};
    NoFields({});
    var keys := fields.Keys;
    FieldHolds(fields, parts, foot, "");
    while keys != {}
      invariant keys <= fields.Keys && parts'.Keys == fields.Keys - keys && fields'.Keys == parts'.Keys
      invariant fresh(foot') && FieldsHold(fields', parts', foot')
      invariant forall k :: k in parts' ==> ValueOf(parts'[k]) == ValueOf(parts[k])
      decreases keys
    {
      var k :| k in keys;
      FieldHolds(fields, parts, foot, k);
      var c, cs := Copy(fields[k], parts[k]);
      assert fields' - {k} == fields' && parts' - {k} == parts';
      PutField(fields', parts', foot', k, c, cs);
      fields', parts', foot' := fields'[k := c], parts'[k := cs], foot' + Foot(cs);
      keys := keys - {k};
    }
  }

  method CopyItems(refs: seq<Ref>, ghost items: seq<Shape>, ghost foot: set<object>, ghost s: Shape)
    returns (refs': seq<Ref>, ghost items': seq<Shape>, ghost foot': set<object>)
    requires s.ListShape? && s.items == items && ItemsHold(refs, items, foot)
    ensures ItemsHold(refs', items', foot') && ValuesOf(items') == ValuesOf(items) && fresh(foot')
    decreases s, 0
  {
    hide *;
    refs', items', foot' := [], [], {};
    NoItems({});
    ItemHolds(refs, items, foot, 0);
    for n := 0 to |refs|
      invariant |items'| == n && fresh(foot') && ItemsHold(refs', items', foot')
      invariant forall i :: 0 <= i < n ==> ValueOf(items'[i]) == ValueOf(items[i])
    {
      ItemHolds(refs, items, foot, n);
      var c, cs := Copy(refs[n], items[n]);
      PutItem(refs', items', foot', c, cs);
      refs', items', foot' := refs' + [c], items' + [cs], foot' + Foot(cs);
    }
  }

  /** The `==` of nested values. */
  method Equal(r: Ref, ghost s: Shape, r': Ref, ghost s': Shape) returns (same: bool)
    requires Holds(r, s) && Holds(r', s')
    ensures same <==> ValueOf(s) == ValueOf(s')
    decreases s, 1
  {
    hide *;
    Kinds(r, s);
    Kinds(r', s');
    ValueParts(s);
    ValueParts(s');
    match r
    case AtomRef(_) => return r' == r;
    case NullRef => return r' == r;
    case DictAt(dict) =>
      if !r'.DictAt? { return false; }
      DictHolds(dict, s);
      DictHolds(r'.dict, s');
      same := EqualFields(dict.fields, s.parts, s.foot - {dict}, s, r'.dict.fields, s'.parts, s'.foot - {r'.dict});
    case ListAt(list) =>
      if !r'.ListAt? { return false; }
      ListHolds(list, s);
      ListHolds(r'.list, s');
      same := EqualItems(list.items, s.items, s.foot - {list}, s, r'.list.items, s'.items, s'.foot - {r'.list});
  }

  method EqualFields(fields: map<string, Ref>, ghost parts: map<string, Shape>, ghost foot: set<object>, ghost s: Shape,
                     fields': map<string, Ref>, ghost parts': map<string, Shape>, ghost foot': set<object>)
    returns (same: bool)
    requires s.DictShape? && s.parts == parts && FieldsHold(fields, parts, foot) && FieldsHold(fields', parts', foot')
    ensures same <==> FieldsOf(parts) == FieldsOf(parts')
    decreases s, 0
  {
    hide *;
    FieldHolds(fields, parts, foot, "");
    FieldHolds(fields', parts', foot', "");
    if fields.Keys != fields'.Keys { return false; }
    var keys := fields.Keys;
    while keys != {}
      invariant keys <= fields.Keys
      invariant forall k :: k in fields.Keys - keys ==> ValueOf(parts[k]) == ValueOf(parts'[k])
      decreases keys
    {
      var k :| k in keys;
      FieldHolds(fields, parts, foot, k);
      FieldHolds(fields', parts', foot', k);
      var one := Equal(fields[k], parts[k], fields'[k], parts'[k]);
      if !one {
        assert FieldsOf(parts)[k] != FieldsOf(parts')[k];
        return false;
      }
      keys := keys - {k};
    }
    return true;
  }

  method EqualItems(refs: seq<Ref>, ghost items: seq<Shape>, ghost foot: set<object>, ghost s: Shape,
                    refs': seq<Ref>, ghost items': seq<Shape>, ghost foot': set<object>)
    returns (same: bool)
    requires s.ListShape? && s.items == items && ItemsHold(refs, items, foot) && ItemsHold(refs', items', foot')
    ensures same <==> ValuesOf(items) == ValuesOf(items')
    decreases s, 0
  {
    hide *;
    ItemHolds(refs, items, foot, 0);
    ItemHolds(refs', items', foot', 0);
    if |refs| != |refs'| { return false; }
    for n := 0 to |refs|
      invariant forall i :: 0 <= i < n ==> ValueOf(items[i]) == ValueOf(items'[i])
    {
      ItemHolds(refs, items, foot, n);
      ItemHolds(refs', items', foot', n);
      var one := Equal(refs[n], items[n], refs'[n], items'[n]);
      if !one {
        assert ValuesOf(items)[n] != ValuesOf(items')[n];
        return false;
      }
    }
    return true;
  }

  /** `item in list`. */
  method Member(r: Ref, ghost s: Shape, refs: seq<Ref>, ghost items: seq<Shape>, ghost foot: set<object>)
    returns (found: bool)
    requires Holds(r, s) && ItemsHold(refs, items, foot)
    ensures found <==> ValueOf(s) in ValuesOf(items)
  {
    hide *;
    Kinds(r, s);
    ItemHolds(refs, items, foot, 0);
    for n := 0 to |refs|
      invariant forall i :: 0 <= i < n ==> ValueOf(items[i]) != ValueOf(s)
    {
      ItemHolds(refs, items, foot, n);
      var one := Equal(r, s, refs[n], items[n]);
      if one {
        assert ValuesOf(items)[n] == ValueOf(s);
        return true;
      }
    }
    return false;
  }

  // Lists that are appended to where they stand (lines 121-128 and 234-241).

  ghost predicate Grows(list: ListObj, s: Shape, s': Shape) {
    s.ListShape? && s'.ListShape? && s.list == list && s'.list == list && s.foot <= s'.foot
  }

  lemma GrowsMeans(list: ListObj, s: Shape, s': Shape)
    ensures Grows(list, s, s')
      <==> s.ListShape? && s'.ListShape? && s.list == list && s'.list == list && s.foot <= s'.foot
  {
  }

  lemma UnionOne(xs: seq<V.Value>, y: V.Value)
    ensures V.Union(xs, [y]) == if y in xs then xs else xs + [y]
  {
    assert [y][1..] == [];
  }

  lemma UnionNext(xs: seq<V.Value>, ys: seq<V.Value>, n: nat)
    requires n < |ys|
    ensures V.Union(xs, ys[n..]) == V.Union(V.Union(xs, [ys[n]]), ys[n + 1..])
  {
    assert ys[n..][1..] == ys[n + 1..];
    UnionOne(xs, ys[n]);
  }

  /** `if item not in list: list.append(copy(item))` */
  method AppendMissing(list: ListObj, ghost s: Shape, r: Ref, ghost rs: Shape) returns (ghost s': Shape)
    requires s.ListShape? && Holds(ListAt(list), s) && Holds(r, rs)
    modifies list
    ensures Grows(list, s, s') && Holds(ListAt(list), s') && fresh(s'.foot - s.foot)
    ensures ValuesOf(s'.items) == V.Union(ValuesOf(s.items), [ValueOf(rs)])
  {
    hide *;
    Kinds(r, rs);
    Kinds(ListAt(list), s);
    ListHolds(list, s);
    var found := Member(r, rs, list.items, s.items, s.foot - {list});
    UnionOne(ValuesOf(s.items), ValueOf(rs));
    s' := s;
    if !found {
      var c, cs := Copy(r, rs);
      PutItem(list.items, s.items, s.foot - {list}, c, cs);
      list.items := list.items + [c];
      s' := ListShape(list, s.foot + Foot(cs), s.items + [cs]);
      assert s.foot - {list} + Foot(cs) == s'.foot - {list};
      ListHolds(list, s');
      assert ValuesOf(s'.items) == ValuesOf(s.items) + [ValueOf(rs)];
    }
    GrowsMeans(list, s, s');
  }

  method AppendAllMissing(list: ListObj, ghost s: Shape, refs: seq<Ref>, ghost items: seq<Shape>,
                          ghost foot: set<object>)
    returns (ghost s': Shape)
    requires s.ListShape? && Holds(ListAt(list), s) && ItemsHold(refs, items, foot) && foot !! s.foot
    modifies list
    ensures Grows(list, s, s') && Holds(ListAt(list), s') && fresh(s'.foot - s.foot)
    ensures ValuesOf(s'.items) == V.Union(ValuesOf(s.items), ValuesOf(items))
  {
    hide *;
    Kinds(ListAt(list), s);
    ListHolds(list, s);
    GrowsMeans(list, s, s);
    s' := s;
    ItemHolds(refs, items, foot, 0);
    ghost var all := ValuesOf(items);
    assert all[0..] == all;
    for n := 0 to |refs|
      invariant s'.ListShape? && Grows(list, s, s') && Holds(ListAt(list), s') && fresh(s'.foot - s.foot)
      invariant ItemsHold(refs, items, foot)
      invariant V.Union(ValuesOf(s'.items), all[n..]) == V.Union(ValuesOf(s.items), all)
    {
      ItemHolds(refs, items, foot, n);
      GrowsMeans(list, s, s');
      UnionNext(ValuesOf(s'.items), all, n);
      ghost var was := s';
      s' := AppendMissing(list, s', refs[n], items[n]);
      GrowsMeans(list, was, s');
      GrowsMeans(list, s, s');
    }
    UnionNothing(ValuesOf(s'.items), all[|refs|..]);
  }

  lemma UnionNothing(xs: seq<V.Value>, ys: seq<V.Value>)
    requires |ys| == 0
    ensures V.Union(xs, ys) == xs
  {
  }

  // Dictionaries that are written where they stand.

  /** `dict[k] = r` */
  method Store(dict: DictObj, ghost s: Shape, k: string, r: Ref, ghost rs: Shape) returns (ghost s': Shape)
    requires s.DictShape? && Holds(DictAt(dict), s) && Holds(r, rs) && Foot(rs) !! Foot(s)
    modifies dict
    ensures s' == DictShape(dict, s.foot + Foot(rs), s.parts[k := rs]) && Holds(DictAt(dict), s')
  {
    hide *;
    Kinds(DictAt(dict), s);
    Kinds(r, rs);
    DictHolds(dict, s);
    ghost var foot := s.foot - {dict};
    TakeField(dict.fields, s.parts, foot, k);
    WiderFields(dict.fields - {k}, s.parts - {k}, if k in s.parts then foot - Foot(s.parts[k]) else foot, foot);
    PutField(dict.fields, s.parts, foot, k, r, rs);
    dict.fields := dict.fields[k := r];
    s' := DictShape(dict, s.foot + Foot(rs), s.parts[k := rs]);
    assert s'.foot - {dict} == foot + Foot(rs);
    DictHolds(dict, s');
  }

  // The view of a child over its parent (lines 114-139).

  /** What one key of the view holds; both levels may have it. */
  ghost function MergedAt(cs: map<string, Shape>, ps: map<string, Shape>, k: string): V.Value
    requires k in cs || k in ps
  {
    if k !in ps then ValueOf(cs[k]) else if k !in cs then ValueOf(ps[k])
      else V.MergeValue(ValueOf(cs[k]), ValueOf(ps[k]))
  }

  lemma MergedMeans(cs: map<string, Shape>, ps: map<string, Shape>, k: string)
    ensures k in cs && k !in ps ==> MergedAt(cs, ps, k) == ValueOf(cs[k])
    ensures k !in cs && k in ps ==> MergedAt(cs, ps, k) == ValueOf(ps[k])
    ensures k in cs && k in ps ==> MergedAt(cs, ps, k) == V.MergeValue(ValueOf(cs[k]), ValueOf(ps[k]))
  {
  }

  lemma MergedIsMergeView(cs: map<string, Shape>, ps: map<string, Shape>, parts: map<string, Shape>)
    requires parts.Keys == cs.Keys + ps.Keys && forall k :: k in parts ==> ValueOf(parts[k]) == MergedAt(cs, ps, k)
    ensures FieldsOf(parts) == V.MergeView(FieldsOf(cs), FieldsOf(ps))
  {
    hide ValueOf, V.MergeValue;
  }

  lemma MergedValue(s: Shape, ps: Shape)
    ensures s.DictShape? && ps.DictShape? ==>
      V.MergeValue(ValueOf(s), ValueOf(ps)) == V.Dict(V.MergeView(FieldsOf(s.parts), FieldsOf(ps.parts)))
    ensures s.ListShape? && ps.ListShape? ==>
      V.MergeValue(ValueOf(s), ValueOf(ps)) == V.List(V.Union(ValuesOf(s.items), ValuesOf(ps.items)))
    ensures s.ListShape? && !ps.ListShape? ==>
      V.MergeValue(ValueOf(s), ValueOf(ps)) == V.List(V.Union(ValuesOf(s.items), [ValueOf(ps)]))
    ensures !s.ListShape? && !(s.DictShape? && ps.DictShape?) ==> V.MergeValue(ValueOf(s), ValueOf(ps)) == ValueOf(s)
  {
    ValueParts(s);
    ValueParts(ps);
    hide ValueOf, FieldsOf, ValuesOf;
    assert ValueOf(s).Dict? <==> s.DictShape?;
    assert ValueOf(ps).Dict? <==> ps.DictShape?;
  }

  /** One key that both levels hold; a list of the child is appended to in place before it is copied. */
  method MergeEntry(value: Ref, ghost s: Shape, above: Ref, ghost ps: Shape) returns (r: Ref, ghost rs: Shape)
    requires Holds(value, s) && Holds(above, ps) && Foot(s) !! Foot(ps)
    modifies Foot(s)
    ensures Holds(r, rs) && fresh(Foot(rs)) && ValueOf(rs) == V.MergeValue(ValueOf(s), ValueOf(ps))
    decreases s, 1
  {
    hide *;
    Kinds(value, s);
    Kinds(above, ps);
    MergedValue(s, ps);
    if value.DictAt? && above.DictAt? {
      var result;
      result, rs := MergeView(value.dict, s, above.dict, ps);
      r := DictAt(result);
      ValueParts(rs);
    } else if value.ListAt? {
      ghost var grown;
      ListHolds(value.list, s);
      if above.ListAt? {
        ListHolds(above.list, ps);
        grown := AppendAllMissing(value.list, s, above.list.items, ps.items, ps.foot - {above.list});
      } else {
        grown := AppendMissing(value.list, s, above, ps);
      }
      GrowsMeans(value.list, s, grown);
      ValueParts(grown);
      r, rs := Copy(value, grown);
    } else {
      r, rs := Copy(value, s);
    }
  }

  /** One turn of the loop over the child's entries. */
  method MergeKey(k: string, value: Ref, ghost s: Shape, parent: DictObj, ghost ps: Shape, result: DictObj,
                  ghost rs: Shape)
    returns (ghost rs': Shape)
    requires ps.DictShape? && rs.DictShape?
    requires Holds(value, s) && Holds(DictAt(parent), ps) && Holds(DictAt(result), rs)
    requires Foot(s) !! Foot(ps) && rs.foot !! Foot(s) && rs.foot !! ps.foot
    modifies Foot(s), result
    ensures rs'.DictShape? && rs'.dict == result && Foot(rs') == rs'.foot && Holds(DictAt(result), rs')
    ensures rs.foot <= rs'.foot && fresh(rs'.foot - rs.foot)
    ensures rs'.parts.Keys == rs.parts.Keys + {k} && forall l :: l in rs.parts && l != k ==> rs'.parts[l] == rs.parts[l]
    ensures ValueOf(rs'.parts[k]) == if k in ps.parts then V.MergeValue(ValueOf(s), ValueOf(ps.parts[k]))
      else ValueOf(s)
    decreases s, 2
  {
    hide *;
    Kinds(value, s);
    Kinds(DictAt(parent), ps);
    Kinds(DictAt(result), rs);
    DictHolds(parent, ps);
    DictHolds(result, rs);
    FieldHolds(parent.fields, ps.parts, ps.foot - {parent}, k);
    var r: Ref;
    ghost var x: Shape;
    if k !in parent.fields {
      r, x := Copy(value, s);
    } else {
      r, x := MergeEntry(value, s, parent.fields[k], ps.parts[k]);
    }
    rs' := Store(result, rs, k, r, x);
    Kinds(DictAt(result), rs');
  }

  /** How far the loop over the child's keys has come. */
  ghost predicate MergedSoFar(cs: map<string, Shape>, ps: map<string, Shape>, rs: map<string, Shape>,
                              done: set<string>) {
    && rs.Keys == ps.Keys + done && done <= cs.Keys
    && forall k :: k in rs ==> ValueOf(rs[k]) == if k in done then MergedAt(cs, ps, k) else ValueOf(ps[k])
  }

  lemma NoneMerged(cs: map<string, Shape>, ps: map<string, Shape>, rs: map<string, Shape>)
    requires FieldsOf(rs) == FieldsOf(ps)
    ensures MergedSoFar(cs, ps, rs, {})
  {
    hide ValueOf, MergedAt;
    assert rs.Keys == FieldsOf(rs).Keys == ps.Keys;
    forall k | k in rs ensures ValueOf(rs[k]) == ValueOf(ps[k]) {
      assert FieldsOf(rs)[k] == FieldsOf(ps)[k];
    }
  }

  lemma OneMoreMerged(cs: map<string, Shape>, ps: map<string, Shape>, rs: map<string, Shape>, done: set<string>,
                      rs': map<string, Shape>, k: string)
    requires MergedSoFar(cs, ps, rs, done) && k in cs
    requires rs'.Keys == rs.Keys + {k} && forall l :: l in rs && l != k ==> rs'[l] == rs[l]
    requires ValueOf(rs'[k]) == if k in ps then V.MergeValue(ValueOf(cs[k]), ValueOf(ps[k])) else ValueOf(cs[k])
    ensures MergedSoFar(cs, ps, rs', done + {k})
  {
    hide ValueOf;
    MergedMeans(cs, ps, k);
  }

  lemma AllMerged(cs: map<string, Shape>, ps: map<string, Shape>, rs: map<string, Shape>)
    requires MergedSoFar(cs, ps, rs, cs.Keys)
    ensures FieldsOf(rs) == V.MergeView(FieldsOf(cs), FieldsOf(ps))
  {
    hide ValueOf;
    forall k | k in rs ensures ValueOf(rs[k]) == MergedAt(cs, ps, k) {
      if k !in cs { MergedMeans(cs, ps, k); }
    }
    MergedIsMergeView(cs, ps, rs);
  }

  method MergeView(child: DictObj, ghost cs: Shape, parent: DictObj, ghost ps: Shape)
    returns (result: DictObj, ghost rs: Shape)
    requires Holds(DictAt(child), cs) && Holds(DictAt(parent), ps) && Foot(cs) !! Foot(ps)
    requires cs.DictShape? && ps.DictShape?
    modifies Foot(cs)
    ensures Holds(DictAt(result), rs) && rs.DictShape? && fresh(Foot(rs))
    ensures FieldsOf(rs.parts) == V.MergeView(FieldsOf(cs.parts), FieldsOf(ps.parts))
    decreases cs, 0
  {
    hide *;
    Kinds(DictAt(child), cs);
    Kinds(DictAt(parent), ps);
    var copied;
    copied, rs := Copy(DictAt(parent), ps);
    ValueParts(ps);
    ValueParts(rs);
    Kinds(copied, rs);
    result := copied.dict;
    DictHolds(result, rs);
    NoneMerged(cs.parts, ps.parts, rs.parts);
    DictHolds(child, cs);
    FieldHolds(child.fields, cs.parts, cs.foot - {child}, "");
    var keys := child.fields.Keys;
    ghost var done, rest := {}, cs.foot - {child};
    assert child.fields - {} == child.fields && cs.parts - {} == cs.parts;
    while keys != {}
      invariant child.fields == old(child.fields) && keys == cs.parts.Keys - done
      invariant rest <= cs.foot - {child} && FieldsHold(child.fields - done, cs.parts - done, rest)
      invariant Holds(DictAt(parent), ps) && Holds(DictAt(result), rs) && rs.DictShape? && rs.dict == result
      invariant Foot(rs) == rs.foot && result in rs.foot && fresh(rs.foot)
      invariant MergedSoFar(cs.parts, ps.parts, rs.parts, done)
      decreases keys
    {
      var k :| k in keys;
      FieldHolds(child.fields - done, cs.parts - done, rest, k);
      TakeField(child.fields - done, cs.parts - done, rest, k);
      ghost var before := rs.parts;
      rs := MergeKey(k, child.fields[k], cs.parts[k], parent, ps, result, rs);
      OneMoreMerged(cs.parts, ps.parts, before, done, rs.parts, k);
      assert child.fields - done - {k} == child.fields - (done + {k})
        && cs.parts - done - {k} == cs.parts - (done + {k});
      done, rest, keys := done + {k}, rest - Foot(cs.parts[k]), keys - {k};
    }
    assert done == cs.parts.Keys by { NothingLeft(cs.parts, ps.parts, rs.parts, done); }
    AllMerged(cs.parts, ps.parts, rs.parts);
  }

  lemma NothingLeft(cs: map<string, Shape>, ps: map<string, Shape>, rs: map<string, Shape>, done: set<string>)
    requires MergedSoFar(cs, ps, rs, done) && cs.Keys - done == {}
    ensures done == cs.Keys
  {
    forall k | k in cs.Keys ensures k in done { assert k in cs.Keys - done || k in done; }
  }
}
