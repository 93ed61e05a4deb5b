/**
  The state object: its dictionaries are written where they stand, and reading it through its parents changes
  none of them (agently/utils/StateData.py:60-198, 272-313 and 376-394).
 */
module LayeredState {
  import opened Chars
  import opened StateStore
  import opened StateWrites
  import opened StatePlaces
  import opened Texts
  import V = StateValues

  /** One step of a dotted write: the dictionary at the place gets an empty dictionary for a missing key. */
  method Enter(root: DictObj, ghost s: Shape, ghost prefix: seq<string>, cur: DictObj, key: string)
    returns (ghost s': Shape)
    requires Holds(DictAt(root), s) && Leads(s, prefix) && Sub(s, prefix).DictShape? && Sub(s, prefix).dict == cur
    modifies cur
    ensures Holds(DictAt(root), s') && Foot(s) <= Foot(s') && fresh(Foot(s') - Foot(s))
    ensures Leads(s', prefix) && Sub(s', prefix).DictShape? && Sub(s', prefix).dict == cur
      && key in Sub(s', prefix).parts
    ensures var here := FieldsOf(Sub(s, prefix).parts);
      Leads(s, prefix) && V.GetIn(ValueOf(s), prefix) == Some(V.Dict(here))
      && ValueOf(s') == if key in here then ValueOf(s)
        else V.PutIn(ValueOf(s), prefix, V.Dict(here[key := V.Dict(map[])]))
    ensures key in Sub(s, prefix).parts ==> s' == s && unchanged(cur)
  {
    hide *;
    Open(DictAt(root), s, prefix);
    ghost var sub := Sub(s, prefix);
    DictRefOf(sub);
    Kinds(DictAt(root), s);
    Kinds(DictAt(cur), sub);
    DictHolds(cur, sub);
    FieldHolds(cur.fields, sub.parts, sub.foot - {cur}, key);
    LeadsIff(s, prefix);
    DictSame(sub);
    s' := s;
    if key !in cur.fields {
      var d := new DictObj(map[]);
      ghost var ds := DictShape(d, {d}, map[]);
      NoFields(ds.foot - {d});
      DictHolds(d, ds);
      ghost var t := Store(cur, sub, key, DictAt(d), ds);
      DictFoot(cur, t.foot, t.parts);
      Close(DictAt(root), s, prefix, t);
      s' := Plug(s, prefix, t);
      SubPlug(s, prefix, t);
      PlugValue(s, prefix, t);
      DictSame(t);
      DictSame(ds);
      assert FieldsOf(ds.parts) == map[];
      assert FieldsOf(t.parts) == FieldsOf(sub.parts)[key := ValueOf(ds)];
    }
  }

  /** The end of a dotted write: `holder[key]` is covered, or merged into. */
  method Place(root: DictObj, ghost s: Shape, ghost prefix: seq<string>, holder: DictObj, key: string,
               value: Ref, ghost v: Shape, cover: bool) returns (ghost s': Shape)
    requires Holds(DictAt(root), s) && Leads(s, prefix) && Sub(s, prefix).DictShape? && Sub(s, prefix).dict == holder
    requires key in Sub(s, prefix).parts && Holds(value, v) && (cover || Foot(v) !! Foot(s))
    modifies Foot(s)
    ensures Holds(DictAt(root), s') && Foot(s) <= Foot(s') && fresh(Foot(s') - Foot(s))
    ensures var here := FieldsOf(Sub(s, prefix).parts);
      V.GetIn(ValueOf(s), prefix) == Some(V.Dict(here)) && key in here
      && ValueOf(s') == V.PutIn(ValueOf(s), prefix, V.Dict(here[key := V.Place(here[key], ValueOf(v), cover)]))
  {
    hide *;
    Open(DictAt(root), s, prefix);
    ghost var sub := Sub(s, prefix);
    DictRefOf(sub);
    Kinds(DictAt(root), s);
    Kinds(DictAt(holder), sub);
    Kinds(value, v);
    LeadsIff(s, prefix);
    DictSame(sub);
    PlaceMeans(FieldsOf(sub.parts)[key], ValueOf(v), cover);
    ghost var t;
    if cover {
      var r;
      ghost var x;
      r, x := Copy(value, v);
      DictHolds(holder, sub);
      t := Store(holder, sub, key, r, x);
      assert FieldsOf(t.parts) == FieldsOf(sub.parts)[key := ValueOf(x)];
    } else {
      t := SetItem(holder, sub, key, value, v);
    }
    Kinds(DictAt(holder), t);
    Close(DictAt(root), s, prefix, t);
    s' := Plug(s, prefix, t);
    PlugValue(s, prefix, t);
    DictSame(t);
  }

  lemma PlaceMeans(was: V.Value, value: V.Value, cover: bool)
    ensures V.Place(was, value, cover) == if cover then value else V.SetItem(was, value)
  {
  }

  /** `del cur[key]` at a place. */
  method Remove(root: DictObj, ghost s: Shape, ghost prefix: seq<string>, cur: DictObj, key: string)
    returns (ghost s': Shape)
    requires Holds(DictAt(root), s) && Leads(s, prefix) && Sub(s, prefix).DictShape? && Sub(s, prefix).dict == cur
    modifies cur
    ensures Holds(DictAt(root), s') && Foot(s') == Foot(s)
    ensures var here := FieldsOf(Sub(s, prefix).parts);
      V.GetIn(ValueOf(s), prefix) == Some(V.Dict(here))
        && ValueOf(s') == V.PutIn(ValueOf(s), prefix, V.Dict(here - {key}))
  {
    hide *;
    Open(DictAt(root), s, prefix);
    ghost var sub := Sub(s, prefix);
    DictRefOf(sub);
    Kinds(DictAt(root), s);
    Kinds(DictAt(cur), sub);
    DictHolds(cur, sub);
    LeadsIff(s, prefix);
    DictSame(sub);
    ghost var foot := sub.foot - {cur};
    TakeField(cur.fields, sub.parts, foot, key);
    WiderFields(cur.fields - {key}, sub.parts - {key},
                if key in sub.parts then foot - Foot(sub.parts[key]) else foot, foot);
    cur.fields := cur.fields - {key};
    ghost var t := DictShape(cur, sub.foot, sub.parts - {key});
    DictHolds(cur, t);
    Close(DictAt(root), s, prefix, t);
    s' := Plug(s, prefix, t);
    PlugValue(s, prefix, t);
    DictSame(t);
    assert FieldsOf(t.parts) == FieldsOf(sub.parts) - {key};
    assert Foot(s) + Foot(t) == Foot(s);
  }

  // What the steps mean for the walk as a whole.

  lemma {:induction false} EnterKeepsWalk(at: V.Value, path: V.Path, n: nat, here: V.Fields, at': V.Value,
                                          value: V.Value, cover: bool)
    requires n < |path| && V.GetIn(at, path[..n]) == Some(V.Dict(here))
    requires at' == if path[n] in here then at else V.PutIn(at, path[..n], V.Dict(here[path[n] := V.Dict(map[])]))
    ensures V.Walk(at', path, value, cover) == V.Walk(at, path, value, cover)
  {
    if path[n] !in here { V.WalkCreates(at, path, n, value, cover); }
  }

  lemma RaisesHere(at: V.Value, path: V.Path, n: nat, value: V.Value, cover: bool)
    requires n < |path| && V.GetIn(at, path[..n]).Some? && !V.GetIn(at, path[..n]).value.Dict?
    ensures V.Walk(at, path, value, cover) == (at, true)
  {
    V.WalkFrom(at, path, n, value, cover);
    V.PutInSame(at, path[..n]);
  }

  lemma WalkEnds(at: V.Value, path: V.Path, here: V.Fields, value: V.Value, cover: bool)
    requires V.GetIn(at, path[..|path| - 1]) == Some(V.Dict(here)) && path[|path| - 1] in here
    ensures var last := path[|path| - 1];
      V.Walk(at, path, value, cover)
        == (V.PutIn(at, path[..|path| - 1], V.Dict(here[last := V.Place(here[last], value, cover)])), false)
  {
    V.WalkFrom(at, path, |path| - 1, value, cover);
    assert path[|path| - 1..] == [path[|path| - 1]];
  }

  /** A key without dots is written in one step. */
  lemma WalkOne(fields: V.Fields, key: string, value: V.Value)
    ensures V.Walk(V.Dict(fields), [key], value, true) == (V.Dict(fields[key := value]), false)
    ensures V.Walk(V.Dict(fields), [key], value, false)
         == (V.Dict(fields[key := if key in fields then V.SetItem(fields[key], value) else value]), false)
  {
    var made := if key in fields then fields else fields[key := V.Dict(map[])];
    V.SetItself(value);
    if value.Dict? && key !in fields {
      assert V.SetItem(V.Dict(map[]), value) == value by {
        assert V.SetItem(V.Dict(map[]), value).fields == value.fields;
      }
    }
    assert made[key := value] == fields[key := value];
  }

  /** What `holder` has at the last key taken stands where the path leads. */
  lemma HolderHas(root: Ref, s: Shape, path: seq<string>, i: nat, holder: DictObj)
    requires 0 < i <= |path| && Holds(root, s) && Leads(s, path[..i - 1])
    requires Sub(s, path[..i - 1]).DictShape? && Sub(s, path[..i - 1]).dict == holder
      && path[i - 1] in Sub(s, path[..i - 1]).parts
    ensures Leads(s, path[..i]) && path[i - 1] in holder.fields && Holds(holder.fields[path[i - 1]], Sub(s, path[..i]))
  {
    hide *;
    var prefix := path[..i - 1];
    Open(root, s, prefix);
    var sub := Sub(s, prefix);
    DictRefOf(sub);
    DictHolds(holder, sub);
    FieldHolds(holder.fields, sub.parts, sub.foot - {holder}, path[i - 1]);
    LeadsSnoc(s, prefix, path[i - 1]);
    assert prefix + [path[i - 1]] == path[..i];
  }

  lemma EmptyPath(s: Shape, path: seq<string>)
    ensures Leads(s, path[..0]) && Sub(s, path[..0]) == s
  {
  }

  /** A reference that has walked down a dictionary: what it stands for, and where it stands. */
  ghost predicate StandsAt(root: DictObj, s: Shape, path: seq<string>, i: nat, holder: DictObj)
    reads Foot(s)
  {
    && i <= |path| && Holds(DictAt(root), s) && Leads(s, path[..i])
    && (i > 0 ==>
      && Leads(s, path[..i - 1]) && Sub(s, path[..i - 1]).DictShape?
      && Sub(s, path[..i - 1]).dict == holder && path[i - 1] in Sub(s, path[..i - 1]).parts)
  }

  /** `DictRef.get` */
  method Current(root: DictObj, ghost s: Shape, path: seq<string>, i: nat, holder: DictObj)
    returns (current: Ref, ghost cs: Shape)
    requires StandsAt(root, s, path, i, holder)
    ensures Leads(s, path[..i]) && cs == Sub(s, path[..i]) && Holds(current, cs)
    ensures V.GetIn(ValueOf(s), path[..i]) == Some(ValueOf(cs))
    ensures current.DictAt? <==> cs.DictShape?
    ensures current.DictAt? ==>
      current.dict == cs.dict && current.dict.fields.Keys == cs.parts.Keys && current.dict in Foot(s)
    ensures ValueOf(cs).Dict? <==> cs.DictShape?
  {
    hide Holds, Leads, Sub, ValueOf, V.GetIn, V.Walk;
    EmptyPath(s, path);
    cs := Sub(s, path[..i]);
    if i == 0 {
      current := DictAt(root);
    } else {
      HolderHas(DictAt(root), s, path, i, holder);
      current := holder.fields[path[i - 1]];
    }
    LeadsIff(s, path[..i]);
    Kinds(current, cs);
    ValueParts(cs);
    Open(DictAt(root), s, path[..i]);
    if current.DictAt? {
      DictHolds(current.dict, cs);
      FieldHolds(current.dict.fields, cs.parts, cs.foot - {current.dict}, "");
    }
  }

  lemma Standing(root: DictObj, s: Shape, path: seq<string>, i: nat, holder: DictObj)
    ensures StandsAt(root, s, path, i, holder) ==> i <= |path| && Holds(DictAt(root), s) && Leads(s, path[..i])
    ensures i == 0 && Holds(DictAt(root), s) ==> StandsAt(root, s, path, i, holder)
    ensures (i < |path| && Holds(DictAt(root), s) && Leads(s, path[..i]) && Sub(s, path[..i]).DictShape?
             && Sub(s, path[..i]).dict == holder && path[i] in Sub(s, path[..i]).parts)
            ==> StandsAt(root, s, path, i + 1, holder)
    ensures (StandsAt(root, s, path, i, holder) && i > 0)
            ==> (Leads(s, path[..i - 1]) && Sub(s, path[..i - 1]).DictShape?
                 && Sub(s, path[..i - 1]).dict == holder && path[i - 1] in Sub(s, path[..i - 1]).parts)
  {
    EmptyPath(s, path);
    if i < |path| && Holds(DictAt(root), s) && Leads(s, path[..i]) {
      LeadsSnoc(s, path[..i], path[i]);
      assert path[..i] + [path[i]] == path[..i + 1];
    }
  }

  class StateData {
    const data: DictObj
    const parent: StateData?
    ghost var shape: Shape

    constructor (data: DictObj, ghost shape: Shape, parent: StateData?)
      requires Holds(DictAt(data), shape)
      ensures Valid() && this.data == data && this.shape == shape && this.parent == parent
    {
      Kinds(DictAt(data), shape);
      this.data, this.shape, this.parent := data, shape, parent;
    }

    ghost predicate Valid()
      reads this, Foot(shape)
    {
      this !in Foot(shape) && Holds(DictAt(data), shape)
    }

    /** The stored data as a value. */
    ghost function Contents(): V.Value
      reads this
    {
      ValueOf(shape)
    }

    lemma ValidMeans()
      ensures Valid() <==> this !in Foot(shape) && Holds(DictAt(data), shape)
      ensures Contents() == ValueOf(shape)
    {
    }

    /**
      A dotted write; it raises when a part of the path before the last holds something that is no dictionary.
      The value may be a part of the data when it is copied before anything changes: when it covers a place
      that is already there.
     */
    method SetItemByDotPath(dotPath: string, value: Ref, ghost v: Shape, cover: bool) returns (raised: bool)
      requires Valid() && Holds(value, v)
      requires Foot(v) !! Foot(shape) || (cover && V.GetIn(Contents(), Split(dotPath, '.')).Some?)
      modifies `shape, Foot(shape)
      ensures Valid() && Foot(old(shape)) <= Foot(shape) && fresh(Foot(shape) - Foot(old(shape)))
      ensures (Contents(), raised) == V.Walk(old(Contents()), Split(dotPath, '.'), ValueOf(v), cover)
    {
      hide *;
      ValidMeans();
      var path := Split(dotPath, '.');
      var holder, i := data, 0;
      Kinds(DictAt(data), shape);
      Kinds(value, v);
      Standing(data, shape, path, 0, holder);
      ghost var s, val := shape, ValueOf(v);
      while i < |path|
        invariant StandsAt(data, s, path, i, holder) && Holds(value, v) && s.DictShape? && Foot(s) == s.foot
        invariant Foot(shape) <= Foot(s) && fresh(Foot(s) - Foot(shape)) && shape == old(shape)
        invariant V.Walk(ValueOf(s), path, val, cover) == V.Walk(ValueOf(shape), path, val, cover)
        invariant Foot(v) !! Foot(s) || (s == shape && cover && V.GetIn(ValueOf(s), path).Some?)
      {
        var current;
        ghost var cs;
        current, cs := Current(data, s, path, i, holder);
        Standing(data, s, path, i, holder);
        if !current.DictAt? {
          RaisesHere(ValueOf(s), path, i, val, cover);
          shape := s;
          ValidMeans();
          return true;
        }
        ghost var was := s;
        DictSame(cs);
        if V.GetIn(ValueOf(s), path).Some? { V.GetPasses(ValueOf(s), path, i); }
        s := Enter(data, s, path[..i], current.dict, path[i]);
        Kinds(DictAt(data), s);
        EnterKeepsWalk(ValueOf(was), path, i, FieldsOf(cs.parts), ValueOf(s), val, cover);
        holder := current.dict;
        Standing(data, s, path, i, holder);
        i := i + 1;
      }
      Standing(data, s, path, i, holder);
      ghost var was, here := s, FieldsOf(Sub(s, path[..i - 1]).parts);
      s := Place(data, s, path[..i - 1], holder, path[i - 1], value, v, cover);
      Kinds(DictAt(data), s);
      assert s.foot - Foot(shape) == (s.foot - was.foot) + (was.foot - Foot(shape));
      WalkEnds(ValueOf(was), path, here, val, cover);
      shape := s;
      ValidMeans();
      return false;
    }

    /** `set`: replaces what the key's path leads to by a copy, which may be a copy of a part of the data. */
    method Set(key: string, value: Ref, ghost v: Shape) returns (raised: bool)
      requires Valid() && Holds(value, v)
      requires Foot(v) !! Foot(shape) || '.' !in key || V.GetIn(Contents(), Split(key, '.')).Some?
      modifies `shape, Foot(shape)
      ensures Valid() && Foot(old(shape)) <= Foot(shape) && fresh(Foot(shape) - Foot(old(shape)))
      ensures (Contents(), raised) == V.Walk(old(Contents()), Split(key, '.'), ValueOf(v), true)
    {
      hide *;
      if '.' in key {
        raised := SetItemByDotPath(key, value, v, true);
      } else {
        StoreCopy(key, value, v);
        SplitOne(key, '.');
        raised := false;
      }
    }

    /** `self._data[key] = self._copy(value)` */
    method StoreCopy(key: string, value: Ref, ghost v: Shape)
      requires Valid() && Holds(value, v)
      modifies `shape, Foot(shape)
      ensures Valid() && Foot(old(shape)) <= Foot(shape) && fresh(Foot(shape) - Foot(old(shape)))
      ensures (Contents(), false) == V.Walk(old(Contents()), [key], ValueOf(v), true)
      ensures old(shape).DictShape? && (key !in old(shape).parts ==>
                (Contents(), false) == V.Walk(old(Contents()), [key], ValueOf(v), false))
    {
      hide *;
      ValidMeans();
      Kinds(DictAt(data), shape);
      Kinds(value, v);
      DictHolds(data, shape);
      var r;
      ghost var x;
      r, x := Copy(value, v);
      ghost var was := shape;
      ghost var s := Store(data, shape, key, r, x);
      Kinds(DictAt(data), s);
      shape := s;
      DictSame(was);
      DictSame(shape);
      WalkOne(FieldsOf(was.parts), key, ValueOf(v));
      assert FieldsOf(shape.parts) == FieldsOf(was.parts)[key := ValueOf(x)];
      ValidMeans();
    }

    /** One entry of an update. */
    method UpdateOne(key: string, value: Ref, ghost v: Shape) returns (raised: bool)
      requires Valid() && Holds(value, v) && Foot(v) !! Foot(shape)
      modifies `shape, Foot(shape)
      ensures Valid() && Foot(old(shape)) <= Foot(shape) && fresh(Foot(shape) - Foot(old(shape)))
      ensures (Contents(), raised) == V.Walk(old(Contents()), Split(key, '.'), ValueOf(v), false)
    {
      hide *;
      if '.' in key {
        raised := SetItemByDotPath(key, value, v, false);
        return;
      }
      SplitOne(key, '.');
      ValidMeans();
      Kinds(DictAt(data), shape);
      Kinds(value, v);
      DictHolds(data, shape);
      FieldHolds(data.fields, shape.parts, shape.foot - {data}, key);
      ghost var was := shape;
      if key in data.fields {
        ghost var s := SetItem(data, shape, key, value, v);
        Kinds(DictAt(data), s);
        shape := s;
        DictSame(was);
        DictSame(shape);
        WalkOne(FieldsOf(was.parts), key, ValueOf(v));
      } else {
        StoreCopy(key, value, v);
      }
      ValidMeans();
      raised := false;
    }

    /** `update`: the entries of a mapping in its order, up to the first that raises. */
    method Update(given: DictObj, ghost g: Shape, keys: seq<string>) returns (raised: bool)
      requires Valid() && g.DictShape? && Holds(DictAt(given), g) && Foot(g) !! Foot(shape) && this !in Foot(g)
      requires forall k :: k in keys ==> k in g.parts
      modifies `shape, Foot(shape)
      ensures Valid() && fresh(Foot(shape) - Foot(old(shape)))
      ensures (Contents(), raised) == V.UpdateAll(old(Contents()), EntriesOf(keys, FieldsOf(g.parts)))
    {
      hide *;
      Kinds(DictAt(given), g);
      DictHolds(given, g);
      ValidMeans();
      Kinds(DictAt(data), shape);
      ghost var fields := FieldsOf(g.parts);
      ghost var all := EntriesOf(keys, fields);
      assert all[0..] == all;
      ghost var start := Contents();
      var i := 0;
      while i < |keys|
        invariant i <= |keys| && Valid() && Holds(DictAt(given), g) && Foot(g) !! Foot(shape) && Foot(g) == g.foot
        invariant Foot(old(shape)) <= Foot(shape) && fresh(Foot(shape) - Foot(old(shape)))
        invariant V.UpdateAll(Contents(), all[i..]) == V.UpdateAll(start, all)
      {
        DictHolds(given, g);
        FieldHolds(given.fields, g.parts, g.foot - {given}, keys[i]);
        ghost var before, foot := Contents(), Foot(shape);
        ValidMeans();
        Kinds(DictAt(data), shape);
        raised := UpdateOne(keys[i], given.fields[keys[i]], g.parts[keys[i]]);
        ValidMeans();
        Kinds(DictAt(data), shape);
        assert all[i] == V.Entry(Split(keys[i], '.'), ValueOf(g.parts[keys[i]]));
        UpdateTurn(before, all, i);
        if raised { return; }
        i := i + 1;
      }
      UpdateTurn(Contents(), all, |keys|);
      raised := false;
    }

    /** `del`: what is not there stays away without complaint. */
    method Delete(key: string)
      requires Valid()
      modifies `shape, Foot(shape)
      ensures Valid() && Foot(shape) == Foot(old(shape))
      ensures Contents() == V.Deleted(old(Contents()), Split(key, '.'))
    {
      hide *;
      var path := Split(key, '.');
      ValidMeans();
      Kinds(DictAt(data), shape);
      var holder, i := data, 0;
      Standing(data, shape, path, 0, holder);
      while i < |path| - 1
        invariant i < |path| && StandsAt(data, shape, path, i, holder)
        invariant shape == old(shape) && Holds(DictAt(data), shape) && shape.DictShape? && Foot(shape) == shape.foot
          && this !in Foot(shape)
      {
        var current;
        ghost var cs;
        current, cs := Current(data, shape, path, i, holder);
        DeleteStops(Contents(), path, i);
        ValidMeans();
        if !current.DictAt? { return; }
        DictSame(cs);
        if path[i] !in current.dict.fields { return; }
        holder := current.dict;
        Standing(data, shape, path, i, holder);
        i := i + 1;
      }
      var last;
      ghost var cs;
      last, cs := Current(data, shape, path, i, holder);
      DeleteStops(Contents(), path, i);
      if last.DictAt? {
        DictSame(cs);
        if path[i] in last.dict.fields {
          ghost var s := Remove(data, shape, path[..i], last.dict, path[i]);
          Kinds(DictAt(data), s);
          shape := s;
        }
      }
      ValidMeans();
    }

    /** The merged view through the parents: a new dictionary; nothing stored at any level changes. */
    method Data(ghost chain: seq<StateData>, ghost all: set<object>) returns (view: DictObj, ghost vs: Shape)
      requires Chain(this, chain, all)
      ensures vs.DictShape? && Holds(DictAt(view), vs) && fresh(Foot(vs))
      ensures FieldsOf(vs.parts) == V.InheritedView(map[], Layers(chain))
      ensures Chain(this, chain, all) && Layers(chain) == old(Layers(chain))
    {
      hide *;
      view := new DictObj(map[]);
      vs := DictShape(view, {view}, map[]);
      NoFields(vs.foot - {view});
      DictHolds(view, vs);
      DictFoot(view, vs.foot, vs.parts);
      assert FieldsOf(vs.parts) == map[];
      view, vs := ViewFrom(this, view, vs, chain, all);
    }

    /**
      `get` with a key: through the parents in the view, otherwise in the local data, where it hands out the
      stored object itself.
     */
    method Get(key: string, inherit: bool, ghost chain: seq<StateData>, ghost all: set<object>)
      returns (found: Option<Ref>, ghost s: Shape)
      requires Chain(this, chain, all)
      ensures found.Some? <==>
        V.GetIn(if inherit then V.Dict(V.InheritedView(map[], Layers(chain))) else Contents(), Split(key, '.')).Some?
      ensures found.Some? ==> Holds(found.value, s)
      ensures found.Some? && !inherit ==> Leads(shape, Split(key, '.')) && s == Sub(shape, Split(key, '.'))
      ensures V.GetIn(if inherit then V.Dict(V.InheritedView(map[], Layers(chain))) else Contents(), Split(key, '.'))
           == if found.Some? then Some(ValueOf(s)) else None
    {
      hide *;
      ChainFirst(this, chain, all);
      ValidMeans();
      if inherit {
        var view;
        ghost var vs;
        view, vs := Data(chain, all);
        Kinds(DictAt(view), vs);
        DictSame(vs);
        found, s := Find(view, vs, Split(key, '.'));
      } else {
        Kinds(DictAt(data), shape);
        found, s := Find(data, shape, Split(key, '.'));
      }
    }
  }

  lemma UpdateTurn(at: V.Value, all: seq<V.Entry>, i: nat)
    requires i <= |all|
    ensures i == |all| ==> V.UpdateAll(at, all[i..]) == (at, false)
    ensures i < |all| ==>
      var one := V.Walk(at, all[i].path, all[i].value, false);
      V.UpdateAll(at, all[i..]) == if one.1 then one else V.UpdateAll(one.0, all[i + 1..])
  {
    if i < |all| { assert all[i..][1..] == all[i + 1..]; }
  }

  ghost function EntriesOf(keys: seq<string>, fields: V.Fields): (r: seq<V.Entry>)
    requires forall k :: k in keys ==> k in fields
    ensures |r| == |keys| && forall i :: 0 <= i < |r| ==> r[i] == V.Entry(Split(keys[i], '.'), fields[keys[i]])
  {
    seq(|keys|, i requires 0 <= i < |keys| => V.Entry(Split(keys[i], '.'), fields[keys[i]]))
  }

  /** Where a deletion has nothing to do, and what it does at its last key. */
  lemma DeleteStops(at: V.Value, path: V.Path, i: nat)
    requires i < |path|
    ensures V.GetIn(at, path[..i]).Some? && !V.GetIn(at, path[..i]).value.Dict? ==> V.Deleted(at, path) == at
    ensures (V.GetIn(at, path[..i]).Some? && V.GetIn(at, path[..i]).value.Dict?
      && path[i] !in V.GetIn(at, path[..i]).value.fields)
            ==> V.Deleted(at, path) == at
    ensures (V.GetIn(at, path[..i]).Some? && V.GetIn(at, path[..i]).value.Dict?
      && path[i] in V.GetIn(at, path[..i]).value.fields && i == |path| - 1)
            ==> V.Deleted(at, path) == V.PutIn(at, path[..i], V.Dict(V.GetIn(at, path[..i]).value.fields - {path[i]}))
  {
    if V.GetIn(at, path[..i]).Some? {
      V.DeleteFrom(at, path, i);
      V.PutInSame(at, path[..i]);
      assert path[i..][0] == path[i];
    }
  }

  /** Follows a path down a dictionary. */
  method Find(root: DictObj, ghost rs: Shape, path: seq<string>) returns (found: Option<Ref>, ghost s: Shape)
    requires Holds(DictAt(root), rs)
    ensures found.Some? <==> V.GetIn(ValueOf(rs), path).Some?
    ensures found.Some? ==> Holds(found.value, s) && Leads(rs, path) && s == Sub(rs, path)
    ensures V.GetIn(ValueOf(rs), path) == if found.Some? then Some(ValueOf(s)) else None
  {
    hide *;
    Kinds(DictAt(root), rs);
    var holder, i := root, 0;
    Standing(root, rs, path, 0, holder);
    while i < |path|
      invariant i <= |path| && StandsAt(root, rs, path, i, holder)
    {
      var current;
      ghost var cs;
      current, cs := Current(root, rs, path, i, holder);
      GetStops(ValueOf(rs), path, i);
      s := cs;
      if !current.DictAt? { return None, s; }
      DictSame(cs);
      if path[i] !in current.dict.fields { return None, s; }
      holder := current.dict;
      Standing(root, rs, path, i, holder);
      i := i + 1;
    }
    var end;
    end, s := Current(root, rs, path, i, holder);
    assert path[..i] == path;
    found := Some(end);
  }

  lemma {:induction false} GetStops(at: V.Value, path: seq<string>, i: nat)
    requires i < |path|
    ensures (V.GetIn(at, path[..i]).Some?
      && (!V.GetIn(at, path[..i]).value.Dict? || path[i] !in V.GetIn(at, path[..i]).value.fields))
            ==> V.GetIn(at, path) == None
    decreases i
  {
    if i == 0 {
      assert path[..0] == [];
    } else if at.Dict? && path[0] in at.fields {
      assert path[..i][0] == path[0] && path[..i][1..] == path[1..][..i - 1];
      GetStops(at.fields[path[0]], path[1..], i - 1);
    }
  }

  // The view through the parents (lines 141-147 and 166-175).

  /** `chain` lists the state and its parents, up to one that has none; `all` covers their dictionaries and lists. */
  ghost predicate Chain(state: StateData, chain: seq<StateData>, all: set<object>)
    reads chain, all
    decreases |chain|
  {
    && chain != [] && chain[0] == state && Foot(state.shape) <= all && state.Valid()
    && if state.parent == null then |chain| == 1 else Chain(state.parent, chain[1..], all)
  }

  /** The stored data of a chain, level by level. */
  ghost function Layers(chain: seq<StateData>): (r: seq<V.Fields>)
    reads chain
    ensures |r| == |chain|
  {
    if chain == [] then []
    else [if chain[0].shape.DictShape? then FieldsOf(chain[0].shape.parts) else map[]] + Layers(chain[1..])
  }

  lemma ChainFirst(state: StateData, chain: seq<StateData>, all: set<object>)
    requires Chain(state, chain, all)
    ensures chain != [] && state in chain && Holds(DictAt(state.data), state.shape) && Foot(state.shape) <= all
    ensures state.shape.DictShape? && Layers(chain) == [FieldsOf(state.shape.parts)] + Layers(chain[1..])
    ensures if state.parent == null then |chain| == 1 else Chain(state.parent, chain[1..], all)
  {
    Kinds(DictAt(state.data), state.shape);
  }

  lemma ViewTurn(result: V.Fields, chain: seq<V.Fields>)
    ensures V.InheritedView(result, chain) == if chain == [] then result
      else V.InheritedView(V.MergeView(result, chain[0]), chain[1..])
  {
  }

  /** Merges a result that belongs to the caller over the state and its parents, which stay as they are. */
  method ViewFrom(state: StateData, result: DictObj, ghost rs: Shape, ghost chain: seq<StateData>,
                  ghost all: set<object>)
    returns (view: DictObj, ghost vs: Shape)
    requires Chain(state, chain, all) && rs.DictShape? && Holds(DictAt(result), rs)
    requires Foot(rs) !! all && forall c :: c in chain ==> c !in Foot(rs)
    modifies Foot(rs)
    ensures vs.DictShape? && Holds(DictAt(view), vs) && fresh(Foot(vs))
    ensures FieldsOf(vs.parts) == V.InheritedView(FieldsOf(rs.parts), Layers(chain))
    decreases |chain|
  {
    hide *;
    ChainFirst(state, chain, all);
    Kinds(DictAt(result), rs);
    ViewTurn(FieldsOf(rs.parts), Layers(chain));
    var local;
    ghost var ls;
    local, ls := Copy(DictAt(state.data), state.shape);
    DictSame(state.shape);
    ValueParts(ls);
    Kinds(local, ls);
    view, vs := MergeView(result, rs, local.dict, ls);
    Kinds(DictAt(view), vs);
    if state.parent != null {
      ghost var ms := vs;
      view, vs := ViewFrom(state.parent, view, vs, chain[1..], all);
    } else {
      assert chain[1..] == [];
      ViewTurn(FieldsOf(vs.parts), Layers(chain[1..]));
    }
  }

  /** The view of a state is its own data over the view of its parent, when that data fits on the levels between. */
  lemma ViewOverParent(state: StateData, chain: seq<StateData>, all: set<object>)
    requires Chain(state, chain, all) && |chain| >= 2
    requires var layers := Layers(chain);
      V.Stackable(V.Dict(layers[0]), V.Dict(V.InheritedView(map[], layers[1..|chain| - 1])))
    ensures state.parent != null && Chain(state.parent, chain[1..], all) && state.shape.DictShape?
    ensures V.InheritedView(map[], Layers(chain))
         == V.MergeView(FieldsOf(state.shape.parts), V.InheritedView(map[], Layers(chain[1..])))
  {
    hide Holds, FieldsOf, V.InheritedView, V.MergeView, V.Stackable;
    ChainFirst(state, chain, all);
    var layers := Layers(chain);
    var local, above, top := layers[0], layers[1..|chain| - 1], layers[|chain| - 1];
    assert layers == [local] + above + [top] && layers[1..] == above + [top] && layers[1..] == Layers(chain[1..]);
    V.ViewIsLocalOverParentIff(local, above);
    assert V.LocalOverParent(local, above, top);
  }
}
