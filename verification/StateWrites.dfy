/**
  Recursive merging of a value into the nested dictionaries where they stand (agently/utils/StateData.py:226-270),
  and the walk along a dotted path to the dictionary that a write or a deletion is about.
 */
module StateWrites {
  import opened StateStore
  import V = StateValues

  /** A part that changed where it stands, and took only objects of its own with it. */
  lemma Regrown(holder: DictObj, s: Shape, key: string, t: Shape) returns (s': Shape)
    requires s.DictShape? && s.dict == holder && holder in s.foot && key in s.parts && key in holder.fields
    requires FieldsHold(holder.fields - {key}, s.parts - {key}, s.foot - {holder} - Foot(s.parts[key]))
    requires Holds(holder.fields[key], t) && Foot(t) !! (s.foot - Foot(s.parts[key])) && holder !in Foot(t)
    ensures s' == DictShape(holder, s.foot + Foot(t), s.parts[key := t]) && Holds(DictAt(holder), s')
    ensures FieldsOf(s'.parts) == FieldsOf(s.parts)[key := ValueOf(t)]
  {
    hide *;
    var foot := s.foot - {holder} - Foot(s.parts[key]);
    PutField(holder.fields, s.parts, foot, key, holder.fields[key], t);
    assert holder.fields[key := holder.fields[key]] == holder.fields;
    s' := DictShape(holder, s.foot + Foot(t), s.parts[key := t]);
    WiderFields(holder.fields, s'.parts, foot + Foot(t), s'.foot - {holder});
    DictHolds(holder, s');
    assert FieldsOf(s'.parts) == FieldsOf(s.parts)[key := ValueOf(t)];
  }

  /** How far the loop over a merged mapping has come. */
  ghost predicate SetSoFar(was: V.Fields, given: V.Fields, now: V.Fields, done: set<string>) {
    && now.Keys == was.Keys + done && done <= given.Keys
    && forall k :: k in now ==>
         now[k] == if k !in done then was[k] else if k in was then V.SetItem(was[k], given[k]) else given[k]
  }

  lemma NoneSet(was: V.Fields, given: V.Fields)
    ensures SetSoFar(was, given, was, {})
  {
  }

  lemma OneMoreSet(was: V.Fields, given: V.Fields, now: V.Fields, done: set<string>, k: string, v: V.Value)
    requires SetSoFar(was, given, now, done) && k in given && k !in done
    requires v == if k in now then V.SetItem(now[k], given[k]) else given[k]
    ensures SetSoFar(was, given, now[k := v], done + {k})
  {
    hide V.SetItem;
  }

  lemma AllSet(was: V.Fields, given: V.Fields, now: V.Fields, done: set<string>)
    requires SetSoFar(was, given, now, done) && given.Keys - done == {}
    ensures V.Dict(now) == V.SetItem(V.Dict(was), V.Dict(given))
  {
    assert done == given.Keys by {
      forall k | k in given.Keys ensures k in done { assert k in given.Keys - done || k in done; }
    }
    assert now == V.SetItem(V.Dict(was), V.Dict(given)).fields;
  }

  lemma SetValue(s: Shape, v: Shape)
    ensures s.ListShape? && v.ListShape? ==>
      V.SetItem(ValueOf(s), ValueOf(v)) == V.List(V.Union(ValuesOf(s.items), ValuesOf(v.items)))
    ensures s.ListShape? && !v.ListShape? ==>
      V.SetItem(ValueOf(s), ValueOf(v)) == V.List(V.Union(ValuesOf(s.items), [ValueOf(v)]))
    ensures !s.ListShape? && !(s.DictShape? && v.DictShape?) ==> V.SetItem(ValueOf(s), ValueOf(v)) == ValueOf(v)
  {
    ValueParts(s);
    ValueParts(v);
    hide ValueOf, FieldsOf, ValuesOf;
  }

  lemma DictSame(s: Shape)
    requires s.DictShape?
    ensures ValueOf(s) == V.Dict(FieldsOf(s.parts)) && FieldsOf(s.parts).Keys == s.parts.Keys
  {
    ValueParts(s);
  }

  /** Merges `value` into what `holder` has at `key`, updating dictionaries and lists in place. */
  method SetItem(holder: DictObj, ghost s: Shape, key: string, value: Ref, ghost v: Shape) returns (ghost s': Shape)
    requires s.DictShape? && key in s.parts
    requires Holds(DictAt(holder), s) && Holds(value, v) && Foot(s) !! Foot(v)
    modifies Foot(s)
    ensures s'.DictShape? && s'.dict == holder && Holds(DictAt(holder), s')
    ensures s.foot <= s'.foot && fresh(s'.foot - s.foot)
    ensures FieldsOf(s'.parts) == FieldsOf(s.parts)[key := V.SetItem(ValueOf(s.parts[key]), ValueOf(v))]
    decreases v, 1
  {
    hide *;
    Kinds(DictAt(holder), s);
    Kinds(value, v);
    DictHolds(holder, s);
    ghost var foot := s.foot - {holder};
    FieldHolds(holder.fields, s.parts, foot, key);
    var existing := holder.fields[key];
    ghost var e := s.parts[key];
    Kinds(existing, e);
    SetValue(e, v);
    TakeField(holder.fields, s.parts, foot, key);
    if existing.DictAt? && value.DictAt? {
      ghost var t := SetFields(existing.dict, e, value.dict, v);
      Kinds(existing, t);
      s' := Regrown(holder, s, key, t);
    } else if existing.ListAt? {
      ListHolds(existing.list, e);
      ghost var t;
      if value.ListAt? {
        ListHolds(value.list, v);
        t := AppendAllMissing(existing.list, e, value.list.items, v.items, v.foot - {value.list});
      } else {
        t := AppendMissing(existing.list, e, value, v);
      }
      GrowsMeans(existing.list, e, t);
      ListHolds(existing.list, t);
      ValueParts(t);
      s' := Regrown(holder, s, key, t);
    } else {
      var r;
      ghost var x;
      r, x := Copy(value, v);
      s' := Store(holder, s, key, r, x);
      assert FieldsOf(s'.parts) == FieldsOf(s.parts)[key := ValueOf(x)];
    }
  }

  /** The loop over the entries of a mapping that meets a dictionary. */
  method SetFields(dict: DictObj, ghost s: Shape, value: DictObj, ghost v: Shape) returns (ghost s': Shape)
    requires s.DictShape? && v.DictShape?
    requires Holds(DictAt(dict), s) && Holds(DictAt(value), v) && Foot(s) !! Foot(v)
    modifies Foot(s)
    ensures s'.DictShape? && s'.dict == dict && Holds(DictAt(dict), s')
    ensures s.foot <= s'.foot && fresh(s'.foot - s.foot)
    ensures ValueOf(s') == V.SetItem(ValueOf(s), ValueOf(v))
    decreases v, 0
  {
    hide *;
    Kinds(DictAt(dict), s);
    Kinds(DictAt(value), v);
    DictHolds(dict, s);
    DictHolds(value, v);
    FieldHolds(value.fields, v.parts, v.foot - {value}, "");
    DictSame(s);
    DictSame(v);
    ghost var was, given := FieldsOf(s.parts), FieldsOf(v.parts);
    s' := s;
    NoneSet(was, given);
    var keys := value.fields.Keys;
    ghost var done := {};
    while keys != {}
      invariant keys == given.Keys - done
      invariant s'.DictShape? && s'.dict == dict && Foot(s') == s'.foot && Holds(DictAt(dict), s')
        && Holds(DictAt(value), v)
      invariant s.foot <= s'.foot && fresh(s'.foot - s.foot)
      invariant SetSoFar(was, given, FieldsOf(s'.parts), done)
      decreases keys
    {
      var k :| k in keys;
      DictHolds(value, v);
      FieldHolds(value.fields, v.parts, v.foot - {value}, k);
      ghost var now := FieldsOf(s'.parts);
      s' := SetEntry(dict, s', k, value.fields[k], v.parts[k]);
      OneMoreSet(was, given, now, done, k, FieldsOf(s'.parts)[k]);
      done, keys := done + {k}, keys - {k};
    }
    AllSet(was, given, FieldsOf(s'.parts), done);
    DictSame(s');
  }

  /** One entry: a missing key takes a copy, a present one merges. */
  method SetEntry(dict: DictObj, ghost s: Shape, k: string, value: Ref, ghost v: Shape) returns (ghost s': Shape)
    requires s.DictShape? && Holds(DictAt(dict), s) && Holds(value, v) && Foot(s) !! Foot(v)
    modifies Foot(s)
    ensures s'.DictShape? && s'.dict == dict && Foot(s') == s'.foot && Holds(DictAt(dict), s')
    ensures s.foot <= s'.foot && fresh(s'.foot - s.foot)
    ensures FieldsOf(s'.parts)
      == FieldsOf(s.parts)[k := if k in s.parts then V.SetItem(ValueOf(s.parts[k]), ValueOf(v)) else ValueOf(v)]
    decreases v, 2
  {
    hide *;
    Kinds(DictAt(dict), s);
    Kinds(value, v);
    DictHolds(dict, s);
    FieldHolds(dict.fields, s.parts, s.foot - {dict}, k);
    if k !in dict.fields {
      var r;
      ghost var x;
      r, x := Copy(value, v);
      s' := Store(dict, s, k, r, x);
      assert FieldsOf(s'.parts) == FieldsOf(s.parts)[k := ValueOf(x)];
    } else {
      s' := SetItem(dict, s, k, value, v);
    }
    Kinds(DictAt(dict), s');
  }
}
