/**
  Places inside the nested dictionaries: what stands where a path leads, and how the whole holds again after a
  write at one place (agently/utils/StateData.py:272-289 and 376-391).
 */
module StatePlaces {
  import opened Chars
  import opened StateStore
  import opened StateWrites
  import V = StateValues

  ghost predicate Leads(s: Shape, path: seq<string>)
    decreases |path|
  {
    path == [] || (s.DictShape? && path[0] in s.parts && Leads(s.parts[path[0]], path[1..]))
  }

  ghost function Sub(s: Shape, path: seq<string>): Shape
    requires Leads(s, path)
    decreases |path|
  {
    if path == [] then s else Sub(s.parts[path[0]], path[1..])
  }

  /** The shape with `t` where the path leads. */
  ghost function Plug(s: Shape, path: seq<string>, t: Shape): Shape
    requires Leads(s, path)
    decreases |path|
  {
    if path == [] then t
    else DictShape(s.dict, s.foot + Foot(t), s.parts[path[0] := Plug(s.parts[path[0]], path[1..], t)])
  }

  /** The heap agrees with the shape everywhere but where the path leads. */
  ghost predicate HoldsAround(r: Ref, s: Shape, path: seq<string>, hole: set<object>)
    requires Leads(s, path)
    reads Foot(s) - hole
    decreases |path|
  {
    if path == [] then r == RefOf(s) && hole == Foot(s)
    else
      var k, part := path[0], s.parts[path[0]];
      && r == RefOf(s) && s.dict in s.foot && Foot(part) <= s.foot - {s.dict} && hole <= Foot(part)
      && k in s.dict.fields
      && FieldsHold(s.dict.fields - {k}, s.parts - {k}, s.foot - {s.dict} - Foot(part))
      && HoldsAround(s.dict.fields[k], part, path[1..], hole)
  }

  lemma LeadsFirst(s: Shape, path: seq<string>)
    requires Leads(s, path) && path != []
    ensures s.DictShape? && path[0] in s.parts && Foot(s) == s.foot && Leads(s.parts[path[0]], path[1..])
    ensures Sub(s, path) == Sub(s.parts[path[0]], path[1..])
    ensures forall t ::
      Plug(s, path, t) == DictShape(s.dict, s.foot + Foot(t), s.parts[path[0] := Plug(s.parts[path[0]], path[1..], t)])
  {
  }

  lemma LeadsNowhere(s: Shape, path: seq<string>)
    requires path == []
    ensures Leads(s, path) && Sub(s, path) == s && forall t :: Plug(s, path, t) == t
  {
  }

  lemma AroundFirst(r: Ref, s: Shape, path: seq<string>, hole: set<object>)
    requires Leads(s, path)
    ensures path == [] ==> (HoldsAround(r, s, path, hole) <==> r == RefOf(s) && hole == Foot(s))
    ensures path != [] ==> (HoldsAround(r, s, path, hole) <==>
      var k, part := path[0], s.parts[path[0]];
      && r == RefOf(s) && s.dict in s.foot && Foot(part) <= s.foot - {s.dict} && hole <= Foot(part)
      && k in s.dict.fields
      && FieldsHold(s.dict.fields - {k}, s.parts - {k}, s.foot - {s.dict} - Foot(part))
      && HoldsAround(s.dict.fields[k], part, path[1..], hole))
  {
  }

  /** Looking at one place splits the objects in two. */
  lemma {:induction false} Open(r: Ref, s: Shape, path: seq<string>)
    requires Holds(r, s) && Leads(s, path)
    ensures Holds(RefOf(Sub(s, path)), Sub(s, path)) && Foot(Sub(s, path)) <= Foot(s)
    ensures HoldsAround(r, s, path, Foot(Sub(s, path)))
    decreases |path|
  {
    hide *;
    Kinds(r, s);
    AroundFirst(r, s, path, Foot(Sub(s, path)));
    if path == [] {
      LeadsNowhere(s, path);
    } else {
      LeadsFirst(s, path);
      DictHolds(s.dict, s);
      FieldHolds(s.dict.fields, s.parts, s.foot - {s.dict}, path[0]);
      TakeField(s.dict.fields, s.parts, s.foot - {s.dict}, path[0]);
      Open(s.dict.fields[path[0]], s.parts[path[0]], path[1..]);
    }
  }

  /** Closing again: what took the place is the same object, and took only objects of its own with it. */
  lemma {:induction false} Close(r: Ref, s: Shape, path: seq<string>, t: Shape)
    requires Leads(s, path) && HoldsAround(r, s, path, Foot(Sub(s, path)))
    requires Holds(RefOf(Sub(s, path)), t) && Foot(Sub(s, path)) <= Foot(t)
    requires Foot(t) !! (Foot(s) - Foot(Sub(s, path)))
    ensures Holds(r, Plug(s, path, t)) && Foot(Plug(s, path, t)) == Foot(s) + Foot(t)
    decreases |path|
  {
    hide *;
    var hole := Foot(Sub(s, path));
    AroundFirst(r, s, path, hole);
    if path == [] {
      LeadsNowhere(s, path);
      assert Foot(s) + Foot(t) == Foot(t);
    } else {
      LeadsFirst(s, path);
      var k, part := path[0], s.parts[path[0]];
      Close(s.dict.fields[k], part, path[1..], t);
      var part' := Plug(part, path[1..], t);
      DictRefOf(s);
      var _ := Regrown(s.dict, s, k, part');
      DictFoot(s.dict, s.foot + Foot(part'), s.parts[k := part']);
      assert s.foot + (Foot(part) + Foot(t)) == s.foot + Foot(t);
    }
  }

  lemma DictRefOf(s: Shape)
    requires s.DictShape?
    ensures RefOf(s) == DictAt(s.dict)
  {
  }

  lemma DictFoot(dict: DictObj, foot: set<object>, parts: map<string, Shape>)
    ensures Foot(DictShape(dict, foot, parts)) == foot
  {
  }

  /** The value side of the same. */
  lemma {:induction false} LeadsIff(s: Shape, path: seq<string>)
    ensures Leads(s, path) <==> V.GetIn(ValueOf(s), path).Some?
    ensures Leads(s, path) ==> V.GetIn(ValueOf(s), path) == Some(ValueOf(Sub(s, path)))
    decreases |path|
  {
    ValueParts(s);
    hide ValueOf;
    if path != [] && s.DictShape? && path[0] in s.parts {
      LeadsIff(s.parts[path[0]], path[1..]);
    }
  }

  lemma {:induction false} PlugValue(s: Shape, path: seq<string>, t: Shape)
    requires Leads(s, path)
    ensures V.GetIn(ValueOf(s), path).Some? && ValueOf(Plug(s, path, t)) == V.PutIn(ValueOf(s), path, ValueOf(t))
    decreases |path|
  {
    LeadsIff(s, path);
    if path != [] {
      PlugValue(s.parts[path[0]], path[1..], t);
      ValueParts(s);
      ValueParts(Plug(s, path, t));
      hide ValueOf;
      assert FieldsOf(Plug(s, path, t).parts)
          == FieldsOf(s.parts)[path[0] := ValueOf(Plug(s.parts[path[0]], path[1..], t))];
    }
  }

  lemma {:induction false} SubPlug(s: Shape, path: seq<string>, t: Shape)
    requires Leads(s, path)
    ensures Leads(Plug(s, path, t), path) && Sub(Plug(s, path, t), path) == t
    decreases |path|
  {
    if path != [] { SubPlug(s.parts[path[0]], path[1..], t); }
  }

  lemma {:induction false} LeadsSnoc(s: Shape, path: seq<string>, k: string)
    requires Leads(s, path)
    ensures Leads(s, path + [k]) <==> Sub(s, path).DictShape? && k in Sub(s, path).parts
    ensures Leads(s, path + [k]) ==> Sub(s, path + [k]) == Sub(s, path).parts[k]
    decreases |path|
  {
    if path == [] {
      assert ([] + [k])[1..] == [];
    } else {
      assert (path + [k])[1..] == path[1..] + [k];
      LeadsSnoc(s.parts[path[0]], path[1..], k);
    }
  }
}
