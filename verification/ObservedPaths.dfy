/**
  The observed list against the value it describes: when no object of the document repeats a key, the list
  holds exactly the paths of the final value, each with the subvalue found there.
 */
module ObservedPaths {
  import opened Chars
  import opened Documents
  import opened Json
  import opened Observed
  import opened StringBodies
  import opened ObservedDocs

  function MembersIn(ps: Pairs): (r: seq<Member>) {
    match ps
    case NoPairs => []
    case Pair(key, _, _, value, _, _, rest) => [Member(Content(key), ValueIn(value))] + MembersIn(rest)
  }

  /** No object repeats a (decoded) key. */
  predicate DistinctKeys(d: Doc) {
    match d
    case TextDoc(_) => true
    case NumberDoc(_) => true
    case WordDoc(_) => true
    case ObjectDoc(_, pairs) => DistinctMembers(MembersIn(pairs)) && DistinctKeysInPairs(pairs)
    case ArrayDoc(_, elements) => DistinctKeysInElements(elements)
  }

  predicate DistinctKeysInPairs(ps: Pairs) {
    match ps
    case NoPairs => true
    case Pair(_, _, _, value, _, _, rest) => DistinctKeys(value) && DistinctKeysInPairs(rest)
  }

  predicate DistinctKeysInElements(es: Elements) {
    match es
    case NoElements => true
    case Element(value, _, _, rest) => DistinctKeys(value) && DistinctKeysInElements(rest)
  }

  lemma {:induction false} PutAllAppends(members: seq<Member>, ps: Pairs)
    requires DistinctMembers(members + MembersIn(ps))
    ensures PutAll(members, ps) == members + MembersIn(ps)
    decreases ps
  {
    match ps
    case NoPairs =>
    case Pair(key, _, _, value, _, _, rest) =>
      var first := Member(Content(key), ValueIn(value));
      var all := members + MembersIn(ps);
      assert all == (members + [first]) + MembersIn(rest);
      assert all[|members|] == first;
      forall k | 0 <= k < |members| ensures members[k].key != first.key { assert all[k] == members[k]; }
      PutAllAppends(members + [first], rest);
  }

  /** The observation is that of a path below `base`, with the subvalue of `v` found there. */
  ghost predicate Located(o: Observation, base: seq<Key>, v: Value) {
    exists rel :: LocatedAt(o, base, v, rel)
  }

  ghost predicate LocatedAt(o: Observation, base: seq<Key>, v: Value, rel: seq<Key>) {
    o.path == DotPath(base + rel) && Lookup(v, rel) == Some(o.value)
  }

  lemma LookupHere(v: Value)
    ensures Lookup(v, []) == Some(v)
  {
  }

  lemma LocatedBelow(o: Observation, base: seq<Key>, key: Key, v: Value, whole: Value)
    requires Located(o, base + [key], v)
    requires forall rel :: Lookup(whole, [key] + rel) == Lookup(v, rel)
    ensures Located(o, base, whole)
  {
    hide DotPath, Lookup;
    var rel :| LocatedAt(o, base + [key], v, rel);
    assert (base + [key]) + rel == base + ([key] + rel);
    assert LocatedAt(o, base, whole, [key] + rel);
  }

  lemma ReportLocated(base: seq<Key>, v: Value)
    ensures forall o :: o in Report(base, v) ==> Located(o, base, v)
  {
    LookupHere(v);
    assert base + [] == base;
    forall o | o in Report(base, v) ensures Located(o, base, v) { assert LocatedAt(o, base, v, []); }
  }

  /** Every observation is located in the final value. */
  lemma {:induction false} PostOrderLocated(d: Doc, base: seq<Key>)
    requires DistinctKeys(d)
    ensures forall o :: o in PostOrder(d, base) ==> Located(o, base, ValueIn(d))
    decreases d
  {
    hide Located, Report;
    ReportLocated(base, ValueIn(d));
    match d
    case TextDoc(_) =>
    case NumberDoc(_) =>
    case WordDoc(_) =>
    case ObjectDoc(_, pairs) =>
      var all := MembersIn(pairs);
      assert [] + all == all;
      PutAllAppends([], pairs);
      PairsLocated(pairs, base, all, 0);
    case ArrayDoc(_, elements) =>
      ElementsLocated(elements, base, ItemsIn(elements), 0);
  }

  lemma {:induction false} PairsLocated(ps: Pairs, base: seq<Key>, all: seq<Member>, j: nat)
    requires DistinctKeysInPairs(ps) && DistinctMembers(all) && j <= |all| && all[j..] == MembersIn(ps)
    ensures forall o :: o in PairsPostOrder(ps, base) ==> Located(o, base, Obj(all))
    decreases ps
  {
    hide Located, Lookup, DistinctMembers, Content;
    match ps
    case NoPairs =>
    case Pair(key, _, _, value, _, _, rest) =>
      assert all[j] == all[j..][0] == Member(Content(key), ValueIn(value));
      assert all[j + 1..] == all[j..][1..] == MembersIn(rest);
      var childKeys := base + [Name(Content(key))];
      PostOrderLocated(value, childKeys);
      forall rel ensures Lookup(Obj(all), [Name(Content(key))] + rel) == Lookup(ValueIn(value), rel) {
        LookupMember(all, j, rel);
      }
      forall o | o in PostOrder(value, childKeys) ensures Located(o, base, Obj(all)) {
        LocatedBelow(o, base, Name(Content(key)), ValueIn(value), Obj(all));
      }
      PairsLocated(rest, base, all, j + 1);
  }

  lemma {:induction false} ElementsLocated(es: Elements, base: seq<Key>, all: seq<Value>, j: nat)
    requires DistinctKeysInElements(es) && j <= |all| && all[j..] == ItemsIn(es)
    ensures forall o :: o in ElementsPostOrder(es, base, j) ==> Located(o, base, Arr(all))
    decreases es
  {
    hide Located, Lookup;
    match es
    case NoElements =>
    case Element(value, _, _, rest) =>
      assert all[j] == all[j..][0] == ValueIn(value);
      assert all[j + 1..] == all[j..][1..] == ItemsIn(rest);
      PostOrderLocated(value, base + [Index(j)]);
      forall rel ensures Lookup(Arr(all), [Index(j)] + rel) == Lookup(ValueIn(value), rel) { LookupItem(all, j, rel); }
      forall o | o in PostOrder(value, base + [Index(j)]) ensures Located(o, base, Arr(all)) {
        LocatedBelow(o, base, Index(j), ValueIn(value), Arr(all));
      }
      ElementsLocated(rest, base, all, j + 1);
  }

  /** Every path into the final value is observed with its subvalue. */
  lemma {:induction false} PathsObserved(d: Doc, base: seq<Key>, rel: seq<Key>)
    requires DistinctKeys(d) && Lookup(ValueIn(d), rel).Some? && DotPath(base + rel) != ""
    ensures Observation(DotPath(base + rel), Lookup(ValueIn(d), rel).value) in PostOrder(d, base)
    decreases d
  {
    hide DotPath;
    if rel == [] {
      assert base + [] == base;
    } else {
      var below := rel[1..];
      assert (base + [rel[0]]) + below == base + rel;
      assert rel == [rel[0]] + below;
      match d
      case ObjectDoc(_, pairs) =>
        var all := MembersIn(pairs);
        assert [] + all == all;
        PutAllAppends([], pairs);
        PairsObserved(pairs, base, all, 0, Find(all, rel[0].text), below);
      case ArrayDoc(_, elements) =>
        ElementsObserved(elements, base, ItemsIn(elements), 0, rel[0].index, below);
    }
  }

  lemma {:induction false} PairsObserved(ps: Pairs, base: seq<Key>, all: seq<Member>, j: nat, k: nat, below: seq<Key>)
    requires DistinctKeysInPairs(ps) && j <= k < |all| && all[j..] == MembersIn(ps)
    requires Lookup(all[k].value, below).Some? && DotPath(base + [Name(all[k].key)] + below) != ""
    ensures Observation(DotPath(base + [Name(all[k].key)] + below), Lookup(all[k].value, below).value)
      in PairsPostOrder(ps, base)
    decreases ps
  {
    hide DotPath, Lookup, Content;
    assert all[j..] != [];
    assert all[j] == all[j..][0] == Member(Content(ps.key), ValueIn(ps.value));
    assert all[j + 1..] == all[j..][1..] == MembersIn(ps.rest);
    if k == j {
      PathsObserved(ps.value, base + [Name(all[k].key)], below);
    } else {
      PairsObserved(ps.rest, base, all, j + 1, k, below);
    }
  }

  lemma {:induction false} ElementsObserved(es: Elements, base: seq<Key>, all: seq<Value>, j: nat, k: nat,
                                            below: seq<Key>)
    requires DistinctKeysInElements(es) && j <= k < |all| && all[j..] == ItemsIn(es)
    requires Lookup(all[k], below).Some? && DotPath(base + [Index(k)] + below) != ""
    ensures Observation(DotPath(base + [Index(k)] + below), Lookup(all[k], below).value)
      in ElementsPostOrder(es, base, j)
    decreases es
  {
    hide DotPath, Lookup;
    assert all[j..] != [];
    assert all[j] == all[j..][0] == ValueIn(es.value);
    assert all[j + 1..] == all[j..][1..] == ItemsIn(es.rest);
    if k == j {
      PathsObserved(es.value, base + [Index(k)], below);
    } else {
      ElementsObserved(es.rest, base, all, j + 1, k, below);
    }
  }

  /**
    On the full reply, a pair is observed exactly when it is the path (other than the root's) and the
    subvalue of a place in the document's value.
   */
  lemma ObservedAreThePaths(t: string, before: string, d: Doc, o: Observation)
    requires ReplyWith(t, before, d) && DistinctKeys(d)
    ensures o in ObservedValues(t) <==>
            exists rel :: DotPath(rel) != "" && o.path == DotPath(rel) && Lookup(ValueIn(d), rel) == Some(o.value)
  {
    hide DotPath, Lookup, PostOrder, ReplyWith, ObservedValues, Located, DistinctKeys, ValueIn;
    ObservedOnlyGrows(t, before, d, t);
    if o in PostOrder(d, []) {
      PostOrderLocated(d, []);
      var rel := LocatedMeans(o, ValueIn(d));
      NeverEmptyPath(d, [], o);
    }
    if rel :| DotPath(rel) != "" && o.path == DotPath(rel) && Lookup(ValueIn(d), rel) == Some(o.value) {
      assert [] + rel == rel;
      PathsObserved(d, [], rel);
    }
  }

  lemma LocatedMeans(o: Observation, v: Value) returns (rel: seq<Key>)
    requires Located(o, [], v)
    ensures o.path == DotPath(rel) && Lookup(v, rel) == Some(o.value)
  {
    rel :| LocatedAt(o, [], v, rel);
    assert [] + rel == rel;
  }

  lemma {:induction false} NeverEmptyPath(d: Doc, base: seq<Key>, o: Observation)
    requires o in PostOrder(d, base)
    ensures o.path != ""
    decreases d
  {
    hide DotPath, ValueIn;
    match d
    case ObjectDoc(_, pairs) => if o in PairsPostOrder(pairs, base) { PairsNeverEmptyPath(pairs, base, o); }
    case ArrayDoc(_, elements) => if o in ElementsPostOrder(elements, base, 0) {
      ElementsNeverEmptyPath(elements, base, 0, o);
    }
    case _ =>
  }

  lemma {:induction false} PairsNeverEmptyPath(ps: Pairs, base: seq<Key>, o: Observation)
    requires o in PairsPostOrder(ps, base)
    ensures o.path != ""
    decreases ps
  {
    hide Content;
    if o in PostOrder(ps.value, base + [Name(Content(ps.key))]) {
      NeverEmptyPath(ps.value, base + [Name(Content(ps.key))], o);
    } else {
      PairsNeverEmptyPath(ps.rest, base, o);
    }
  }

  lemma {:induction false} ElementsNeverEmptyPath(es: Elements, base: seq<Key>, j: nat, o: Observation)
    requires o in ElementsPostOrder(es, base, j)
    ensures o.path != ""
    decreases es
  {
    if o in PostOrder(es.value, base + [Index(j)]) {
      NeverEmptyPath(es.value, base + [Index(j)], o);
    } else {
      ElementsNeverEmptyPath(es.rest, base, j + 1, o);
    }
  }
}
