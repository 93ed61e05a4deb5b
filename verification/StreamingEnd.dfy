/**
  The end of a complete reply: once every value of the document has been observed, finalizing has nothing left
  to label, so no event of it is a reconciliation or a synthetic repair.
 */
module StreamingEnd {
  import opened Documents
  import opened Json
  import opened Observed
  import opened ObservedDocs
  import opened ObservedPaths
  import opened Streaming
  import StreamingDeltas

  lemma {:induction false} NothingFresh(observed: seq<Observation>, complete: set<string>)
    requires forall k :: 0 <= k < |observed| ==> observed[k].path in complete
    ensures FreshObserved(observed, complete) == []
  {
    if observed != [] { NothingFresh(observed[1..], complete); }
  }

  lemma {:induction false} ObservedBecomesComplete(observed: seq<Observation>, complete: set<string>)
    ensures forall k :: 0 <= k < |observed| ==>
      observed[k].path in Completed(complete, FreshObserved(observed, complete))
    ensures complete <= Completed(complete, FreshObserved(observed, complete))
    ensures forall e :: e in FreshObserved(observed, complete) ==> e.Done? && e.source == ObservedBoundary
    decreases |observed|
  {
    if observed != [] {
      var o := observed[0];
      if o.path in complete {
        ObservedBecomesComplete(observed[1..], complete);
      } else {
        var rest := FreshObserved(observed[1..], complete + {o.path});
        ObservedBecomesComplete(observed[1..], complete + {o.path});
        assert FreshObserved(observed, complete)[1..] == rest;
        assert DonePaths(FreshObserved(observed, complete)) == [o.path] + DonePaths(rest);
        assert Streaming.Elements([o.path] + DonePaths(rest)) == {o.path} + Streaming.Elements(DonePaths(rest));
      }
    }
  }

  lemma {:induction false} NothingToMark(data: Value, keys: seq<Key>, complete: set<string>, source: Source)
    requires StreamingDeltas.Dictionaries(data) && AllPathsIn(data, keys, complete)
    ensures DonesOf(data, keys, complete, source) == []
    decreases data
  {
    hide AllPathsIn, MemberDones, ItemDones, DotPath;
    PathHere(data, keys, complete);
    match data
    case Obj(members) =>
      NoMemberToMark(members, 0, keys, complete, source);
      assert members[0..] == members;
    case Arr(items) =>
      NoItemToMark(items, 0, keys, complete, source);
      assert items[0..] == items;
    case _ =>
  }

  lemma PathHere(data: Value, keys: seq<Key>, complete: set<string>)
    requires AllPathsIn(data, keys, complete)
    ensures DotPath(keys) != "" ==> DotPath(keys) in complete
  {
    hide DotPath;
    assert Lookup(data, []).Some? && keys + [] == keys;
  }

  lemma {:induction false} NoMemberToMark(members: seq<Member>, j: nat, keys: seq<Key>, complete: set<string>,
                                          source: Source)
    requires j <= |members| && StreamingDeltas.Dictionaries(Obj(members)) && AllPathsIn(Obj(members), keys, complete)
    ensures MemberDones(members[j..], keys, complete, source) == []
    decreases Obj(members), |members| - j
  {
    hide *;
    MemberDonesFirst(members[j..], keys, complete, source);
    if j < |members| {
      assert members[j..][1..] == members[j + 1..];
      PathsInMember(members, j, keys, complete);
      StreamingDeltas.PartsAreDictionaries(Obj(members), j);
      NothingToMark(members[j].value, keys + [Name(members[j].key)], complete, source);
      NoMemberToMark(members, j + 1, keys, complete, source);
      NoneAdded(complete);
    }
  }

  lemma NoneAdded(complete: set<string>)
    ensures complete + Streaming.Elements(DonePaths([])) == complete
  {
  }

  lemma PathsInMember(members: seq<Member>, j: nat, keys: seq<Key>, complete: set<string>)
    requires j < |members| && StreamingDeltas.Dictionaries(Obj(members)) && AllPathsIn(Obj(members), keys, complete)
    ensures AllPathsIn(members[j].value, keys + [Name(members[j].key)], complete)
  {
    StreamingDeltas.DictionaryMembers(members);
    hide DotPath, Lookup, StreamingDeltas.Dictionaries;
    var key := Name(members[j].key);
    forall rel | Lookup(members[j].value, rel).Some? && DotPath(keys + [key] + rel) != ""
      ensures DotPath(keys + [key] + rel) in complete {
      LookupMember(members, j, rel);
      assert keys + [key] + rel == keys + ([key] + rel);
    }
  }

  lemma {:induction false} NoItemToMark(items: seq<Value>, j: nat, keys: seq<Key>, complete: set<string>,
                                        source: Source)
    requires j <= |items| && StreamingDeltas.Dictionaries(Arr(items)) && AllPathsIn(Arr(items), keys, complete)
    ensures ItemDones(items[j..], keys, j, complete, source) == []
    decreases Arr(items), |items| - j
  {
    hide *;
    ItemDonesFirst(items[j..], keys, j, complete, source);
    if j < |items| {
      assert items[j..][1..] == items[j + 1..];
      PathsInItem(items, j, keys, complete);
      StreamingDeltas.PartsAreDictionaries(Arr(items), j);
      NothingToMark(items[j], keys + [Index(j)], complete, source);
      NoItemToMark(items, j + 1, keys, complete, source);
      NoneAdded(complete);
    }
  }

  lemma PathsInItem(items: seq<Value>, j: nat, keys: seq<Key>, complete: set<string>)
    requires j < |items| && AllPathsIn(Arr(items), keys, complete)
    ensures AllPathsIn(items[j], keys + [Index(j)], complete)
  {
    hide DotPath, Lookup;
    var key := Index(j);
    forall rel | Lookup(items[j], rel).Some? && DotPath(keys + [key] + rel) != ""
      ensures DotPath(keys + [key] + rel) in complete {
      LookupItem(items, j, rel);
      assert keys + [key] + rel == keys + ([key] + rel);
    }
  }

  // The value of a document with distinct keys is made of dictionaries.

  lemma {:induction false} ValueIsDictionaries(d: Doc)
    requires DistinctKeys(d)
    ensures StreamingDeltas.Dictionaries(ValueIn(d))
    decreases d
  {
    match d
    case ObjectDoc(_, pairs) =>
      assert [] + MembersIn(pairs) == MembersIn(pairs);
      PutAllAppends([], pairs);
      MembersAreDictionaries(pairs);
    case ArrayDoc(_, elements) => ItemsAreDictionaries(elements);
    case _ =>
  }

  lemma {:induction false} MembersAreDictionaries(ps: Pairs)
    requires DistinctKeysInPairs(ps)
    ensures forall i :: 0 <= i < |MembersIn(ps)| ==> StreamingDeltas.Dictionaries(MembersIn(ps)[i].value)
    decreases ps
  {
    match ps
    case NoPairs =>
    case Pair(_, _, _, value, _, _, rest) =>
      ValueIsDictionaries(value);
      MembersAreDictionaries(rest);
  }

  lemma {:induction false} ItemsAreDictionaries(es: Elements)
    requires DistinctKeysInElements(es)
    ensures forall i :: 0 <= i < |ItemsIn(es)| ==> StreamingDeltas.Dictionaries(ItemsIn(es)[i])
    decreases es
  {
    match es
    case NoElements =>
    case Element(value, _, _, rest) =>
      ValueIsDictionaries(value);
      ItemsAreDictionaries(rest);
  }

  lemma ObservedCoversValue(t: string, before: string, d: Doc, complete: set<string>)
    requires ReplyWith(t, before, d) && DistinctKeys(d)
    requires forall o :: o in ObservedValues(t) ==> o.path in complete
    ensures AllPathsIn(ValueIn(d), [], complete)
  {
    hide *;
    AllPathsBy(ValueIn(d), complete);
    forall rel | Lookup(ValueIn(d), rel).Some? && DotPath(rel) != "" ensures DotPath(rel) in complete {
      var o := Observation(DotPath(rel), Lookup(ValueIn(d), rel).value);
      ObservedAreThePaths(t, before, d, o);
      assert o in ObservedValues(t);
    }
  }

  lemma AllPathsBy(v: Value, complete: set<string>)
    ensures (forall rel :: Lookup(v, rel).Some? && DotPath(rel) != "" ==> DotPath(rel) in complete) ==>
      AllPathsIn(v, [], complete)
  {
    hide DotPath, Lookup;
    forall rel: seq<Key> | Lookup(v, rel).Some? ensures [] + rel == rel {}
  }

  /**
    When the buffer holds a whole reply and the value read is that of its document, everything the end of the
    stream emits is backed by an observed boundary: nothing is left to be labelled otherwise.
   */
  lemma EndOfCompleteReply(t: string, before: string, d: Doc, complete: set<string>, source: Source)
    requires ReplyWith(t, before, d) && DistinctKeys(d)
    ensures Ending(ValueIn(d), ObservedValues(t), complete, source) == FreshObserved(ObservedValues(t), complete)
    ensures forall e :: e in Ending(ValueIn(d), ObservedValues(t), complete, source) ==>
      e.Done? && e.source == ObservedBoundary
  {
    hide *;
    var first := FreshObserved(ObservedValues(t), complete);
    ObservedBecomesComplete(ObservedValues(t), complete);
    EndingMeans(ValueIn(d), ObservedValues(t), complete, source);
    ObservedCoversValue(t, before, d, Completed(complete, first));
    ValueIsDictionaries(d);
    NothingToMark(ValueIn(d), [], Completed(complete, first), source);
    assert first + [] == first;
  }

  /** And nothing at all, when the last chunk has already reported what it observed. */
  lemma CompleteReplyEndsSilently(t: string, before: string, d: Doc, complete: set<string>, source: Source)
    requires ReplyWith(t, before, d) && DistinctKeys(d)
    requires forall o :: o in ObservedValues(t) ==> o.path in complete
    ensures Ending(ValueIn(d), ObservedValues(t), complete, source) == []
  {
    hide *;
    EndOfCompleteReply(t, before, d, complete, source);
    NothingFresh(ObservedValues(t), complete);
  }
}
