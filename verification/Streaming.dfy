/**
  The streaming parser and its events (agently/utils/StreamingJSONParser.py:27-846): chunk by chunk it
  completes, locates and reads the buffer, compares the new value with the previous one, and emits delta and
  done events.
 */
module Streaming {
  import opened Chars
  import opened Json
  import opened Texts
  import Completer
  import Locator
  import Observed
  import Provenance

  datatype Source = ObservedBoundary | FinalReconciliation | SyntheticRepair

  datatype Event =
    | Delta(path: string, value: Value, delta: string)
    | Done(path: string, value: Value, source: Source)
    | Status(chars: nat, threshold: int)

  // Projections of an event list.

  function Deltas(events: seq<Event>): (r: seq<Event>)
    ensures forall e :: e in r ==> e.Delta?
  {
    if events == [] then []
    else (if events[0].Delta? then [events[0]] else []) + Deltas(events[1..])
  }

  function DonePaths(events: seq<Event>): seq<string> {
    if events == [] then []
    else (if events[0].Done? then [events[0].path] else []) + DonePaths(events[1..])
  }

  lemma {:induction false} DeltasJoin(a: seq<Event>, b: seq<Event>)
    ensures Deltas(a + b) == Deltas(a) + Deltas(b)
  {
    if a == [] {
      assert a + b == b;
    } else {
      assert (a + b)[1..] == a[1..] + b;
      DeltasJoin(a[1..], b);
    }
  }

  lemma {:induction false} DonePathsJoin(a: seq<Event>, b: seq<Event>)
    ensures DonePaths(a + b) == DonePaths(a) + DonePaths(b)
  {
    if a == [] {
      assert a + b == b;
    } else {
      assert (a + b)[1..] == a[1..] + b;
      DonePathsJoin(a[1..], b);
    }
  }

  predicate NoRepeats(s: seq<string>) {
    forall i, j :: 0 <= i < j < |s| ==> s[i] != s[j]
  }

  function Elements(s: seq<string>): set<string> { set x | x in s }

  /** The done events of a step: no path twice, none that was done before, and all of them recorded. */
  ghost predicate FreshDones(events: seq<Event>, before: set<string>, after: set<string>) {
    var paths := DonePaths(events);
    && NoRepeats(paths) && Elements(paths) !! before && "" !in paths
    && after == before + Elements(paths)
  }

  lemma FreshDonesJoin(a: seq<Event>, b: seq<Event>, s0: set<string>, s1: set<string>, s2: set<string>)
    requires FreshDones(a, s0, s1) && FreshDones(b, s1, s2)
    ensures FreshDones(a + b, s0, s2)
  {
    DonePathsJoin(a, b);
    var pa, pb := DonePaths(a), DonePaths(b);
    forall i, j | 0 <= i < j < |pa + pb| ensures (pa + pb)[i] != (pa + pb)[j] {
      if i < |pa| <= j { assert pa[i] in Elements(pa) && pb[j - |pa|] in Elements(pb); }
    }
  }

  lemma NoDones(events: seq<Event>, s: set<string>)
    requires DonePaths(events) == []
    ensures FreshDones(events, s, s)
  {
  }

  lemma NoneEmitted()
    ensures Deltas([]) == [] && DonePaths([]) == []
  {
  }

  lemma OneDone(e: Event, s: set<string>)
    requires e.Done? && e.path != "" && e.path !in s
    ensures DonePaths([e]) == [e.path] && Deltas([e]) == [] && FreshDones([e], s, s + {e.path})
  {
  }

  lemma OneDelta(e: Event)
    requires e.Delta?
    ensures DonePaths([e]) == [] && Deltas([e]) == [e]
  {
  }

  // What a comparison of two values emits as deltas. An absent value is Python's None, which is also null.

  function MembersOf(v: Value): seq<Member> { if v.Obj? then v.members else [] }

  function ItemsOf(v: Value): seq<Value> { if v.Arr? then v.items else [] }

  function TextOf(v: Value): string { if v.Str? then v.text else "" }

  function MemberOrNull(members: seq<Member>, key: string): Value {
    var i := Find(members, key);
    if i < |members| then members[i].value else NULL
  }

  function ItemOrNull(items: seq<Value>, i: nat): Value {
    if i < |items| then items[i] else NULL
  }

  function StringDelta(text: string, previous: string): string {
    if text == previous then ""
    else if previous != "" && previous <= text then text[|previous|..]
    else text
  }

  function DeltasOf(current: Value, previous: Value, keys: seq<Key>): seq<Event>
    decreases current
  {
    match current
    case Str(text) =>
      var delta := StringDelta(text, TextOf(previous));
      if delta == "" then [] else [Delta(DotPath(keys), current, delta)]
    case Num(lexeme) => if current == previous then [] else [Delta(DotPath(keys), current, lexeme)]
    case Word(lexeme) => if current == NULL || current == previous then [] else [Delta(DotPath(keys), current, lexeme)]
    case Obj(members) => MemberDeltas(members, MembersOf(previous), keys)
    case Arr(items) => ItemDeltas(items, ItemsOf(previous), keys, 0)
  }

  function MemberDeltas(members: seq<Member>, previous: seq<Member>, keys: seq<Key>): seq<Event>
    decreases members
  {
    if members == [] then []
    else
      DeltasOf(members[0].value, MemberOrNull(previous, members[0].key), keys + [Name(members[0].key)])
        + MemberDeltas(members[1..], previous, keys)
  }

  function ItemDeltas(items: seq<Value>, previous: seq<Value>, keys: seq<Key>, index: nat): seq<Event>
    decreases items
  {
    if items == [] then []
    else
      DeltasOf(items[0], ItemOrNull(previous, index), keys + [Index(index)])
        + ItemDeltas(items[1..], previous, keys, index + 1)
  }

  // What else a step leaves behind or emits.

  /** The last text sent for each path. */
  function TextsAfter(texts: map<string, string>, events: seq<Event>): map<string, string>
    decreases |events|
  {
    if events == [] then texts
    else
      var e := events[0];
      TextsAfter(if e.Delta? && e.value.Str? then texts[e.path := e.value.text] else texts, events[1..])
  }

  lemma {:induction false} TextsJoin(texts: map<string, string>, a: seq<Event>, b: seq<Event>)
    ensures TextsAfter(texts, a + b) == TextsAfter(TextsAfter(texts, a), b)
    decreases |a|
  {
    if a == [] {
      assert a + b == b;
    } else {
      assert (a + b)[1..] == a[1..] + b;
      TextsJoin(if a[0].Delta? && a[0].value.Str? then texts[a[0].path := a[0].value.text] else texts, a[1..], b);
    }
  }

  lemma {:induction false} TextsUnchanged(texts: map<string, string>, events: seq<Event>)
    requires Deltas(events) == []
    ensures TextsAfter(texts, events) == texts
    decreases |events|
  {
    if events != [] { TextsUnchanged(texts, events[1..]); }
  }

  /** The done events of an observed list, given the paths that are complete. */
  function FreshObserved(observed: seq<Observed.Observation>, complete: set<string>): seq<Event> {
    if observed == [] then []
    else if observed[0].path in complete then FreshObserved(observed[1..], complete)
    else
      [Done(observed[0].path, observed[0].value, ObservedBoundary)]
        + FreshObserved(observed[1..], complete + {observed[0].path})
  }

  /** The done events of marking every path into a value, children before parents. */
  function DonesOf(data: Value, keys: seq<Key>, complete: set<string>, source: Source): seq<Event>
    decreases data
  {
    var below :=
      match data
      case Obj(members) => MemberDones(members, keys, complete, source)
      case Arr(items) => ItemDones(items, keys, 0, complete, source)
      case _ => [];
    var path := DotPath(keys);
    below + if path != "" && path !in complete + Elements(DonePaths(below)) then [Done(path, data, source)] else []
  }

  function MemberDones(members: seq<Member>, keys: seq<Key>, complete: set<string>, source: Source): seq<Event>
    decreases members
  {
    if members == [] then []
    else
      var first := DonesOf(members[0].value, keys + [Name(members[0].key)], complete, source);
      first + MemberDones(members[1..], keys, complete + Elements(DonePaths(first)), source)
  }

  function ItemDones(items: seq<Value>, keys: seq<Key>, index: nat, complete: set<string>, source: Source): seq<Event>
    decreases items
  {
    if items == [] then []
    else
      var first := DonesOf(items[0], keys + [Index(index)], complete, source);
      first + ItemDones(items[1..], keys, index + 1, complete + Elements(DonePaths(first)), source)
  }

  /** `value` stands in `v`, taken from `keys` on, at a place with this dot path. */
  ghost predicate StandsIn(v: Value, keys: seq<Key>, path: string, value: Value)
    decreases v
  {
    || (path == DotPath(keys) && value == v)
    || (v.Obj? && exists k ::
      0 <= k < |v.members| && StandsIn(v.members[k].value, keys + [Name(v.members[k].key)], path, value))
    || (v.Arr? && exists k :: 0 <= k < |v.items| && StandsIn(v.items[k], keys + [Index(k)], path, value))
  }

  /** What is complete after some events. */
  function Completed(complete: set<string>, events: seq<Event>): set<string> {
    complete + Elements(DonePaths(events))
  }

  /** The end of a stream: what the raw buffer closes, then everything else in the value. */
  function Ending(data: Value, observed: seq<Observed.Observation>, complete: set<string>, source: Source): seq<Event> {
    var first := FreshObserved(observed, complete);
    first + DonesOf(data, [], Completed(complete, first), source)
  }

  /** One emission of observed boundaries: the events since the one before, and the raw buffer. */
  datatype Round = Round(changes: seq<Event>, buffer: string)

  /** All events of some rounds; each ends with what its buffer closes and was not complete. */
  function Emitted(rounds: seq<Round>): seq<Event> {
    if rounds == [] then []
    else
      var last := rounds[|rounds| - 1];
      var before := Emitted(rounds[..|rounds| - 1]) + last.changes;
      before + FreshObserved(Observed.ObservedValues(last.buffer), Completed({}, before))
  }

  function Buffers(rounds: seq<Round>): (r: seq<string>)
    ensures |r| == |rounds| && forall i :: 0 <= i < |r| ==> r[i] == rounds[i].buffer
  {
    seq(|rounds|, i requires 0 <= i < |rounds| => rounds[i].buffer)
  }

  /** The buffers grow, up to the given one. */
  predicate Growing(rounds: seq<Round>, buffer: string) {
    rounds == [] ||
    (rounds[|rounds| - 1].buffer <= buffer && Growing(rounds[..|rounds| - 1], rounds[|rounds| - 1].buffer))
  }

  lemma NoRounds(buffer: string)
    ensures Emitted([]) == [] && Growing([], buffer)
  {
  }

  lemma GrowingOn(rounds: seq<Round>, buffer: string, longer: string)
    requires Growing(rounds, buffer) && buffer <= longer
    ensures Growing(rounds, longer)
  {
  }

  lemma RoundLast(rounds: seq<Round>, changes: seq<Event>, buffer: string)
    ensures var before := Emitted(rounds) + changes;
      Emitted(rounds + [Round(changes, buffer)])
        == before + FreshObserved(Observed.ObservedValues(buffer), Completed({}, before))
    ensures forall longer ::
      Growing(rounds + [Round(changes, buffer)], longer) <==> buffer <= longer && Growing(rounds, buffer)
  {
    assert (rounds + [Round(changes, buffer)])[..|rounds|] == rounds;
  }

  lemma NothingCompleted(complete: set<string>)
    ensures Completed(complete, []) == complete
  {
  }

  lemma CompletedJoin(a: seq<Event>, b: seq<Event>)
    ensures Completed(Completed({}, a), b) == Completed({}, a + b)
  {
    DonePathsJoin(a, b);
  }

  lemma RoundMore(rounds: seq<Round>, changes: seq<Event>, buffer: string, before: seq<Event>, complete: set<string>,
                  more: seq<Event>)
    requires before == Emitted(rounds) + [] && FreshDones(before, {}, complete)
    requires more == changes + FreshObserved(Observed.ObservedValues(buffer), Completed(complete, changes))
    ensures before + more == Emitted(rounds + [Round(changes, buffer)]) + []
  {
    hide *;
    FreshDonesGrow(before, {}, complete);
    CompletedMeans({}, before);
    CompletedJoin(before, changes);
    assert before + changes == Emitted(rounds) + changes;
    RoundLast(rounds, changes, buffer);
  }

  lemma LastRound(rounds: seq<Round>, pending: seq<Event>, buffer: string, before: seq<Event>, complete: set<string>,
                  data: Value, source: Source, more: seq<Event>)
    requires before == Emitted(rounds) + pending && FreshDones(before, {}, complete)
    requires more == Ending(data, Observed.ObservedValues(buffer), complete, source)
    ensures var emitted := Emitted(rounds + [Round(pending, buffer)]);
      before + more == emitted + DonesOf(data, [], Completed({}, emitted), source)
  {
    hide *;
    FreshDonesGrow(before, {}, complete);
    CompletedMeans({}, before);
    var first := FreshObserved(Observed.ObservedValues(buffer), complete);
    EndingMeans(data, Observed.ObservedValues(buffer), complete, source);
    CompletedJoin(before, first);
    RoundLast(rounds, pending, buffer);
  }

  lemma CompletedMeans(complete: set<string>, events: seq<Event>)
    ensures Completed(complete, events) == complete + Elements(DonePaths(events))
  {
  }

  lemma EndingMeans(data: Value, observed: seq<Observed.Observation>, complete: set<string>, source: Source)
    ensures Ending(data, observed, complete, source)
         == FreshObserved(observed, complete)
           + DonesOf(data, [], Completed(complete, FreshObserved(observed, complete)), source)
  {
  }

  /**
    What a comparison can emit: its deltas, and done events of one source at places of the newer value, for
    values that stood at such a place of the older value already.
   */
  ghost predicate Comparison(events: seq<Event>, newer: Value, older: Value, source: Source) {
    Deltas(events) == DeltasOf(newer, older, []) && ShowsPlaces(events, newer, [], source) && Stable(events, older, [])
  }

  lemma ComparisonBy(events: seq<Event>, newer: Value, older: Value, source: Source)
    requires Deltas(events) == DeltasOf(newer, older, [])
    requires ShowsPlaces(events, newer, [], source) && Stable(events, older, [])
    ensures Comparison(events, newer, older, source)
  {
  }

  lemma TextsRecorded(log: seq<Event>, a: seq<Event>, b: seq<Event>, t0: map<string, string>, t1: map<string, string>)
    requires t0 == TextsAfter(map[], log) && t1 == TextsAfter(t0, a) && Deltas(b) == []
    ensures TextsAfter(map[], log + (a + b)) == t1
  {
    TextsJoin(map[], log, a + b);
    TextsJoin(t0, a, b);
    TextsUnchanged(t1, b);
  }

  /** The done events have one source and show values that stand in `v`. */
  ghost predicate ShowsPlaces(events: seq<Event>, v: Value, keys: seq<Key>, source: Source) {
    forall e :: e in events && e.Done? ==> e.source == source && StandsIn(v, keys, e.path, e.value)
  }

  lemma PlaceHere(v: Value, keys: seq<Key>)
    ensures StandsIn(v, keys, DotPath(keys), v)
  {
  }

  lemma PlacesInMember(events: seq<Event>, members: seq<Member>, k: nat, keys: seq<Key>, source: Source)
    requires k < |members| && ShowsPlaces(events, members[k].value, keys + [Name(members[k].key)], source)
    ensures ShowsPlaces(events, Obj(members), keys, source)
  {
  }

  lemma PlacesInItem(events: seq<Event>, items: seq<Value>, k: nat, keys: seq<Key>, source: Source)
    requires k < |items| && ShowsPlaces(events, items[k], keys + [Index(k)], source)
    ensures ShowsPlaces(events, Arr(items), keys, source)
  {
  }

  lemma PlacesJoin(a: seq<Event>, b: seq<Event>, v: Value, keys: seq<Key>, source: Source)
    requires ShowsPlaces(a, v, keys, source) && ShowsPlaces(b, v, keys, source)
    ensures ShowsPlaces(a + b, v, keys, source)
  {
    hide StandsIn;
  }

  lemma NoPlaces(events: seq<Event>, v: Value, keys: seq<Key>, source: Source)
    requires DonePaths(events) == []
    ensures ShowsPlaces(events, v, keys, source)
  {
    hide StandsIn;
    NoDonesInside(events);
  }

  lemma {:induction false} NoDonesInside(events: seq<Event>)
    requires DonePaths(events) == []
    ensures forall e :: e in events ==> !e.Done?
  {
    if events != [] { NoDonesInside(events[1..]); }
  }

  lemma DonePlaces(events: seq<Event>, v: Value, keys: seq<Key>, source: Source)
    requires forall e :: e in events ==> e == Done(DotPath(keys), v, source)
    ensures ShowsPlaces(events, v, keys, source)
  {
    PlaceHere(v, keys);
    hide StandsIn;
  }

  /** The done events show values that stand in `older`, and none that is absent. */
  ghost predicate Stable(events: seq<Event>, older: Value, keys: seq<Key>) {
    forall e :: e in events && e.Done? ==> e.value != NULL && StandsIn(older, keys, e.path, e.value)
  }

  ghost predicate StableInMembers(events: seq<Event>, older: seq<Member>, keys: seq<Key>) {
    forall e :: e in events && e.Done? ==>
      && e.value != NULL
      && exists k ::
           0 <= k < |older| && StandsIn(older[k].value, keys + [Name(older[k].key)], e.path, e.value)
  }

  ghost predicate StableInItems(events: seq<Event>, older: seq<Value>, keys: seq<Key>) {
    forall e :: e in events && e.Done? ==>
      e.value != NULL && exists k :: 0 <= k < |older| && StandsIn(older[k], keys + [Index(k)], e.path, e.value)
  }

  lemma StableNone(events: seq<Event>, older: Value, keys: seq<Key>)
    requires DonePaths(events) == []
    ensures Stable(events, older, keys)
  {
    hide StandsIn;
    NoDonesInside(events);
  }

  lemma NoneStable(members: seq<Member>, items: seq<Value>, keys: seq<Key>)
    ensures StableInMembers([], members, keys) && StableInItems([], items, keys)
  {
  }

  lemma StableJoin(a: seq<Event>, b: seq<Event>, older: Value, keys: seq<Key>)
    requires Stable(a, older, keys) && Stable(b, older, keys)
    ensures Stable(a + b, older, keys)
  {
    hide StandsIn;
  }

  lemma StableMembersJoin(a: seq<Event>, b: seq<Event>, older: seq<Member>, key: string, keys: seq<Key>)
    requires StableInMembers(a, older, keys) && Stable(b, MemberOrNull(older, key), keys + [Name(key)])
    ensures StableInMembers(a + b, older, keys)
  {
    var k := Find(older, key);
    if k == |older| {
      assert forall e :: e in b ==> !e.Done?;
    } else {
      hide StandsIn;
      assert older[k].key == key;
    }
  }

  lemma StableItemsJoin(a: seq<Event>, b: seq<Event>, older: seq<Value>, k: nat, keys: seq<Key>)
    requires StableInItems(a, older, keys) && Stable(b, ItemOrNull(older, k), keys + [Index(k)])
    ensures StableInItems(a + b, older, keys)
  {
    if k >= |older| {
      assert forall e :: e in b ==> !e.Done?;
    } else {
      hide StandsIn;
    }
  }

  lemma StableParts(events: seq<Event>, older: Value, keys: seq<Key>)
    requires StableInMembers(events, MembersOf(older), keys) || StableInItems(events, ItemsOf(older), keys)
    ensures Stable(events, older, keys)
  {
  }

  lemma StableHere(events: seq<Event>, v: Value, keys: seq<Key>, source: Source)
    requires forall e :: e in events ==> e == Done(DotPath(keys), v, source) && v != NULL
    ensures Stable(events, v, keys)
  {
    PlaceHere(v, keys);
    hide StandsIn;
  }

  // The definitions, unfolded once.

  lemma ContainerDeltas(current: Value, previous: Value, keys: seq<Key>)
    ensures current.Obj? ==>
      DeltasOf(current, previous, keys) == MemberDeltas(current.members, MembersOf(previous), keys)
    ensures current.Arr? ==> DeltasOf(current, previous, keys) == ItemDeltas(current.items, ItemsOf(previous), keys, 0)
  {
  }

  lemma MemberDeltasFirst(members: seq<Member>, previous: seq<Member>, keys: seq<Key>)
    ensures MemberDeltas(members, previous, keys) == if members == [] then []
      else DeltasOf(members[0].value, MemberOrNull(previous, members[0].key), keys + [Name(members[0].key)])
             + MemberDeltas(members[1..], previous, keys)
  {
  }

  lemma ItemDeltasFirst(items: seq<Value>, previous: seq<Value>, keys: seq<Key>, index: nat)
    ensures ItemDeltas(items, previous, keys, index) == if items == [] then []
      else
        DeltasOf(items[0], ItemOrNull(previous, index), keys + [Index(index)])
          + ItemDeltas(items[1..], previous, keys, index + 1)
  {
  }

  lemma FreshObservedFirst(observed: seq<Observed.Observation>, complete: set<string>)
    ensures FreshObserved(observed, complete) == if observed == [] then []
      else if observed[0].path in complete then FreshObserved(observed[1..], complete)
      else [Done(observed[0].path, observed[0].value, ObservedBoundary)]
             + FreshObserved(observed[1..], complete + {observed[0].path})
  {
  }

  lemma MemberDonesFirst(members: seq<Member>, keys: seq<Key>, complete: set<string>, source: Source)
    ensures MemberDones(members, keys, complete, source) == if members == [] then []
      else
        var first := DonesOf(members[0].value, keys + [Name(members[0].key)], complete, source);
        first + MemberDones(members[1..], keys, complete + Elements(DonePaths(first)), source)
  {
  }

  lemma ItemDonesFirst(items: seq<Value>, keys: seq<Key>, index: nat, complete: set<string>, source: Source)
    ensures ItemDones(items, keys, index, complete, source) == if items == [] then []
      else
        var first := DonesOf(items[0], keys + [Index(index)], complete, source);
        first + ItemDones(items[1..], keys, index + 1, complete + Elements(DonePaths(first)), source)
  {
  }

  lemma DonesMeans(data: Value, keys: seq<Key>, complete: set<string>, source: Source, below: seq<Event>,
                   after: set<string>)
    requires FreshDones(below, complete, after)
    requires below == match data {
      case Obj(members) => MemberDones(members, keys, complete, source)
      case Arr(items) => ItemDones(items, keys, 0, complete, source)
      case _ => []
    }
    ensures DonesOf(data, keys, complete, source)
         == below + if DotPath(keys) != "" && DotPath(keys) !in after then [Done(DotPath(keys), data, source)] else []
  {
  }

  /** The deltas of a run of comparisons. */
  function AllDeltas(compared: seq<(Value, Value)>): seq<Event> {
    if compared == [] then []
    else AllDeltas(compared[..|compared| - 1]) + DeltasOf(compared[|compared| - 1].1, compared[|compared| - 1].0, [])
  }

  /** Every path into `v`, taken from `keys` on, is in `paths`. */
  ghost predicate AllPathsIn(v: Value, keys: seq<Key>, paths: set<string>) {
    forall rel :: Lookup(v, rel).Some? && DotPath(keys + rel) != "" ==> DotPath(keys + rel) in paths
  }

  class StreamingJSONParser {
    const completer: Completer.StreamingJSONCompleter
    const maxIncompleteParseChars: int
    /**
      The decoder, as a partial function, whether it reads a number as zero, and the choice between several
      located blocks.
     */
    const json5: string -> Option<Value>
    const zero: string -> bool
    const choose: seq<string> -> string

    var previousData: Value
    var currentData: Value
    var fieldCompletionStatus: set<string>
    var stringValues: map<string, string>
    var deferred: bool

    /** All events so far, and the pairs of values compared so far, older value first. */
    ghost var log: seq<Event>
    ghost var compared: seq<(Value, Value)>

    constructor (maxChars: int, json5: string -> Option<Value>, zero: string -> bool, choose: seq<string> -> string)
      ensures Valid() && fresh(completer) && completer.buffer == "" && log == [] && compared == []
      ensures currentData == Obj([]) && fieldCompletionStatus == {} && !deferred
      ensures this.maxIncompleteParseChars == maxChars && this.json5 == json5 && this.zero == zero
        && this.choose == choose
    {
      completer := new Completer.StreamingJSONCompleter();
      maxIncompleteParseChars := maxChars;
      this.json5 := json5;
      this.zero := zero;
      this.choose := choose;
      previousData, currentData := Obj([]), Obj([]);
      fieldCompletionStatus, stringValues, deferred := {}, map[], false;
      log, compared := [], [];
    }

    /**
      Done events are exactly-once so far: no path has two of them, and the paths marked as complete are
      exactly those that had one. The deltas so far are those of the comparisons so far, and the last text sent
      for each path is on record.
     */
    ghost predicate Valid()
      reads this
    {
      && FreshDones(log, {}, fieldCompletionStatus)
      && Deltas(log) == AllDeltas(compared)
      && stringValues == TextsAfter(map[], log)
    }

    lemma ValidMeans()
      ensures Valid() <==>
        FreshDones(log, {}, fieldCompletionStatus) && Deltas(log) == AllDeltas(compared)
          && stringValues == TextsAfter(map[], log)
    {
    }

    /** What a text decodes to, by the block located in it. */
    function Decoded(text: string): Option<Value> {
      match Locator.LocateOutput(text, choose)
      case None => None
      case Some(block) => if block == "" then None else json5(block)
    }

    /** What reading the completed buffer gives. */
    function Readable(buffer: string): Option<Value> { Decoded(Completer.Completed(buffer)) }

    method ParseBufferOnce() returns (parsed: bool)
      modifies this`previousData, this`currentData
      ensures parsed == Readable(completer.buffer).Some?
      ensures if parsed then currentData == Readable(completer.buffer).value && previousData == old(currentData)
              else currentData == old(currentData) && previousData == old(previousData)
    {
      var completedJson := completer.Complete();
      var located := Locator.LocateOutput(completedJson, choose);
      if located.None? || located.value == "" {
        return false;
      }
      var data := json5(located.value);
      if data.None? {
        return false;
      }
      previousData := currentData;
      currentData := data.value;
      return true;
    }

    /**
      The completion heuristic: it answers yes only for a path that is not complete yet, with a value that is
      there and did not change since it was last read. Beyond that it is arbitrary here.
     */
    method ShouldMarkFieldComplete(path: string, current: Value, previous: Value) returns (answer: bool)
      ensures answer ==> path !in fieldCompletionStatus && current == previous && current != NULL
    {
      if path in fieldCompletionStatus {
        return false;
      }
      answer := *;
      answer := answer && current == previous && current != NULL;
    }

    /** Marks a path as complete when the heuristic says so. */
    method MaybeDone(path: string, current: Value, previous: Value, source: Source) returns (events: seq<Event>)
      modifies this`fieldCompletionStatus
      ensures FreshDones(events, old(fieldCompletionStatus), fieldCompletionStatus) && Deltas(events) == []
      ensures forall e :: e in events ==>
        e == Done(path, current, source) && current == previous && current != NULL
    {
      events := [];
      NoDones([], fieldCompletionStatus);
      if path != "" {
        var mark := ShouldMarkFieldComplete(path, current, previous);
        if mark {
          events := [Done(path, current, source)];
          OneDone(events[0], fieldCompletionStatus);
          fieldCompletionStatus := fieldCompletionStatus + {path};
        }
      }
    }

    /** The deltas of a leaf. */
    method LeafDeltas(current: Value, previous: Value, path: string) returns (events: seq<Event>)
      requires !current.Obj? && !current.Arr?
      modifies this`stringValues
      ensures DonePaths(events) == [] && stringValues == TextsAfter(old(stringValues), events)
      ensures forall keys :: DotPath(keys) == path ==> Deltas(events) == DeltasOf(current, previous, keys)
    {
      events := [];
      match current
      case Str(text) =>
        var previousText := TextOf(previous);
        if text != previousText {
          var delta;
          if previousText != "" && previousText <= text {
            delta := text[|previousText|..];
          } else {
            delta := text;
          }
          if delta != "" {
            events := [Delta(path, current, delta)];
            OneDelta(events[0]);
            stringValues := stringValues[path := text];
          }
        }
      case Num(lexeme) =>
        if current != previous {
          events := [Delta(path, current, lexeme)];
          OneDelta(events[0]);
        }
      case Word(lexeme) =>
        if current != NULL && current != previous {
          events := [Delta(path, current, lexeme)];
          OneDelta(events[0]);
        }
    }

    /**
      One comparison: exactly the deltas of the two values, and done events only for paths that were not
      complete, at places of the current value.
     */
    method TraverseAndCompare(current: Value, previous: Value, keys: seq<Key>, source: Source)
      returns (events: seq<Event>)
      modifies this`fieldCompletionStatus, this`stringValues
      ensures FreshDones(events, old(fieldCompletionStatus), fieldCompletionStatus)
        && ShowsPlaces(events, current, keys, source) && Stable(events, previous, keys)
      ensures Deltas(events) == DeltasOf(current, previous, keys)
      ensures stringValues == TextsAfter(old(stringValues), events)
      decreases current, 1
    {
      hide *;
      var path := BuildDotPath(keys);
      ContainerDeltas(current, previous, keys);
      if current.Obj? {
        events := TraverseMembers(current.members, MembersOf(previous), keys, source);
        StableParts(events, previous, keys);
      } else if current.Arr? {
        events := TraverseItems(current.items, ItemsOf(previous), keys, source);
        StableParts(events, previous, keys);
      } else {
        events := LeafDeltas(current, previous, path);
        NoDones(events, fieldCompletionStatus);
        NoPlaces(events, current, keys, source);
        StableNone(events, previous, keys);
        if current == NULL { return; }
      }
      ghost var middle := fieldCompletionStatus;
      var done := MaybeDone(path, current, previous, source);
      FreshDonesJoin(events, done, old(fieldCompletionStatus), middle, fieldCompletionStatus);
      DeltasJoin(events, done);
      assert Deltas(events) + [] == Deltas(events);
      TextsJoin(old(stringValues), events, done);
      TextsUnchanged(stringValues, done);
      DonePlaces(done, current, keys, source);
      PlacesJoin(events, done, current, keys, source);
      if done != [] {
        assert done[0] in done;
        StableHere(done, current, keys, source);
      } else {
        NoneEmitted();
        StableNone(done, previous, keys);
      }
      StableJoin(events, done, previous, keys);
      events := events + done;
    }

    method TraverseMembers(members: seq<Member>, previous: seq<Member>, keys: seq<Key>, source: Source)
      returns (events: seq<Event>)
      modifies this`fieldCompletionStatus, this`stringValues
      ensures FreshDones(events, old(fieldCompletionStatus), fieldCompletionStatus)
        && ShowsPlaces(events, Obj(members), keys, source) && StableInMembers(events, previous, keys)
      ensures Deltas(events) == MemberDeltas(members, previous, keys)
      ensures stringValues == TextsAfter(old(stringValues), events)
      decreases members, 0
    {
      hide *;
      events := [];
      NoneEmitted();
      NoDones([], fieldCompletionStatus);
      NoPlaces([], Obj(members), keys, source);
      NoneStable(previous, [], keys);
      TextsUnchanged(stringValues, []);
      assert members[0..] == members;
      for i := 0 to |members|
        invariant FreshDones(events, old(fieldCompletionStatus), fieldCompletionStatus)
          && ShowsPlaces(events, Obj(members), keys, source) && StableInMembers(events, previous, keys)
        invariant Deltas(events) + MemberDeltas(members[i..], previous, keys) == MemberDeltas(members, previous, keys)
        invariant stringValues == TextsAfter(old(stringValues), events)
      {
        ghost var middle := fieldCompletionStatus;
        var m := members[i];
        assert members[i..][0] == m && members[i..][1..] == members[i + 1..];
        MemberDeltasFirst(members[i..], previous, keys);
        var more := TraverseAndCompare(m.value, MemberOrNull(previous, m.key), keys + [Name(m.key)], source);
        FreshDonesJoin(events, more, old(fieldCompletionStatus), middle, fieldCompletionStatus);
        DeltasJoin(events, more);
        TextsJoin(old(stringValues), events, more);
        PlacesInMember(more, members, i, keys, source);
        PlacesJoin(events, more, Obj(members), keys, source);
        StableMembersJoin(events, more, previous, m.key, keys);
        events := events + more;
      }
      MemberDeltasFirst(members[|members|..], previous, keys);
    }

    method TraverseItems(items: seq<Value>, previous: seq<Value>, keys: seq<Key>, source: Source)
      returns (events: seq<Event>)
      modifies this`fieldCompletionStatus, this`stringValues
      ensures FreshDones(events, old(fieldCompletionStatus), fieldCompletionStatus)
        && ShowsPlaces(events, Arr(items), keys, source) && StableInItems(events, previous, keys)
      ensures Deltas(events) == ItemDeltas(items, previous, keys, 0)
      ensures stringValues == TextsAfter(old(stringValues), events)
      decreases items, 0
    {
      hide *;
      events := [];
      NoneEmitted();
      NoDones([], fieldCompletionStatus);
      NoPlaces([], Arr(items), keys, source);
      NoneStable([], previous, keys);
      TextsUnchanged(stringValues, []);
      assert items[0..] == items;
      for i := 0 to |items|
        invariant FreshDones(events, old(fieldCompletionStatus), fieldCompletionStatus)
          && ShowsPlaces(events, Arr(items), keys, source) && StableInItems(events, previous, keys)
        invariant Deltas(events) + ItemDeltas(items[i..], previous, keys, i) == ItemDeltas(items, previous, keys, 0)
        invariant stringValues == TextsAfter(old(stringValues), events)
      {
        ghost var middle := fieldCompletionStatus;
        assert items[i..][0] == items[i] && items[i..][1..] == items[i + 1..];
        ItemDeltasFirst(items[i..], previous, keys, i);
        var more := TraverseAndCompare(items[i], ItemOrNull(previous, i), keys + [Index(i)], source);
        FreshDonesJoin(events, more, old(fieldCompletionStatus), middle, fieldCompletionStatus);
        DeltasJoin(events, more);
        TextsJoin(old(stringValues), events, more);
        PlacesInItem(more, items, i, keys, source);
        PlacesJoin(events, more, Arr(items), keys, source);
        StableItemsJoin(events, more, previous, i, keys);
        events := events + more;
      }
      ItemDeltasFirst(items[|items|..], previous, keys, |items|);
    }

    method CompareAndGenerateEvents(source: Source) returns (events: seq<Event>)
      modifies this`fieldCompletionStatus, this`stringValues
      ensures FreshDones(events, old(fieldCompletionStatus), fieldCompletionStatus)
        && ShowsPlaces(events, currentData, [], source) && Stable(events, previousData, [])
      ensures Deltas(events) == DeltasOf(currentData, previousData, [])
      ensures stringValues == TextsAfter(old(stringValues), events)
    {
      events := TraverseAndCompare(currentData, previousData, [], source);
    }

    /** Done events for what the raw buffer closes, in the order observed, each with the observed value. */
    method EmitObservedBoundaryEvents() returns (events: seq<Event>)
      modifies this`fieldCompletionStatus
      ensures FreshDones(events, old(fieldCompletionStatus), fieldCompletionStatus) && Deltas(events) == []
      ensures events == FreshObserved(Observed.ObservedValues(completer.buffer), old(fieldCompletionStatus))
      ensures forall o :: o in Observed.ObservedValues(completer.buffer) ==> o.path in fieldCompletionStatus
    {
      hide *;
      var observed := Observed.ObservedCompleteValues(completer.buffer);
      events := [];
      NoneEmitted();
      NoDones([], fieldCompletionStatus);
      assert observed[0..] == observed;
      assert [] + FreshObserved(observed, fieldCompletionStatus) == FreshObserved(observed, fieldCompletionStatus);
      for i := 0 to |observed|
        invariant FreshDones(events, old(fieldCompletionStatus), fieldCompletionStatus) && Deltas(events) == []
        invariant events + FreshObserved(observed[i..], fieldCompletionStatus)
          == FreshObserved(observed, old(fieldCompletionStatus))
        invariant forall k :: 0 <= k < i ==> observed[k].path in fieldCompletionStatus
      {
        var o := observed[i];
        assert observed[i..][0] == o && observed[i..][1..] == observed[i + 1..];
        FreshObservedFirst(observed[i..], fieldCompletionStatus);
        if o.path in fieldCompletionStatus {
          continue;
        }
        Observed.ObservedHavePaths(completer.buffer, i);
        var e := Done(o.path, o.value, ObservedBoundary);
        OneDone(e, fieldCompletionStatus);
        FreshDonesJoin(events, [e], old(fieldCompletionStatus), fieldCompletionStatus,
          fieldCompletionStatus + {o.path});
        DeltasJoin(events, [e]);
        fieldCompletionStatus := fieldCompletionStatus + {o.path};
        events := events + [e];
      }
      FreshObservedFirst(observed[|observed|..], fieldCompletionStatus);
      assert events + [] == events;
    }

    /** Done events for every path into a value that has had none, children before parents. */
    method MarkAllComplete(data: Value, keys: seq<Key>, source: Source) returns (events: seq<Event>)
      modifies this`fieldCompletionStatus
      ensures FreshDones(events, old(fieldCompletionStatus), fieldCompletionStatus) && Deltas(events) == []
      ensures events == DonesOf(data, keys, old(fieldCompletionStatus), source)
      ensures AllPathsIn(data, keys, fieldCompletionStatus)
      decreases data, 1
    {
      hide *;
      var path := BuildDotPath(keys);
      events := [];
      NoneEmitted();
      NoDones([], fieldCompletionStatus);
      if data.Obj? {
        events := MarkMembersComplete(data.members, keys, source);
      } else if data.Arr? {
        events := MarkItemsComplete(data.items, keys, source);
      }
      ghost var middle := fieldCompletionStatus;
      DonesMeans(data, keys, old(fieldCompletionStatus), source, events, middle);
      if path != "" && path !in fieldCompletionStatus {
        var e := Done(path, data, source);
        OneDone(e, fieldCompletionStatus);
        FreshDonesJoin(events, [e], old(fieldCompletionStatus), middle, middle + {path});
        DeltasJoin(events, [e]);
        fieldCompletionStatus := fieldCompletionStatus + {path};
        events := events + [e];
      } else {
        assert events + [] == events;
      }
      AllPathsHere(data, keys, middle, fieldCompletionStatus);
    }

    method MarkMembersComplete(members: seq<Member>, keys: seq<Key>, source: Source) returns (events: seq<Event>)
      modifies this`fieldCompletionStatus
      ensures FreshDones(events, old(fieldCompletionStatus), fieldCompletionStatus) && Deltas(events) == []
      ensures events == MemberDones(members, keys, old(fieldCompletionStatus), source)
      ensures forall k :: 0 <= k < |members| ==>
        AllPathsIn(members[k].value, keys + [Name(members[k].key)], fieldCompletionStatus)
      decreases members, 0
    {
      hide *;
      events := [];
      NoneEmitted();
      NoDones([], fieldCompletionStatus);
      assert members[0..] == members;
      assert [] + MemberDones(members, keys, fieldCompletionStatus, source)
        == MemberDones(members, keys, fieldCompletionStatus, source);
      for i := 0 to |members|
        invariant FreshDones(events, old(fieldCompletionStatus), fieldCompletionStatus) && Deltas(events) == []
        invariant events + MemberDones(members[i..], keys, fieldCompletionStatus, source)
          == MemberDones(members, keys, old(fieldCompletionStatus), source)
        invariant forall k :: 0 <= k < i ==>
          AllPathsIn(members[k].value, keys + [Name(members[k].key)], fieldCompletionStatus)
      {
        ghost var middle := fieldCompletionStatus;
        assert members[i..][0] == members[i] && members[i..][1..] == members[i + 1..];
        MemberDonesFirst(members[i..], keys, middle, source);
        var more := MarkAllComplete(members[i].value, keys + [Name(members[i].key)], source);
        FreshDonesJoin(events, more, old(fieldCompletionStatus), middle, fieldCompletionStatus);
        FreshDonesGrow(more, middle, fieldCompletionStatus);
        forall k | 0 <= k < i
          ensures AllPathsIn(members[k].value, keys + [Name(members[k].key)], fieldCompletionStatus) {
          AllPathsGrow(members[k].value, keys + [Name(members[k].key)], middle, fieldCompletionStatus);
        }
        DeltasJoin(events, more);
        events := events + more;
      }
      MemberDonesFirst(members[|members|..], keys, fieldCompletionStatus, source);
      assert events + [] == events;
    }

    method MarkItemsComplete(items: seq<Value>, keys: seq<Key>, source: Source) returns (events: seq<Event>)
      modifies this`fieldCompletionStatus
      ensures FreshDones(events, old(fieldCompletionStatus), fieldCompletionStatus) && Deltas(events) == []
      ensures events == ItemDones(items, keys, 0, old(fieldCompletionStatus), source)
      ensures forall k :: 0 <= k < |items| ==> AllPathsIn(items[k], keys + [Index(k)], fieldCompletionStatus)
      decreases items, 0
    {
      hide *;
      events := [];
      NoneEmitted();
      NoDones([], fieldCompletionStatus);
      assert items[0..] == items;
      assert [] + ItemDones(items, keys, 0, fieldCompletionStatus, source)
        == ItemDones(items, keys, 0, fieldCompletionStatus, source);
      for i := 0 to |items|
        invariant FreshDones(events, old(fieldCompletionStatus), fieldCompletionStatus) && Deltas(events) == []
        invariant events + ItemDones(items[i..], keys, i, fieldCompletionStatus, source)
          == ItemDones(items, keys, 0, old(fieldCompletionStatus), source)
        invariant forall k :: 0 <= k < i ==> AllPathsIn(items[k], keys + [Index(k)], fieldCompletionStatus)
      {
        ghost var middle := fieldCompletionStatus;
        assert items[i..][0] == items[i] && items[i..][1..] == items[i + 1..];
        ItemDonesFirst(items[i..], keys, i, middle, source);
        var more := MarkAllComplete(items[i], keys + [Index(i)], source);
        FreshDonesJoin(events, more, old(fieldCompletionStatus), middle, fieldCompletionStatus);
        FreshDonesGrow(more, middle, fieldCompletionStatus);
        forall k | 0 <= k < i ensures AllPathsIn(items[k], keys + [Index(k)], fieldCompletionStatus) {
          AllPathsGrow(items[k], keys + [Index(k)], middle, fieldCompletionStatus);
        }
        DeltasJoin(events, more);
        events := events + more;
      }
      ItemDonesFirst(items[|items|..], keys, |items|, fieldCompletionStatus, source);
      assert events + [] == events;
    }

    /** The buffer is too large to be read before the end. */
    predicate Defers(buffer: string) {
      maxIncompleteParseChars > 0 && |buffer| > maxIncompleteParseChars
    }

    /**
      One chunk. Whatever the heuristic answers, the bookkeeping stays exact; a value is compared only when
      the buffer could be read, and then with the value before it.
     */
    method ParseChunk(chunk: string) returns (events: seq<Event>)
      requires Valid()
      modifies this, completer
      ensures Valid() && log == old(log) + events && completer.buffer == old(completer.buffer) + chunk
      ensures old(fieldCompletionStatus) <= fieldCompletionStatus
      ensures if !Defers(completer.buffer) && Readable(completer.buffer).Some? then
          && currentData == Readable(completer.buffer).value
          && compared == old(compared) + [(old(currentData), currentData)]
          && exists changes ::
               var complete := Completed(old(fieldCompletionStatus), changes);
               && Comparison(changes, currentData, old(currentData), ObservedBoundary)
               && events == changes + FreshObserved(Observed.ObservedValues(completer.buffer), complete)
        else
          && currentData == old(currentData) && compared == old(compared)
          && events == (
               if !Defers(completer.buffer) then
                 FreshObserved(Observed.ObservedValues(completer.buffer), old(fieldCompletionStatus))
               else if old(deferred) then []
               else [Status(|completer.buffer|, maxIncompleteParseChars)])
      ensures deferred <==> old(deferred) || Defers(completer.buffer)
      ensures !Defers(completer.buffer) ==>
        forall o :: o in Observed.ObservedValues(completer.buffer) ==> o.path in fieldCompletionStatus
    {
      hide *;
      ValidMeans();
      completer.Append(chunk);
      events := [];
      DefersMeans(completer.buffer);
      if maxIncompleteParseChars > 0 && |completer.buffer| > maxIncompleteParseChars {
        if !deferred {
          deferred := true;
          events := [Status(|completer.buffer|, maxIncompleteParseChars)];
          OneStatus(events[0]);
          NoDones(events, fieldCompletionStatus);
          FreshDonesJoin(log, events, {}, fieldCompletionStatus, fieldCompletionStatus);
          DeltasJoin(log, events);
          assert Deltas(log) + [] == Deltas(log);
          TextsJoin(map[], log, events);
          TextsUnchanged(stringValues, events);
        }
        assert log + [] == log;
        log := log + events;
        ValidMeans();
        return;
      }
      NoneEmitted();
      NoDones([], fieldCompletionStatus);
      TextsUnchanged(stringValues, []);
      var parsed := ParseBufferOnce();
      ghost var start := fieldCompletionStatus;
      ghost var texts := stringValues;
      if parsed {
        events := CompareAndGenerateEvents(ObservedBoundary);
        ComparedMore(compared, previousData, currentData);
        compared := compared + [(previousData, currentData)];
        ComparisonBy(events, currentData, previousData, ObservedBoundary);
      }
      ghost var changes, middle := events, fieldCompletionStatus;
      FreshDonesGrow(changes, start, middle);
      CompletedMeans(start, changes);
      var observed := EmitObservedBoundaryEvents();
      Recorded(log, events, observed, start, middle, fieldCompletionStatus);
      assert Deltas(log) + (Deltas(events) + []) == Deltas(log) + Deltas(events);
      TextsRecorded(log, events, observed, texts, stringValues);
      events := events + observed;
      if !parsed { assert events == observed; }
      log := log + events;
      ValidMeans();
    }

    lemma DefersMeans(buffer: string)
      ensures Defers(buffer) <==> maxIncompleteParseChars > 0 && |buffer| > maxIncompleteParseChars
    {
    }

    method FlushObservedBoundaries() returns (events: seq<Event>)
      requires Valid()
      modifies this
      ensures Valid() && log == old(log) + events && compared == old(compared) && currentData == old(currentData)
      ensures old(fieldCompletionStatus) <= fieldCompletionStatus
      ensures events == FreshObserved(Observed.ObservedValues(completer.buffer), old(fieldCompletionStatus))
    {
      hide *;
      ValidMeans();
      ghost var start := fieldCompletionStatus;
      NoneEmitted();
      NoDones([], start);
      events := EmitObservedBoundaryEvents();
      Recorded(log, [], events, start, start, fieldCompletionStatus);
      assert [] + events == events && Deltas(log) + ([] + []) == Deltas(log);
      TextsUnchanged(stringValues, []);
      TextsRecorded(log, [], events, stringValues, stringValues);
      log := log + events;
      ValidMeans();
    }

    /** How events are labelled that no observed boundary backs. */
    function Label(given: Option<Source>, buffer: string): Source {
      match given
      case Some(source) => source
      case None => if Provenance.LooksComplete(buffer) then FinalReconciliation else SyntheticRepair
    }

    lemma LabelMeans(given: Option<Source>, buffer: string)
      ensures Label(given, buffer) == match given {
        case Some(source) => source
        case None => if Provenance.LooksComplete(buffer) then FinalReconciliation else SyntheticRepair
      }
    {
    }

    /** What Python counts as false. */
    predicate Falsy(v: Value) {
      match v
      case Str(text) => text == ""
      case Num(lexeme) => zero(lexeme)
      case Word(lexeme) => lexeme == "null" || lexeme == "false"
      case Obj(members) => members == []
      case Arr(items) => items == []
    }

    /** The values that count as none: the empty ones, the two words, and the numbers that are zero. */
    lemma FalsyValues(v: Value)
      ensures Falsy(v) <==>
        v in [Str(""), Obj([]), Arr([]), Word("null"), Word("false")] || (v.Num? && zero(v.lexeme))
    {
    }

    /** The value at the end of the stream: read once more when there was none or the raw buffer is complete. */
    function Reread(value: Value, buffer: string): Value {
      if buffer != "" && (Falsy(value) || Provenance.LooksComplete(buffer)) && Readable(buffer).Some?
        then Readable(buffer).value
      else value
    }

    lemma RereadMeans(value: Value, buffer: string)
      ensures Reread(value, buffer) ==
        if buffer != "" && (Falsy(value) || Provenance.LooksComplete(buffer)) && Readable(buffer).Some?
          then Readable(buffer).value
        else value
    {
    }

    /**
      The end of the stream: every path into the current value is complete. Events that are not backed by an
      observed boundary are labelled by what the raw buffer looks like.
     */
    method Finalize(completionSource: Option<Source>) returns (events: seq<Event>)
      requires Valid()
      modifies this
      ensures Valid() && log == old(log) + events && compared == old(compared)
      ensures old(fieldCompletionStatus) <= fieldCompletionStatus
      ensures AllPathsIn(currentData, [], fieldCompletionStatus)
      ensures currentData == Reread(old(currentData), completer.buffer)
      ensures var tag := Label(completionSource, completer.buffer);
        events == Ending(currentData, Observed.ObservedValues(completer.buffer), old(fieldCompletionStatus), tag)
    {
      hide *;
      ValidMeans();
      var rawBuffer := completer.buffer;
      var structurallyComplete := Provenance.LooksStructurallyComplete(rawBuffer);
      LabelMeans(completionSource, rawBuffer);
      RereadMeans(currentData, rawBuffer);
      var source;
      match completionSource {
        case Some(given) => source := given;
        case None => source := if structurallyComplete then FinalReconciliation else SyntheticRepair;
      }
      if rawBuffer != "" && (Falsy(currentData) || structurallyComplete) {
        var parsed := ParseBufferOnce();
      }
      ghost var start := fieldCompletionStatus;
      var observed := EmitObservedBoundaryEvents();
      ghost var middle := fieldCompletionStatus;
      FreshDonesGrow(observed, start, middle);
      CompletedMeans(start, observed);
      var marked := MarkAllComplete(currentData, [], source);
      Recorded(log, observed, marked, start, middle, fieldCompletionStatus);
      assert Deltas(log) + ([] + []) == Deltas(log);
      TextsUnchanged(stringValues, observed);
      TextsRecorded(log, observed, marked, stringValues, stringValues);
      EndingMeans(currentData, Observed.ObservedValues(completer.buffer), start, source);
      events := observed + marked;
      log := log + events;
      ValidMeans();
    }

    /** Brings the consumers to a final value from elsewhere: its changes first, then the end of the stream. */
    method FlushFinalData(finalData: Value, completionSource: Option<Source>) returns (events: seq<Event>)
      requires Valid()
      modifies this
      ensures Valid() && log == old(log) + events
      ensures old(fieldCompletionStatus) <= fieldCompletionStatus
      ensures finalData == NULL ==> events == [] && currentData == old(currentData) && compared == old(compared)
      ensures finalData != NULL ==> AllPathsIn(currentData, [], fieldCompletionStatus)
      ensures finalData != NULL ==> currentData == Reread(finalData, completer.buffer)
      ensures finalData != NULL ==>
        compared == if old(currentData) != finalData then old(compared) + [(old(currentData), finalData)]
          else old(compared)
      ensures finalData != NULL ==>
        var tag := Label(completionSource, completer.buffer);
        exists changes ::
          && (if old(currentData) != finalData then Comparison(changes, finalData, old(currentData), tag)
            else changes == [])
          && events == changes
               + Ending(currentData, Observed.ObservedValues(completer.buffer),
                 Completed(old(fieldCompletionStatus), changes), tag)
    {
      hide *;
      ValidMeans();
      events := [];
      assert log + [] == log;
      if finalData == NULL {
        return;
      }
      LabelMeans(completionSource, completer.buffer);
      var source;
      match completionSource {
        case Some(given) => source := given;
        case None =>
          var structurallyComplete := Provenance.LooksStructurallyComplete(completer.buffer);
          source := if structurallyComplete then FinalReconciliation else SyntheticRepair;
      }
      ghost var start := fieldCompletionStatus;
      NoneEmitted();
      NoDones([], fieldCompletionStatus);
      if currentData != finalData {
        previousData := currentData;
        currentData := finalData;
        ghost var texts := stringValues;
        events := CompareAndGenerateEvents(source);
        ComparedMore(compared, previousData, currentData);
        compared := compared + [(previousData, currentData)];
        ComparisonBy(events, currentData, previousData, source);
        NoDones([], fieldCompletionStatus);
        Recorded(log, events, [], start, fieldCompletionStatus, fieldCompletionStatus);
        TextsUnchanged(stringValues, []);
        TextsRecorded(log, events, [], texts, stringValues);
        assert events + [] == events;
        assert Deltas(log) + (Deltas(events) + []) == Deltas(log) + Deltas(events);
        log := log + events;
      }
      ValidMeans();
      ghost var changes, was := events, log;
      FreshDonesGrow(changes, start, fieldCompletionStatus);
      CompletedMeans(start, changes);
      LabelMeans(Some(source), completer.buffer);
      var more := Finalize(Some(source));
      assert was + more == old(log) + (events + more);
      events := events + more;
    }

    /** The comparisons a run of chunks leads to: one for every buffer that is read, each with the value before. */
    function Comparisons(value: Value, buffer: string, chunks: seq<string>): seq<(Value, Value)>
      decreases |chunks|
    {
      if chunks == [] then []
      else
        var longer := buffer + chunks[0];
        if !Defers(longer) && Readable(longer).Some? then
          [(value, Readable(longer).value)] + Comparisons(Readable(longer).value, longer, chunks[1..])
        else Comparisons(value, longer, chunks[1..])
    }

    lemma ComparisonsFirst(value: Value, buffer: string, chunks: seq<string>)
      ensures Comparisons(value, buffer, chunks) == if chunks == [] then []
        else if !Defers(buffer + chunks[0]) && Readable(buffer + chunks[0]).Some? then
          [(value, Readable(buffer + chunks[0]).value)]
            + Comparisons(Readable(buffer + chunks[0]).value, buffer + chunks[0], chunks[1..])
        else Comparisons(value, buffer + chunks[0], chunks[1..])
    {
    }

    /** The buffers that the chunks lead to and that are not deferred. */
    function Read(buffer: string, chunks: seq<string>): seq<string>
      decreases |chunks|
    {
      if chunks == [] then []
      else
        var longer := buffer + chunks[0];
        (if Defers(longer) then [] else [longer]) + Read(longer, chunks[1..])
    }

    lemma ReadFirst(buffer: string, chunks: seq<string>)
      ensures Read(buffer, chunks) == if chunks == [] then []
        else (if Defers(buffer + chunks[0]) then [] else [buffer + chunks[0]]) + Read(buffer + chunks[0], chunks[1..])
    {
    }

    /** The status events of the chunks: one at the first buffer that is deferred, unless there was one before. */
    function Waiting(deferred: bool, buffer: string, chunks: seq<string>): seq<Event>
      decreases |chunks|
    {
      if chunks == [] then []
      else
        var longer := buffer + chunks[0];
        (if Defers(longer) && !deferred then [Status(|longer|, maxIncompleteParseChars)] else [])
          + Waiting(deferred || Defers(longer), longer, chunks[1..])
    }

    lemma WaitingFirst(deferred: bool, buffer: string, chunks: seq<string>)
      ensures Waiting(deferred, buffer, chunks) == if chunks == [] then []
        else
          var longer := buffer + chunks[0];
          (if Defers(longer) && !deferred then [Status(|longer|, maxIncompleteParseChars)] else [])
            + Waiting(deferred || Defers(longer), longer, chunks[1..])
    {
    }

    /** The value after reading some buffers: that of the last one that can be read. */
    function ReadLast(value: Value, buffers: seq<string>): Value {
      if buffers == [] then value
      else if Readable(buffers[|buffers| - 1]).Some? then Readable(buffers[|buffers| - 1]).value
      else ReadLast(value, buffers[..|buffers| - 1])
    }

    /** What happens in each round before the raw buffer is looked at: one comparison, if the buffer is read. */
    ghost predicate Compares(value: Value, rounds: seq<Round>) {
      rounds == [] ||
      var earlier, last := rounds[..|rounds| - 1], rounds[|rounds| - 1];
      && Compares(value, earlier)
      && if Readable(last.buffer).Some? then
           Comparison(last.changes, Readable(last.buffer).value, ReadLast(value, Buffers(earlier)), ObservedBoundary)
         else last.changes == []
    }

    lemma NoRoundsCompare(value: Value)
      ensures Compares(value, []) && ReadLast(value, Buffers([])) == value && Buffers([]) == []
    {
    }

    lemma ComparesMore(value: Value, rounds: seq<Round>, changes: seq<Event>, buffer: string)
      requires Compares(value, rounds)
      requires if Readable(buffer).Some? then
          Comparison(changes, Readable(buffer).value, ReadLast(value, Buffers(rounds)), ObservedBoundary)
        else changes == []
      ensures var more := rounds + [Round(changes, buffer)];
        && Compares(value, more) && Buffers(more) == Buffers(rounds) + [buffer]
        && ReadLast(value, Buffers(more))
          == if Readable(buffer).Some? then Readable(buffer).value else ReadLast(value, Buffers(rounds))
    {
      var more := rounds + [Round(changes, buffer)];
      assert more[..|rounds|] == rounds;
      assert Buffers(more) == Buffers(rounds) + [buffer];
      assert Buffers(more)[..|rounds|] == Buffers(rounds);
      hide Readable, Comparison, DeltasOf;
    }

    /**
      The rounds of a stream: one for each buffer that is read, in order, with the comparison made there, and
      one at the end, on the whole buffer, that holds the status event of the deferred chunks.
     */
    ghost predicate RunOf(deferred: bool, buffer: string, chunks: seq<string>, rounds: seq<Round>) {
      && rounds != []
      && rounds[|rounds| - 1] == Round(Waiting(deferred, buffer, chunks), buffer + Concat(chunks))
      && Buffers(rounds[..|rounds| - 1]) == Read(buffer, chunks)
      && Compares(Obj([]), rounds[..|rounds| - 1])
    }

    lemma RunOfBy(deferred: bool, buffer: string, chunks: seq<string>, rounds: seq<Round>)
      requires Buffers(rounds) == Read(buffer, chunks) && Compares(Obj([]), rounds)
      ensures RunOf(deferred, buffer, chunks,
                    rounds + [Round(Waiting(deferred, buffer, chunks), buffer + Concat(chunks))])
    {
      var more := rounds + [Round(Waiting(deferred, buffer, chunks), buffer + Concat(chunks))];
      assert more[..|more| - 1] == rounds;
      hide Compares, Read, Waiting;
    }

    lemma DefersOn(buffer: string, longer: string)
      requires Defers(buffer) && buffer <= longer
      ensures Defers(longer)
    {
    }

    /**
      A whole stream on a new parser, finalized. Every path of the final value is done exactly once; and the
      events are, round by round, what the comparison and the heuristic emit and then what the raw buffer
      closes, and at the end every path that is left.
     */
    method ParseStream(chunks: seq<string>) returns (events: seq<Event>, ghost rounds: seq<Round>)
      requires Valid() && log == [] && compared == [] && currentData == Obj([])
      modifies this, completer
      ensures Valid() && log == events
      ensures completer.buffer == old(completer.buffer) + Concat(chunks)
      ensures compared == Comparisons(Obj([]), old(completer.buffer), chunks) && Chained(Obj([]), compared)
      ensures currentData == Reread(LastOf(Obj([]), compared), completer.buffer)
      ensures Deltas(events) == AllDeltas(compared)
      ensures AllPathsIn(currentData, [], Elements(DonePaths(events)))
      ensures forall path :: path in DonePaths(events) ==> DoneCount(events, path) == 1
      ensures FreshDones(events, {}, fieldCompletionStatus)
      ensures RunOf(old(deferred), old(completer.buffer), chunks, rounds)
      ensures currentData == Reread(ReadLast(Obj([]), Read(old(completer.buffer), chunks)), completer.buffer)
      ensures events == Emitted(rounds)
        + DonesOf(currentData, [], Completed({}, Emitted(rounds)), Label(None, completer.buffer))
    {
      hide *;
      events, rounds := [], [];
      ghost var pending := [];
      assert chunks[0..] == chunks;
      assert [] + Comparisons(Obj([]), completer.buffer, chunks) == Comparisons(Obj([]), completer.buffer, chunks);
      assert [] + Read(completer.buffer, chunks) == Read(completer.buffer, chunks);
      assert [] + Waiting(deferred, completer.buffer, chunks) == Waiting(deferred, completer.buffer, chunks);
      ChainedNothing(Obj([]));
      ConcatFirst(chunks);
      NoRounds(completer.buffer);
      NoRoundsCompare(Obj([]));
      for i := 0 to |chunks|
        invariant Valid() && log == events && events == Emitted(rounds) + pending
        invariant completer.buffer + Concat(chunks[i..]) == old(completer.buffer) + Concat(chunks)
        invariant Chained(Obj([]), compared) && currentData == LastOf(Obj([]), compared)
        invariant compared + Comparisons(currentData, completer.buffer, chunks[i..])
               == Comparisons(Obj([]), old(completer.buffer), chunks)
        invariant Compares(Obj([]), rounds) && currentData == ReadLast(Obj([]), Buffers(rounds))
        invariant Buffers(rounds) + Read(completer.buffer, chunks[i..]) == Read(old(completer.buffer), chunks)
        invariant pending + Waiting(deferred, completer.buffer, chunks[i..])
               == Waiting(old(deferred), old(completer.buffer), chunks)
        invariant pending != [] ==> Defers(completer.buffer)
      {
        ComparisonsAt(compared, currentData, completer.buffer, chunks, i);
        ChunkAt(completer.buffer, chunks, i);
        ReadAt(Buffers(rounds), completer.buffer, chunks, i);
        WaitingAt(pending, deferred, completer.buffer, chunks, i);
        ghost var was := compared;
        var more;
        more, rounds, pending := ParseRound(chunks[i], rounds, pending);
        ChainedLater(Obj([]), was, currentData);
        events := events + more;
      }
      ComparisonsFirst(currentData, completer.buffer, chunks[|chunks|..]);
      ConcatFirst(chunks[|chunks|..]);
      ReadFirst(completer.buffer, chunks[|chunks|..]);
      WaitingFirst(deferred, completer.buffer, chunks[|chunks|..]);
      assert compared + [] == compared && completer.buffer + "" == completer.buffer;
      assert Buffers(rounds) + [] == Buffers(rounds) && pending + [] == pending;
      ValidMeans();
      ghost var before, complete, buffer := events, fieldCompletionStatus, completer.buffer;
      var more := Finalize(None);
      LastRound(rounds, pending, buffer, before, complete, currentData, Label(None, buffer), more);
      RunOfBy(old(deferred), old(completer.buffer), chunks, rounds);
      assert (rounds + [Round(pending, buffer)])[..|rounds|] == rounds;
      rounds := rounds + [Round(pending, buffer)];
      events := events + more;
      ValidMeans();
      DoneOnce(events, fieldCompletionStatus);
      DonesAreComplete(events, fieldCompletionStatus);
    }

    /** One chunk, and the round it makes, if its buffer is not deferred. */
    method ParseRound(chunk: string, ghost rounds: seq<Round>, ghost pending: seq<Event>)
      returns (events: seq<Event>, ghost rounds': seq<Round>, ghost pending': seq<Event>)
      requires Valid() && log == Emitted(rounds) + pending && (pending != [] ==> Defers(completer.buffer))
      requires Compares(Obj([]), rounds) && currentData == ReadLast(Obj([]), Buffers(rounds))
      modifies this, completer
      ensures Valid() && log == old(log) + events && completer.buffer == old(completer.buffer) + chunk
      ensures log == Emitted(rounds') + pending' && (pending' != [] ==> Defers(completer.buffer))
      ensures Compares(Obj([]), rounds') && currentData == ReadLast(Obj([]), Buffers(rounds'))
      ensures Buffers(rounds') == Buffers(rounds) + if Defers(completer.buffer) then [] else [completer.buffer]
      ensures pending' == pending
        + if Defers(completer.buffer) && !old(deferred) then [Status(|completer.buffer|, maxIncompleteParseChars)]
          else []
      ensures deferred <==> old(deferred) || Defers(completer.buffer)
      ensures if !Defers(completer.buffer) && Readable(completer.buffer).Some? then
          && currentData == Readable(completer.buffer).value
          && compared == old(compared) + [(old(currentData), currentData)]
        else currentData == old(currentData) && compared == old(compared)
    {
      hide *;
      ValidMeans();
      ghost var had, value, before, complete := completer.buffer, currentData, log, fieldCompletionStatus;
      events := ParseChunk(chunk);
      ghost var buffer := completer.buffer;
      if Defers(buffer) {
        rounds', pending' := rounds, pending + events;
        assert Buffers(rounds) + [] == Buffers(rounds);
      } else {
        if pending != [] { DefersOn(had, buffer); }
        ghost var observed, changes := Observed.ObservedValues(buffer), [];
        if Readable(buffer).Some? {
          changes :| Comparison(changes, currentData, value, ObservedBoundary)
            && events == changes + FreshObserved(observed, Completed(complete, changes));
        } else {
          NothingCompleted(complete);
          assert [] + FreshObserved(observed, complete) == FreshObserved(observed, complete);
        }
        RoundMore(rounds, changes, buffer, before, complete, events);
        ComparesMore(Obj([]), rounds, changes, buffer);
        rounds', pending' := rounds + [Round(changes, buffer)], [];
      }
    }

    lemma ReadAt(done: seq<string>, buffer: string, chunks: seq<string>, i: nat)
      requires i < |chunks|
      ensures done + Read(buffer, chunks[i..])
        == done + (if Defers(buffer + chunks[i]) then [] else [buffer + chunks[i]])
          + Read(buffer + chunks[i], chunks[i + 1..])
    {
      hide *;
      assert chunks[i..][0] == chunks[i] && chunks[i..][1..] == chunks[i + 1..];
      ReadFirst(buffer, chunks[i..]);
    }

    lemma WaitingAt(pending: seq<Event>, deferred: bool, buffer: string, chunks: seq<string>, i: nat)
      requires i < |chunks|
      ensures var longer := buffer + chunks[i];
        pending + Waiting(deferred, buffer, chunks[i..])
          == pending + (if Defers(longer) && !deferred then [Status(|longer|, maxIncompleteParseChars)] else [])
            + Waiting(deferred || Defers(longer), longer, chunks[i + 1..])
    {
      hide *;
      assert chunks[i..][0] == chunks[i] && chunks[i..][1..] == chunks[i + 1..];
      WaitingFirst(deferred, buffer, chunks[i..]);
    }

    lemma ComparisonsAt(compared: seq<(Value, Value)>, value: Value, buffer: string, chunks: seq<string>, i: nat)
      requires i < |chunks|
      ensures var longer := buffer + chunks[i];
        compared + Comparisons(value, buffer, chunks[i..]) ==
          if !Defers(longer) && Readable(longer).Some? then
            compared + [(value, Readable(longer).value)] + Comparisons(Readable(longer).value, longer, chunks[i + 1..])
          else compared + Comparisons(value, longer, chunks[i + 1..])
    {
      hide *;
      assert chunks[i..][0] == chunks[i] && chunks[i..][1..] == chunks[i + 1..];
      ComparisonsFirst(value, buffer, chunks[i..]);
    }
  }

  lemma ChunkAt(buffer: string, chunks: seq<string>, i: nat)
    requires i < |chunks|
    ensures buffer + Concat(chunks[i..]) == buffer + chunks[i] + Concat(chunks[i + 1..])
  {
    hide *;
    assert chunks[i..][0] == chunks[i] && chunks[i..][1..] == chunks[i + 1..];
    ConcatFirst(chunks[i..]);
  }

  lemma ChainedNothing(first: Value)
    ensures Chained(first, []) && LastOf(first, []) == first
  {
  }

  lemma DonesAreComplete(events: seq<Event>, complete: set<string>)
    requires Elements(DonePaths(events)) == complete
    ensures forall path :: path in DonePaths(events) ==> path in complete
  {
    hide DonePaths;
  }

  function DoneCount(events: seq<Event>, path: string): nat {
    if events == [] then 0
    else (if events[0].Done? && events[0].path == path then 1 else 0) + DoneCount(events[1..], path)
  }

  /** Exact bookkeeping means exactly one done event for each complete path, and none for any other. */
  lemma DoneOnce(events: seq<Event>, complete: set<string>)
    requires FreshDones(events, {}, complete)
    ensures Elements(DonePaths(events)) == complete
    ensures forall path :: DoneCount(events, path) == if path in complete then 1 else 0
  {
    forall path ensures DoneCount(events, path) == if path in complete then 1 else 0 {
      DoneCountIs(events, path);
      if path in complete {
        var i :| 0 <= i < |DonePaths(events)| && DonePaths(events)[i] == path;
        CountOfDistinct(DonePaths(events), path, i);
      } else {
        CountOfAbsent(DonePaths(events), path);
      }
    }
  }

  function CountOf(s: seq<string>, x: string): nat {
    if s == [] then 0 else (if s[0] == x then 1 else 0) + CountOf(s[1..], x)
  }

  lemma {:induction false} DoneCountIs(events: seq<Event>, path: string)
    ensures DoneCount(events, path) == CountOf(DonePaths(events), path)
  {
    if events != [] {
      DoneCountIs(events[1..], path);
      if events[0].Done? {
        assert DonePaths(events) == [events[0].path] + DonePaths(events[1..]);
        assert DonePaths(events)[1..] == DonePaths(events[1..]);
      } else {
        assert DonePaths(events) == DonePaths(events[1..]);
      }
    }
  }

  lemma {:induction false} CountOfAbsent(s: seq<string>, x: string)
    requires x !in s
    ensures CountOf(s, x) == 0
  {
    if s != [] { CountOfAbsent(s[1..], x); }
  }

  lemma {:induction false} CountOfDistinct(s: seq<string>, x: string, i: nat)
    requires NoRepeats(s) && i < |s| && s[i] == x
    ensures CountOf(s, x) == 1
  {
    if i == 0 { CountOfAbsent(s[1..], x); } else { CountOfDistinct(s[1..], x, i - 1); }
  }

  lemma OneStatus(e: Event)
    requires e.Status?
    ensures DonePaths([e]) == [] && Deltas([e]) == []
  {
  }

  /** Two more groups of events on top of the log. */
  lemma Recorded(log: seq<Event>, a: seq<Event>, b: seq<Event>, s0: set<string>, s1: set<string>, s2: set<string>)
    requires FreshDones(log, {}, s0) && FreshDones(a, s0, s1) && FreshDones(b, s1, s2)
    ensures FreshDones(log + (a + b), {}, s2) && s0 <= s2
    ensures Deltas(log + (a + b)) == Deltas(log) + (Deltas(a) + Deltas(b))
  {
    FreshDonesJoin(a, b, s0, s1, s2);
    FreshDonesJoin(log, a + b, {}, s0, s2);
    DeltasJoin(a, b);
    DeltasJoin(log, a + b);
  }

  lemma ComparedMore(compared: seq<(Value, Value)>, older: Value, newer: Value)
    ensures AllDeltas(compared + [(older, newer)]) == AllDeltas(compared) + DeltasOf(newer, older, [])
  {
    assert (compared + [(older, newer)])[..|compared|] == compared;
  }

  lemma FreshDonesGrow(events: seq<Event>, before: set<string>, after: set<string>)
    requires FreshDones(events, before, after)
    ensures before <= after && after == before + Elements(DonePaths(events))
  {
  }

  lemma AllPathsGrow(v: Value, keys: seq<Key>, before: set<string>, after: set<string>)
    requires AllPathsIn(v, keys, before) && before <= after
    ensures AllPathsIn(v, keys, after)
  {
  }

  /** The paths into a container are its own and those into its parts. */
  lemma AllPathsHere(v: Value, keys: seq<Key>, before: set<string>, after: set<string>)
    requires before <= after && (DotPath(keys) != "" ==> DotPath(keys) in after)
    requires v.Obj? ==> forall k :: 0 <= k < |v.members| ==>
      AllPathsIn(v.members[k].value, keys + [Name(v.members[k].key)], before)
    requires v.Arr? ==> forall k :: 0 <= k < |v.items| ==> AllPathsIn(v.items[k], keys + [Index(k)], before)
    ensures AllPathsIn(v, keys, after)
  {
    hide DotPath;
    forall rel | Lookup(v, rel).Some? && DotPath(keys + rel) != "" ensures DotPath(keys + rel) in after {
      if rel == [] {
        assert keys + [] == keys;
      } else {
        assert (keys + [rel[0]]) + rel[1..] == keys + rel;
        match rel[0]
        case Name(text) => var k := Find(v.members, text);
          assert AllPathsIn(v.members[k].value, keys + [Name(v.members[k].key)], before);
        case Index(k) => assert AllPathsIn(v.items[k], keys + [Index(k)], before);
      }
    }
  }

  // Runs of comparisons.

  /** Each comparison starts from the value the one before it ended with. */
  predicate Chained(first: Value, compared: seq<(Value, Value)>) {
    compared == [] ||
    var before := compared[..|compared| - 1];
    compared[|compared| - 1].0 == LastOf(first, before) && Chained(first, before)
  }

  function LastOf(first: Value, compared: seq<(Value, Value)>): Value {
    if compared == [] then first else compared[|compared| - 1].1
  }

  lemma ChainedLater(first: Value, compared: seq<(Value, Value)>, next: Value)
    requires Chained(first, compared)
    ensures var more := compared + [(LastOf(first, compared), next)];
      Chained(first, more) && LastOf(first, more) == next
  {
    var more := compared + [(LastOf(first, compared), next)];
    assert more[..|more| - 1] == compared;
  }
}
