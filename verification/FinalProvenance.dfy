/**
  Where a value comes from that `finalize` labels as reconciled with the raw text
  (agently/utils/StreamingJSONParser.py:715-802): from the raw text exactly when that text decodes. When it
  closes but does not decode, the value read before stays, and its places get the same label.
 */
module FinalProvenance {
  import opened Chars
  import opened Json
  import opened Streaming
  import opened Provenance
  import Completer
  import Locator
  import Observed
  import ObservedClosed
  import ObservedDocs
  import ProvenanceExact
  import Tokens

  /** What the raw text up to its root closer decodes to. */
  function FromRaw(p: StreamingJSONParser, buffer: string): Option<Value> {
    match RootOf(buffer)
    case None => None
    case Some(k) => p.Decoded(buffer[..k + 1])
  }

  lemma ReadIsRaw(p: StreamingJSONParser, buffer: string)
    requires Honest(buffer) && LooksComplete(buffer)
    ensures p.Readable(buffer) == FromRaw(p, buffer) && buffer != ""
  {
  }

  /**
    A buffer that closes: the value that `finalize` leaves is what the raw text decodes to, whatever the value
    before, if and only if the buffer can be read; otherwise it is the value before.
   */
  lemma FinalValueIff(p: StreamingJSONParser, buffer: string, value: Value)
    requires NeutralStart(buffer) && AlignedText(buffer) && LooksComplete(buffer)
    ensures FromRaw(p, buffer) == Some(p.Reread(value, buffer)) <==> p.Readable(buffer).Some?
    ensures p.Readable(buffer).None? ==> p.Reread(value, buffer) == value
  {
    hide *;
    ReconciledTextIsRaw(buffer);
    ReadIsRaw(p, buffer);
    p.RereadMeans(value, buffer);
  }

  // The label of the events.

  /** Each event labelled as reconciled shows a place of what the raw text decodes to. */
  ghost predicate LabelHolds(p: StreamingJSONParser, buffer: string, value: Value, complete: set<string>) {
    var events := Ending(p.Reread(value, buffer), Observed.ObservedValues(buffer), complete, p.Label(None, buffer));
    forall e :: e in events && e.Done? && e.source == FinalReconciliation ==> RawPlace(p, buffer, e.path, e.value)
  }

  ghost predicate RawPlace(p: StreamingJSONParser, buffer: string, path: string, value: Value) {
    FromRaw(p, buffer).Some? && StandsIn(FromRaw(p, buffer).value, [], path, value)
  }

  /** Marking shows places of the value, under the label it is given. */
  lemma {:induction false} MarksShowPlaces(data: Value, keys: seq<Key>, complete: set<string>, source: Source)
    ensures ShowsPlaces(DonesOf(data, keys, complete, source), data, keys, source)
    decreases data
  {
    hide StandsIn, ShowsPlaces, DotPath, Elements;
    var below :=
      match data
      case Obj(members) => MemberDones(members, keys, complete, source)
      case Arr(items) => ItemDones(items, keys, 0, complete, source)
      case _ => [];
    match data {
      case Obj(members) =>
        MemberMarksShowPlaces(members, 0, keys, complete, source);
        assert members[0..] == members;
      case Arr(items) =>
        ItemMarksShowPlaces(items, 0, keys, complete, source);
        assert items[0..] == items;
      case _ =>
        NoneEmitted();
        NoPlaces([], data, keys, source);
    }
    NoneEmitted();
    NoPlaces([], data, keys, source);
    DonePlaces([Done(DotPath(keys), data, source)], data, keys, source);
    PlacesJoin(below, [Done(DotPath(keys), data, source)], data, keys, source);
    PlacesJoin(below, [], data, keys, source);
  }

  lemma {:induction false} MemberMarksShowPlaces(members: seq<Member>, j: nat, keys: seq<Key>, complete: set<string>,
                                                 source: Source)
    requires j <= |members|
    ensures ShowsPlaces(MemberDones(members[j..], keys, complete, source), Obj(members), keys, source)
    decreases Obj(members), |members| - j
  {
    hide *;
    MemberDonesFirst(members[j..], keys, complete, source);
    if j == |members| {
      NoneEmitted();
      NoPlaces([], Obj(members), keys, source);
    } else {
      var member := members[j];
      assert members[j..][0] == member && members[j..][1..] == members[j + 1..];
      var first := DonesOf(member.value, keys + [Name(member.key)], complete, source);
      var after := complete + Streaming.Elements(DonePaths(first));
      MarksShowPlaces(member.value, keys + [Name(member.key)], complete, source);
      PlacesInMember(first, members, j, keys, source);
      MemberMarksShowPlaces(members, j + 1, keys, after, source);
      PlacesJoin(first, MemberDones(members[j + 1..], keys, after, source), Obj(members), keys, source);
    }
  }

  lemma {:induction false} ItemMarksShowPlaces(items: seq<Value>, j: nat, keys: seq<Key>, complete: set<string>,
                                               source: Source)
    requires j <= |items|
    ensures ShowsPlaces(ItemDones(items[j..], keys, j, complete, source), Arr(items), keys, source)
    decreases Arr(items), |items| - j
  {
    hide *;
    ItemDonesFirst(items[j..], keys, j, complete, source);
    if j == |items| {
      NoneEmitted();
      NoPlaces([], Arr(items), keys, source);
    } else {
      assert items[j..][0] == items[j] && items[j..][1..] == items[j + 1..];
      var first := DonesOf(items[j], keys + [Index(j)], complete, source);
      var after := complete + Streaming.Elements(DonePaths(first));
      MarksShowPlaces(items[j], keys + [Index(j)], complete, source);
      PlacesInItem(first, items, j, keys, source);
      ItemMarksShowPlaces(items, j + 1, keys, after, source);
      PlacesJoin(first, ItemDones(items[j + 1..], keys, j + 1, after, source), Arr(items), keys, source);
    }
  }

  // A value with a place that no set of paths holds.

  function Long(n: nat): string { seq(n + 1, _ => 'k') }

  /** Some name is in no given finite set. */
  lemma {:induction false} LongName(paths: set<string>) returns (n: nat)
    ensures forall s :: s in paths ==> |s| <= n
    decreases paths
  {
    if paths == {} {
      n := 0;
    } else {
      var s :| s in paths;
      n := LongName(paths - {s});
      n := if n < |s| then |s| else n;
      assert forall r :: r in paths ==> r == s || r in paths - {s};
    }
  }

  lemma LongPath(n: nat)
    ensures DotPath([Name(Long(n))]) == Long(n) && |Long(n)| == n + 1 && DotPath([]) == ""
  {
    var keys := [Name(Long(n))];
    assert Long(n)[0] == 'k';
    assert keys[1..] == [] && DotParts(keys, true) == DotPart(keys[0], true) + DotParts([], false);
  }

  /** A value whose only member is not complete gets an event for it. */
  lemma OneMark(key: string, complete: set<string>, source: Source)
    requires DotPath([Name(key)]) == key && key != "" && key !in complete && DotPath([]) == ""
    ensures DonesOf(Obj([Member(key, NULL)]), [], complete, source) == [Done(key, NULL, source)]
  {
    hide DotPath;
    var members, first := [Member(key, NULL)], [Done(key, NULL, source)];
    assert [] + [Name(key)] == [Name(key)];
    assert DonesOf(NULL, [Name(key)], complete, source) == first by {
      assert DonePaths([]) == [] && Streaming.Elements([]) == {};
    }
    MemberDonesFirst(members, [], complete, source);
    MemberDonesFirst(members[1..], [], complete + Streaming.Elements(DonePaths(first)), source);
    assert members[0] == Member(key, NULL) && members[1..] == [];
    assert MemberDones(members, [], complete, source) == first;
  }

  lemma EndingParts(data: Value, observed: seq<Observed.Observation>, complete: set<string>, source: Source, e: Event)
    ensures var first := FreshObserved(observed, complete);
      e in Ending(data, observed, complete, source) <==>
        e in first || e in DonesOf(data, [], Completed(complete, first), source)
  {
  }

  lemma {:induction false} ObservedLabel(observed: seq<Observed.Observation>, complete: set<string>)
    ensures forall e :: e in FreshObserved(observed, complete) ==> e.Done? && e.source == ObservedBoundary
    decreases |observed|
  {
    if observed != [] {
      ObservedLabel(observed[1..], complete);
      ObservedLabel(observed[1..], complete + {observed[0].path});
    }
  }

  /**
    The label holds for every value and every set of complete paths that the stream may end with, if and only
    if a buffer that closes can be read.
   */
  lemma FinalLabelIff(p: StreamingJSONParser, buffer: string)
    requires NeutralStart(buffer) && AlignedText(buffer)
    ensures (forall value, complete :: LabelHolds(p, buffer, value, complete))
      <==> (LooksComplete(buffer) ==> p.Readable(buffer).Some?)
  {
    hide *;
    p.LabelMeans(None, buffer);
    ReconciledTextIsRaw(buffer);
    if LooksComplete(buffer) && p.Readable(buffer).None? {
      var value, complete := Unbacked(p, buffer);
    } else {
      forall value, complete ensures LabelHolds(p, buffer, value, complete) {
        Backed(p, buffer, value, complete);
      }
    }
  }

  lemma Backed(p: StreamingJSONParser, buffer: string, value: Value, complete: set<string>)
    requires Honest(buffer) && (LooksComplete(buffer) ==> p.Readable(buffer).Some?)
    ensures LabelHolds(p, buffer, value, complete)
  {
    hide Ending, Honest, Observed.ObservedValues, LooksComplete, FromRaw, StandsIn, FreshObserved, DonesOf, Completed;
    var data, source, observed := p.Reread(value, buffer), p.Label(None, buffer), Observed.ObservedValues(buffer);
    var first := FreshObserved(observed, complete);
    ObservedLabel(observed, complete);
    MarksShowPlaces(data, [], Completed(complete, first), source);
    if LooksComplete(buffer) {
      ReadIsRaw(p, buffer);
    }
    forall e | e in Ending(data, observed, complete, source) && e.Done? && e.source == FinalReconciliation
      ensures RawPlace(p, buffer, e.path, e.value)
    {
      EndingParts(data, observed, complete, source, e);
    }
  }

  lemma Unbacked(p: StreamingJSONParser, buffer: string) returns (value: Value, complete: set<string>)
    requires Honest(buffer) && LooksComplete(buffer) && p.Readable(buffer).None?
    ensures !LabelHolds(p, buffer, value, complete)
  {
    hide Ending, Honest, Observed.ObservedValues, LooksComplete, FromRaw, StandsIn, FreshObserved, DonesOf, Completed,
      DotPath, Long;
    complete := {};
    var observed := Observed.ObservedValues(buffer);
    var first := FreshObserved(observed, complete);
    var n := LongName(Completed(complete, first));
    LongPath(n);
    value := Obj([Member(Long(n), NULL)]);
    OneMark(Long(n), Completed(complete, first), FinalReconciliation);
    ReadIsRaw(p, buffer);
    var e := Done(Long(n), NULL, FinalReconciliation);
    EndingParts(value, observed, complete, FinalReconciliation, e);
    assert e in DonesOf(value, [], Completed(complete, first), FinalReconciliation);
    assert !RawPlace(p, buffer, e.path, e.value);
  }

  // The shortest reply on which the label does not hold, in two chunks.

  const OPEN := "[\"x"
  const CLOSED := "[\"x\"!]"

  lemma OpenScan()
    ensures Completer.Completed(OPEN) == "[\"x\"]"
  {
    var inString := Completer.State("[", Completer.Quoted('\"', false));
    var code := Completer.State("[", Completer.Code);
    assert Completer.TakeTurn(Completer.START, '[', Some('\"')) == Completer.Turn(code, 1, false);
    assert Completer.TakeTurn(code, '\"', Some('x')) == Completer.Turn(inString, 1, false);
    assert Completer.TakeTurn(inString, 'x', None) == Completer.Turn(inString, 1, false);
    assert Completer.Scan(OPEN, 3, inString) == Completer.Open(inString);
    assert Completer.Scan(OPEN, 2, inString) == Completer.Open(inString);
    assert Completer.Scan(OPEN, 1, code) == Completer.Open(inString);
    assert Completer.Scan(OPEN, 0, Completer.START) == Completer.Open(inString);
  }

  lemma ClosedIsAligned()
    ensures NeutralStart(CLOSED) && AlignedText(CLOSED)
  {
    hide LooksComplete, Aligned;
    assert CLOSED[..0] == "" && StartOf(CLOSED, 0, Completer.Code) == Some(0);
    NoCommentsAligned(CLOSED, 0, Completer.START);
  }

  lemma ClosedTurns()
    ensures LooksInCode(CLOSED, 0, "", false) == Some(("]", true, Completer.Code))
    ensures LooksInCode(CLOSED, 1, "]", true) == Some(("]", true, Completer.Quoted('\"', false)))
    ensures LooksOutsideCode(CLOSED, 2, Completer.Quoted('\"', false)) == Completer.Quoted('\"', false)
    ensures LooksOutsideCode(CLOSED, 3, Completer.Quoted('\"', false)) == Completer.Code
    ensures LooksInCode(CLOSED, 4, "]", true) == Some(("]", true, Completer.Code))
    ensures LooksInCode(CLOSED, 5, "]", true) == Some(("", true, Completer.Code))
    ensures Closer(CLOSED[5]) && !Closer(CLOSED[0]) && !Closer(CLOSED[1]) && !Closer(CLOSED[4])
  {
    assert "" + [']'] == "]" && "]"[..0] == "";
  }

  lemma ClosedLooksComplete()
    ensures RootOf(CLOSED) == Some(5) && LooksComplete(CLOSED)
  {
    hide LooksRoot, RootOf, LooksComplete, LooksInCode, LooksOutsideCode;
    var inString := Completer.Quoted('\"', false);
    ClosedTurns();
    LooksTurn(CLOSED, 0, "", false, Completer.Code);
    LooksTurn(CLOSED, 1, "]", true, Completer.Code);
    LooksTurn(CLOSED, 2, "]", true, inString);
    LooksTurn(CLOSED, 3, "]", true, inString);
    LooksTurn(CLOSED, 4, "]", true, Completer.Code);
    LooksTurn(CLOSED, 5, "]", true, Completer.Code);
    ProvenanceExact.LooksMeans(CLOSED, 5);
  }

  /** The turns of a block that holds one short string and nothing that is rewritten. */
  lemma BlockTurns()
    ensures Locator.TakeTurn(0, false, '[', Some('\"')) == Locator.Turn(1, false, "[", 1)
    ensures forall next :: Locator.TakeTurn(1, false, '\"', next) == Locator.Turn(1, true, "\"", 1)
    ensures forall next :: Locator.TakeTurn(1, true, 'x', next) == Locator.Turn(1, true, "x", 1)
    ensures forall next :: Locator.TakeTurn(1, true, '\"', next) == Locator.Turn(1, false, "\"", 1)
    ensures forall next :: Locator.TakeTurn(1, false, '!', next) == Locator.Turn(1, false, "!", 1)
    ensures forall next :: Locator.TakeTurn(1, false, ']', next) == Locator.Turn(0, false, "]", 1)
  {
  }

  lemma BlockGoesOn(t: string, i: nat, layer: int, inQuote: bool, turn: Locator.Turn)
    requires i < |t| && turn == Locator.TakeTurn(layer, inQuote, t[i], At(t, i + 1))
    requires turn.width == 1 && turn.written == [t[i]]
    ensures Locator.FindBlock(t, i, layer, inQuote, t[..i]) ==
      if turn.layer == 0 then Some(Locator.Block(t[..i + 1], i + 1))
      else Locator.FindBlock(t, i + 1, turn.layer, turn.inQuote, t[..i + 1])
  {
    hide *;
    Locator.FindBlockTurn(t, i, layer, inQuote, t[..i]);
    Locator.StepWhole(t, i, 1);
    assert t[..i] + [t[i]] == t[..i + 1];
  }

  /** Such a block, with or without the character behind the string, is located as it stands. */
  lemma ShortBlock(t: string)
    requires t == "[\"x\"]" || t == CLOSED
    ensures Locator.FindBlock(t, 0, 0, false, "") == Some(Locator.Block(t, |t|))
  {
    BlockTurns();
    hide Locator.FindBlock, Locator.TakeTurn;
    assert t[0] == '[' && t[1] == '\"' && t[2] == 'x' && t[3] == '\"' && t[|t| - 1] == ']' && At(t, 1) == Some('\"');
    assert |t| == 6 ==> t[4] == '!';
    assert |t| == 5 || |t| == 6;
    assert t[..0] == "" && t[..|t|] == t;
    ShortTurns(t);
  }

  lemma ShortTurns(t: string)
    requires 5 <= |t| <= 6 && (|t| == 6 ==> t[4] == '!')
    requires t[0] == '[' && t[1] == '\"' && t[2] == 'x' && t[3] == '\"' && t[|t| - 1] == ']' && At(t, 1) == Some('\"')
    requires t[..0] == "" && t[..|t|] == t
    ensures Locator.FindBlock(t, 0, 0, false, "") == Some(Locator.Block(t, |t|))
  {
    hide *;
    BlockTurns();
    BlockGoesOn(t, 0, 0, false, Locator.Turn(1, false, "[", 1));
    BlockGoesOn(t, 1, 1, false, Locator.Turn(1, true, "\"", 1));
    BlockGoesOn(t, 2, 1, true, Locator.Turn(1, true, "x", 1));
    BlockGoesOn(t, 3, 1, true, Locator.Turn(1, false, "\"", 1));
    if |t| == 6 { BlockGoesOn(t, 4, 1, false, Locator.Turn(1, false, "!", 1)); }
    BlockGoesOn(t, |t| - 1, 1, false, Locator.Turn(0, false, "]", 1));
  }

  lemma ShortLocated(t: string, choose: seq<string> -> string)
    requires t == "[\"x\"]" || t == CLOSED
    ensures Locator.LocateOutput(t, choose) == Some(t)
  {
    hide Locator.FindBlock;
    ShortBlock(t);
    assert SkipSpace(t, 0) == 0;
  }

  /** The string is followed by no delimiter, so that it is not accepted. */
  lemma ClosedItem(keys: seq<Key>)
    ensures Observed.ParseScalar(CLOSED, 1, keys) == Observed.Parsed(NULL, 1, false, [])
  {
    hide Tokens.NumberEnd, Tokens.WordAt;
    assert Tokens.StringEnd(CLOSED, 3) == Some(4) && Tokens.StringEnd(CLOSED, 2) == Some(4);
    assert SkipSpace(CLOSED, 4) == 4;
  }

  lemma ClosedShowsNothing()
    ensures Observed.ObservedValues(CLOSED) == []
  {
    hide Observed.ParseValue, Observed.ParseItems, Observed.ParseScalar, SkipSpace;
    ObservedClosed.SkipsNothing(CLOSED, 0);
    ObservedClosed.SkipsNothing(CLOSED, 1);
    var item := [] + [Index(0)];
    ObservedDocs.ArrayTurn(CLOSED, 0, [], 1);
    ClosedItem(item);
    ObservedClosed.ScalarTurn(CLOSED, 1, item);
    Observed.ItemsTurn(CLOSED, 1, [], [], Observed.ParseValue(CLOSED, 1, item));
  }

  /**
    The second chunk closes the reply with a character that does not decode. The value that was read after the
    first one stays, and its item is labelled as reconciled although no raw text decodes to it.
   */
  lemma UndecodedReply(p: StreamingJSONParser)
    requires p.json5("[\"x\"]") == Some(Arr([Str("x")])) && p.json5(CLOSED) == None
    ensures p.Readable(OPEN) == Some(Arr([Str("x")])) && LooksComplete(CLOSED) && FromRaw(p, CLOSED) == None
    ensures var value := p.Reread(Arr([Str("x")]), CLOSED);
      Ending(value, Observed.ObservedValues(CLOSED), {}, p.Label(None, CLOSED))
        == [Done("[0]", Str("x"), FinalReconciliation)]
  {
    hide LooksComplete, RootOf, Completer.Completed, Locator.LocateOutput, Observed.ObservedValues;
    OpenScan();
    ClosedIsAligned();
    ClosedLooksComplete();
    ShortLocated("[\"x\"]", p.choose);
    ShortLocated(CLOSED, p.choose);
    ClosedShowsNothing();
    ReconciledTextIsRaw(CLOSED);
    ReadIsRaw(p, CLOSED);
    assert CLOSED[..6] == CLOSED;
    OneItem();
    NothingObserved();
  }

  lemma NothingObserved()
    ensures Completed({}, FreshObserved([], {})) == {} && FreshObserved([], {}) == []
  {
  }

  lemma OneItem()
    ensures DonesOf(Arr([Str("x")]), [], {}, FinalReconciliation) == [Done("[0]", Str("x"), FinalReconciliation)]
  {
    var keys := [Index(0)];
    assert [] + keys == keys && keys[1..] == [];
    assert DotParts(keys, true) == DotPart(keys[0], true) + DotParts([], false) == "[0]" by {
      assert Decimal(0) == ['0'];
    }
    var first := [Done("[0]", Str("x"), FinalReconciliation)];
    assert DonesOf(Str("x"), keys, {}, FinalReconciliation) == first;
    var items := [Str("x")];
    assert items[1..] == [];
    assert ItemDones(items, [], 0, {}, FinalReconciliation) == first;
  }
}
