/**
  The evidence path, exactly: on any text, a value is observed under a path if and only if it stands complete in
  the text behind containers that are open along that path, with a delimiter behind it where one is needed.
 */
module ObservedExact {
  import opened Chars
  import opened Tokens
  import opened Documents
  import opened Json
  import opened Observed
  import opened StringBodies
  import opened ObservedDocs
  import opened ObservedClosed
  import opened ObservedPlaces

  // What is followed so is accepted.

  lemma TokenRead(d: Doc, t: string, i: nat)
    requires Scalar(d) && Valid(d) && HasAt(t, i, Render(d)) && Followed(t, i + |Render(d)|, d)
    ensures i < |t| && ScalarAt(t, i).Some?
    ensures var token := ScalarAt(t, i).value;
      token.end == i + |Render(d)| && TokenValue(token) == ValueIn(d) && (token.NumberToken? <==> d.NumberDoc?)
  {
    var e := i + |Render(d)|;
    HasAtFits(t, i, Render(d));
    match d
    case TextDoc(body) => TextToken(body, t, i);
    case WordDoc(lexeme) => PlainWordTokenAt(lexeme, t, i);
    case NumberDoc(lexeme) =>
      DelimitedBy(t, e);
      DelimitedNumber(t, e);
      NumberTokenAt(lexeme, t, i);
  }

  lemma TextToken(body: string, t: string, i: nat)
    requires StringBody(body) && HasAt(t, i, Quote(body))
    ensures i < |t| && ScalarAt(t, i) == Some(StringToken(body, i + |Quote(body)|))
    ensures Unescape(body) == Content(body)
  {
    hide StringBody, StringEnd, HasAt, Content, Unescape;
    QuoteLayout(t, i, body);
    HasAtSlice(t, i + 1, body);
    QuoteLength(body);
    ContentIsDecoded(body);
    QuotedToken(t, i, i + |Quote(body)|);
  }

  lemma QuotedToken(t: string, i: nat, end: nat)
    requires i < |t| && t[i] == '\"' && StringEnd(t, i + 1) == Some(end)
    ensures i + 1 < end && ScalarAt(t, i) == Some(StringToken(t[i + 1..end - 1], end))
    ensures KeyAt(t, i) == Some((Unescape(t[i + 1..end - 1]), end))
  {
    hide StringEnd, Unescape;
  }

  lemma DelimitedBy(t: string, e: nat)
    requires e <= |t| && SkipSpace(t, e) < |t| && t[SkipSpace(t, e)] in [',', ']', '}']
    ensures Delimited(t, e)
  {
  }

  /** A document at a visible place is read, with all that it reports, when it is followed as it may be. */
  lemma PlaceRead(d: Doc, t: string, i: nat, keys: seq<Key>)
    requires Valid(d) && HasAt(t, i, Render(d)) && Followed(t, i + |Render(d)|, d)
    ensures i < |t| && SkipSpace(t, i) == i && i + |Render(d)| <= |t|
    ensures ParseValue(t, i, keys) == Parsed(ValueIn(d), i + |Render(d)|, true, PostOrder(d, keys))
  {
    hide *;
    HasAtFits(t, i, Render(d));
    FirstVisible(d, t, i);
    ScalarMeans(d);
    if d.ObjectDoc? || d.ArrayDoc? {
      DocRead(d, t, t, i, keys);
      ReadsDocMeans(d, t, t, i, keys);
      SettledMeans(d, t, i + |Render(d)|, |t|);
    } else {
      ScalarRead(d, t, i, keys);
    }
  }

  lemma ScalarRead(d: Doc, t: string, i: nat, keys: seq<Key>)
    requires Scalar(d) && Valid(d) && HasAt(t, i, Render(d)) && Followed(t, i + |Render(d)|, d)
    requires i < |t| && SkipSpace(t, i) == i
    ensures ParseValue(t, i, keys) == Parsed(ValueIn(d), i + |Render(d)|, true, PostOrder(d, keys))
  {
    hide *;
    hide Scalar;
    TokenRead(d, t, i);
    ScalarIsNoContainer(d, t, i);
    ScalarTurn(t, i, keys);
    ScalarAccepted(t, i, keys);
    FollowedMeans(t, i + |Render(d)|, d);
    ScalarPost(d, keys);
  }

  lemma ScalarPost(d: Doc, keys: seq<Key>)
    requires Scalar(d)
    ensures PostOrder(d, keys) == Report(keys, ValueIn(d))
  {
  }

  lemma OwnPost(d: Doc, keys: seq<Key>)
    requires DotPath(keys) != ""
    ensures Observation(DotPath(keys), ValueIn(d)) in PostOrder(d, keys)
  {
    hide DotPath, ValueIn;
  }

  // The loops up to the place.

  lemma EntryParts(e: Entry, rest: string, t: string, i: nat)
    requires ValidHead(e.head) && ValidItem(e.item) && HasAt(t, i, HeadText(e.head) + (ItemText(e.item) + rest))
    ensures HasAt(t, i, HeadText(e.head)) && HasAt(t, i + |HeadText(e.head)|, ItemText(e.item))
    ensures HasAt(t, i + |HeadText(e.head)| + |ItemText(e.item)|, rest)
  {
    hide HasAt, HeadText, ItemText;
    HasAtSplit(t, i, HeadText(e.head), ItemText(e.item) + rest);
    HasAtSplit(t, i + |HeadText(e.head)|, ItemText(e.item), rest);
  }

  /** A key and its colon are read; the value behind them starts at the end of the text of the head. */
  lemma HeadRead(h: Head, t: string, i: nat)
    requires ValidHead(h) && HasAt(t, i, HeadText(h))
    ensures i < |t| && t[i] == '\"' && KeyAt(t, i) == Some((Content(h.key), i + |Quote(h.key)|))
    ensures i + |Quote(h.key)| <= |t|
    ensures var colon := SkipSpace(t, i + |Quote(h.key)|);
      && colon < |t| && t[colon] == ':'
      && i + |HeadText(h)| <= |t| && SkipSpace(t, colon + 1) == SkipSpace(t, i + |HeadText(h)|)
  {
    hide *;
    HeadParts(h);
    var q := i + |Quote(h.key)|;
    HasAtSplit(t, i, Quote(h.key), h.beforeColon + (":" + h.afterColon));
    HasAtSplit(t, q, h.beforeColon, ":" + h.afterColon);
    HasAtSplit(t, q + |h.beforeColon|, ":", h.afterColon);
    HasAtChar(t, q + |h.beforeColon|, ':');
    HasAtFits(t, i, HeadText(h));
    QuoteLayout(t, i, h.key);
    QuoteLength(h.key);
    ContentIsDecoded(h.key);
    HasAtSlice(t, i + 1, h.key);
    QuotedToken(t, i, q);
    SkipPadding(t, q, h.beforeColon);
    ColonIsVisible(t, q + |h.beforeColon|);
    SkipPadding(t, q + |h.beforeColon| + 1, h.afterColon);
  }

  lemma HeadParts(h: Head)
    ensures ValidHead(h) <==> StringBody(h.key) && AllSpace(h.beforeColon) && AllSpace(h.afterColon)
    ensures HeadText(h) == Quote(h.key) + (h.beforeColon + (":" + h.afterColon))
    ensures ":" == [':'] && |":"| == 1
  {
  }

  lemma ColonIsVisible(t: string, i: nat)
    requires i < |t| && (t[i] == ':' || t[i] == ',')
    ensures SkipSpace(t, i) == i
  {
  }

  /** An item and its comma are read, whatever comes next. */
  lemma ItemRead(x: Item, t: string, i: nat, keys: seq<Key>)
    requires ValidItem(x) && HasAt(t, i, ItemText(x))
    ensures i < |t| && SkipSpace(t, i) == i && i + |ItemText(x)| <= |t|
    ensures var r := ParseValue(t, i, keys);
      && r.ok && r.value == ValueIn(x.value)
      && var next := SkipSpace(t, r.cursor);
         next < |t| && t[next] == ',' && SkipSpace(t, next + 1) == SkipSpace(t, i + |ItemText(x)|)
  {
    hide HasAt, IsSpace, Render, Valid, ParseValue, ValueIn, PostOrder;
    var e := i + |Render(x.value)|;
    HasAtSplit(t, i, Render(x.value), x.afterValue + ("," + x.afterComma));
    HasAtSplit(t, e, x.afterValue, "," + x.afterComma);
    HasAtSplit(t, e + |x.afterValue|, ",", x.afterComma);
    HasAtChar(t, e + |x.afterValue|, ',');
    HasAtFits(t, i, ItemText(x));
    SkipPadding(t, e, x.afterValue);
    ColonIsVisible(t, e + |x.afterValue|);
    SkipPadding(t, e + |x.afterValue| + 1, x.afterComma);
    PlaceRead(x.value, t, i, keys);
  }

  /** What the loop over members reports from an entry on, it reports from the start on. */
  lemma {:induction false} EntriesRead(es: seq<Entry>, rest: string, t: string, i: nat, keys: seq<Key>,
                                       members: seq<Member>)
    returns (members': seq<Member>)
    requires ValidEntries(es) && HasAt(t, i, EntriesText(es) + rest) && rest != "" && !IsSpace(rest[0])
    ensures i + |EntriesText(es)| <= |t|
    ensures forall o :: o in ParseMembers(t, i + |EntriesText(es)|, keys, members').seen ==>
      o in ParseMembers(t, i, keys, members).seen
    decreases |es|
  {
    hide *;
    hide ValidEntries;
    HasAtFits(t, i, EntriesText(es) + rest);
    if es == [] {
      NoEntries();
      members' := members;
    } else {
      var e, h, x := es[0], es[0].head, es[0].item;
      FirstEntry(es);
      var tail := EntriesText(es[1..]) + rest;
      assert EntriesText(es) + rest == HeadText(h) + (ItemText(x) + tail);
      EntryParts(e, tail, t, i);
      HeadRead(h, t, i);
      var value := i + |HeadText(h)|;
      ItemRead(x, t, value, keys + [Name(Content(h.key))]);
      var end := i + |Quote(h.key)|;
      var colon, below := SkipSpace(t, end), keys + [Name(Content(h.key))];
      ParseSkips(t, colon + 1, value, below);
      var child := ParseValue(t, colon + 1, below);
      MembersTurn(t, i, keys, members, Content(h.key), end, child);
      var next := value + |ItemText(x)|;
      TailIsVisible(es[1..], rest, t, next);
      members' := EntriesRead(es[1..], rest, t, next, keys, Put(members, Content(h.key), child.value));
    }
  }

  lemma NoEntries()
    ensures EntriesText([]) == "" && ItemsText([]) == ""
  {
  }

  lemma FirstEntry(es: seq<Entry>)
    requires ValidEntries(es) && es != []
    ensures ValidHead(es[0].head) && ValidItem(es[0].item) && ValidEntries(es[1..])
    ensures EntriesText(es) == HeadText(es[0].head) + (ItemText(es[0].item) + EntriesText(es[1..]))
  {
    hide ValidHead, ValidItem, HeadText, ItemText;
  }

  lemma TailIsVisible(es: seq<Entry>, rest: string, t: string, i: nat)
    requires ValidEntries(es) && HasAt(t, i, EntriesText(es) + rest) && rest != "" && !IsSpace(rest[0])
    ensures i < |t| && SkipSpace(t, i) == i
  {
    hide HasAt, ValidHead, ValidItem, ItemText, IsSpace;
    var text := EntriesText(es) + rest;
    if es != [] {
      FirstEntry(es);
      HeadStarts(es[0].head);
      assert text[0] == HeadText(es[0].head)[0];
    }
    QuoteIsVisible();
    HasAtIndex(t, i, text, 0);
    HasAtFits(t, i, text);
    SkipsNothing(t, i);
  }

  lemma QuoteIsVisible()
    ensures !IsSpace('\"')
  {
  }

  lemma HeadStarts(h: Head)
    ensures HeadText(h) != "" && HeadText(h)[0] == '\"'
  {
  }

  lemma {:induction false} ItemsRead(xs: seq<Item>, rest: string, t: string, i: nat, keys: seq<Key>, items: seq<Value>)
    returns (items': seq<Value>)
    requires ValidItems(xs) && HasAt(t, i, ItemsText(xs) + rest) && rest != "" && !IsSpace(rest[0])
    ensures i + |ItemsText(xs)| <= |t| && |items'| == |items| + |xs|
    ensures forall o :: o in ParseItems(t, i + |ItemsText(xs)|, keys, items').seen ==>
      o in ParseItems(t, i, keys, items).seen
    decreases |xs|
  {
    hide *;
    hide ValidItems;
    HasAtFits(t, i, ItemsText(xs) + rest);
    if xs == [] {
      NoEntries();
      items' := items;
    } else {
      var x := xs[0];
      FirstItemText(xs);
      var tail := ItemsText(xs[1..]) + rest;
      assert ItemsText(xs) + rest == ItemText(x) + tail;
      HasAtSplit(t, i, ItemText(x), tail);
      var below := keys + [Index(|items|)];
      ItemRead(x, t, i, below);
      var child, next := ParseValue(t, i, below), i + |ItemText(x)|;
      ItemsTurn(t, i, keys, items, child);
      ItemsTailIsVisible(xs[1..], rest, t, next);
      items' := ItemsRead(xs[1..], rest, t, next, keys, items + [child.value]);
    }
  }

  lemma FirstItemText(xs: seq<Item>)
    requires ValidItems(xs) && xs != []
    ensures ValidItem(xs[0]) && ValidItems(xs[1..]) && ItemsText(xs) == ItemText(xs[0]) + ItemsText(xs[1..])
  {
    hide ValidItem, ItemText;
  }

  lemma ItemsTailIsVisible(xs: seq<Item>, rest: string, t: string, i: nat)
    requires ValidItems(xs) && HasAt(t, i, ItemsText(xs) + rest) && rest != "" && !IsSpace(rest[0])
    ensures i < |t| && SkipSpace(t, i) == i
  {
    hide HasAt, ValidItem, ItemText, IsSpace;
    var text := ItemsText(xs) + rest;
    HasAtFits(t, i, text);
    if xs != [] {
      FirstItemText(xs);
      var tail := ItemsText(xs[1..]) + rest;
      assert text == ItemText(xs[0]) + tail;
      HasAtSplit(t, i, ItemText(xs[0]), tail);
      ItemRead(xs[0], t, i, []);
    } else {
      assert text == rest;
      HasAtIndex(t, i, rest, 0);
      SkipsNothing(t, i);
    }
  }

  // Every place that stands is observed.

  lemma LevelsFirst(ls: seq<Level>)
    requires ls != [] && ValidLevels(ls)
    ensures ValidLevel(ls[0]) && ValidLevels(ls[1..]) && LevelsText(ls) == LevelText(ls[0]) + LevelsText(ls[1..])
    ensures KeysOf(ls) == [KeyOf(ls[0])] + KeysOf(ls[1..])
  {
    hide ValidLevel, LevelText, KeyOf;
  }

  lemma NoLevels()
    ensures LevelsText([]) == "" && KeysOf([]) == []
  {
  }

  /** What follows the open levels starts with something visible. */
  lemma PlaceIsVisible(t: string, i: nat, ls: seq<Level>, d: Doc)
    requires Stands(t, i, ls, d)
    ensures i < |t| && SkipSpace(t, i) == i && LevelsText(ls) + Render(d) != ""
      && !IsSpace((LevelsText(ls) + Render(d))[0])
    ensures ls != [] && ls[0].InObject? ==> t[i] == '{'
    ensures ls != [] && ls[0].InArray? ==> t[i] == '['
  {
    hide *;
    var text := LevelsText(ls) + Render(d);
    StandsValid(t, i, ls, d);
    HasAtFits(t, i, text);
    if ls == [] {
      NoLevels();
      StandsHere(t, i, d);
      assert text == Render(d);
      FirstVisible(d, t, i);
      RenderStarts(d, t, i);
    } else {
      LevelsFirst(ls);
      LevelStarts(ls[0]);
      assert text[0] == LevelText(ls[0])[0];
      HasAtIndex(t, i, text, 0);
      BracketsAreVisible();
      SkipsNothing(t, i);
    }
  }

  lemma RenderStarts(d: Doc, t: string, i: nat)
    requires HasAt(t, i, Render(d)) && Valid(d) && i < |t| && SkipSpace(t, i) == i
    ensures Render(d) != "" && !IsSpace(Render(d)[0])
  {
    hide Valid;
    NotEmpty(d);
    HasAtIndex(t, i, Render(d), 0);
  }

  lemma NotEmpty(d: Doc)
    requires Valid(d)
    ensures Render(d) != ""
  {
    match d
    case NumberDoc(lexeme) => LexemesAreLexemes(lexeme);
    case WordDoc(lexeme) => LexemesAreLexemes(lexeme);
    case _ =>
  }

  lemma BracketsAreVisible()
    ensures !IsSpace('{') && !IsSpace('[')
  {
  }

  lemma LevelStarts(l: Level)
    ensures LevelText(l) != "" && LevelText(l)[0] == if l.InObject? then '{' else '['
  {
  }

  lemma StandsBelow(t: string, i: nat, ls: seq<Level>, d: Doc)
    requires Stands(t, i, ls, d) && ls != []
    ensures HasAt(t, i, LevelText(ls[0])) && Stands(t, i + |LevelText(ls[0])|, ls[1..], d)
  {
    hide HasAt, Valid, ValidLevel, Followed, LevelText, Render;
    LevelsFirst(ls);
    assert LevelsText(ls) + Render(d) == LevelText(ls[0]) + (LevelsText(ls[1..]) + Render(d));
    HasAtSplit(t, i, LevelText(ls[0]), LevelsText(ls[1..]) + Render(d));
  }

  lemma {:induction false} PlaceObserved(t: string, i: nat, keys: seq<Key>, ls: seq<Level>, d: Doc)
    requires Stands(t, i, ls, d) && i <= |t| && DotPath(keys + KeysOf(ls)) != ""
    ensures Observation(DotPath(keys + KeysOf(ls)), ValueIn(d)) in ParseValue(t, i, keys).seen
    decreases |ls|
  {
    hide *;
    PlaceIsVisible(t, i, ls, d);
    if ls == [] {
      NoLevels();
      StandsHere(t, i, d);
      assert keys + [] == keys;
      PlaceRead(d, t, i, keys);
      OwnPost(d, keys);
    } else {
      StandsBelow(t, i, ls, d);
      StandsValid(t, i, ls, d);
      LevelsFirst(ls);
      var l := ls[0];
      assert keys + KeysOf(ls) == keys + [KeyOf(l)] + KeysOf(ls[1..]);
      PlaceIsVisible(t, i + |LevelText(l)|, ls[1..], d);
      PlaceObserved(t, i + |LevelText(l)|, keys + [KeyOf(l)], ls[1..], d);
      match l
      case InObject(pad, es, h) =>
        InObjectObserved(t, i, keys, pad, es, h, Observation(DotPath(keys + KeysOf(ls)), ValueIn(d)));
      case InArray(pad, xs) =>
        InArrayObserved(t, i, keys, pad, xs, LevelsText(ls[1..]) + Render(d),
                        Observation(DotPath(keys + KeysOf(ls)), ValueIn(d)));
    }
  }

  lemma StandsHere(t: string, i: nat, d: Doc)
    requires Stands(t, i, [], d)
    ensures Valid(d) && HasAt(t, i, Render(d)) && Followed(t, i + |Render(d)|, d)
  {
    hide HasAt, Valid, Followed, Render;
    NoLevels();
    assert "" + Render(d) == Render(d);
  }

  lemma StandsValid(t: string, i: nat, ls: seq<Level>, d: Doc)
    requires Stands(t, i, ls, d)
    ensures ValidLevels(ls) && HasAt(t, i, LevelsText(ls) + Render(d))
    ensures ls != [] ==> HasAt(t, i + |LevelText(ls[0])|, LevelsText(ls[1..]) + Render(d))
  {
    hide HasAt, Valid, Followed, Render;
    if ls != [] { StandsBelow(t, i, ls, d); }
  }

  lemma InObjectObserved(t: string, i: nat, keys: seq<Key>, pad: string, es: seq<Entry>, h: Head, o: Observation)
    requires var l := InObject(pad, es, h);
      && ValidLevel(l) && HasAt(t, i, LevelText(l)) && i < |t| && t[i] == '{' && SkipSpace(t, i) == i
      && i + |LevelText(l)| <= |t| && o in ParseValue(t, i + |LevelText(l)|, keys + [KeyOf(l)]).seen
    ensures o in ParseValue(t, i, keys).seen
  {
    hide *;
    var l, cursor := InObject(pad, es, h), i + 1 + |pad|;
    ObjectLevel(pad, es, h);
    HasAtSplit(t, i, "{", pad + (EntriesText(es) + HeadText(h)));
    HasAtSplit(t, i + 1, pad, EntriesText(es) + HeadText(h));
    HasAtSplit(t, cursor, EntriesText(es), HeadText(h));
    HeadStarts(h);
    QuoteIsVisible();
    SkipPadding(t, i + 1, pad);
    TailIsVisible(es, HeadText(h), t, cursor);
    StartsWithQuote(es, h, t, cursor);
    ObjectTurn(t, i, keys, cursor);
    var members := EntriesRead(es, HeadText(h), t, cursor, keys, []);
    var at := cursor + |EntriesText(es)|;
    HeadRead(h, t, at);
    var end, below := at + |Quote(h.key)|, keys + [Name(Content(h.key))];
    var colon := SkipSpace(t, end);
    ParseSkips(t, colon + 1, at + |HeadText(h)|, below);
    MembersTurn(t, at, keys, members, Content(h.key), end, ParseValue(t, colon + 1, below));
  }

  lemma StartsWithQuote(es: seq<Entry>, h: Head, t: string, i: nat)
    requires ValidEntries(es) && HasAt(t, i, EntriesText(es) + HeadText(h)) && i < |t|
    ensures t[i] == '\"'
  {
    hide HasAt, ValidHead, ValidItem, ItemText;
    var text := EntriesText(es) + HeadText(h);
    HeadStarts(h);
    if es != [] {
      FirstEntry(es);
      HeadStarts(es[0].head);
      assert text[0] == HeadText(es[0].head)[0];
    }
    HasAtIndex(t, i, text, 0);
  }

  lemma InArrayObserved(t: string, i: nat, keys: seq<Key>, pad: string, xs: seq<Item>, rest: string, o: Observation)
    requires var l := InArray(pad, xs);
      && ValidLevel(l) && HasAt(t, i, LevelText(l)) && i < |t| && t[i] == '[' && SkipSpace(t, i) == i
      && i + |LevelText(l)| < |t| && HasAt(t, i + |LevelText(l)|, rest) && rest != "" && !IsSpace(rest[0])
      && o in ParseValue(t, i + |LevelText(l)|, keys + [KeyOf(l)]).seen
    ensures o in ParseValue(t, i, keys).seen
  {
    hide *;
    var l, cursor := InArray(pad, xs), i + 1 + |pad|;
    ArrayLevel(pad, xs);
    HasAtSplit(t, i, "[", pad + ItemsText(xs));
    HasAtSplit(t, i + 1, pad, ItemsText(xs));
    HasAtSplit(t, cursor, ItemsText(xs), rest);
    SkipPadding(t, i + 1, pad);
    ItemsTailIsVisible(xs, rest, t, cursor);
    var at, below := cursor + |ItemsText(xs)|, keys + [Index(|xs|)];
    ArrayStart(t, cursor, xs, rest, keys, o, at, below);
    ArrayTurn(t, i, keys, cursor);
    var items := ItemsRead(xs, rest, t, cursor, keys, []);
    ItemsTurn(t, at, keys, items, ParseValue(t, at, below));
  }

  /** A value or an item stands at the cursor, no closing bracket. */
  lemma ArrayStart(t: string, i: nat, xs: seq<Item>, rest: string, keys: seq<Key>, o: Observation, at: nat,
                   below: seq<Key>)
    requires ValidItems(xs) && HasAt(t, i, ItemsText(xs) + rest) && rest != "" && !IsSpace(rest[0])
    requires at == i + |ItemsText(xs)| && at < |t| && i < |t| && SkipSpace(t, i) == i
      && o in ParseValue(t, at, below).seen
    ensures t[i] != ']'
  {
    hide HasAt, ValidItem, ItemText, IsSpace, ParseMembers, ParseItems;
    if xs != [] {
      FirstItemText(xs);
      assert ItemsText(xs) + rest == ItemText(xs[0]) + (ItemsText(xs[1..]) + rest);
      HasAtSplit(t, i, ItemText(xs[0]), ItemsText(xs[1..]) + rest);
      ItemRead(xs[0], t, i, below);
      OkIsNoBracket(t, i, below);
    } else {
      SeenIsNoBracket(t, at, below, o);
    }
  }

  lemma OkIsNoBracket(t: string, i: nat, keys: seq<Key>)
    requires i < |t| && SkipSpace(t, i) == i && ParseValue(t, i, keys).ok
    ensures t[i] != ']'
  {
    if t[i] == ']' { BracketReadsNothing(t, i, keys); }
  }

  lemma SeenIsNoBracket(t: string, i: nat, keys: seq<Key>, o: Observation)
    requires i < |t| && SkipSpace(t, i) == i && o in ParseValue(t, i, keys).seen
    ensures t[i] != ']'
  {
    if t[i] == ']' { BracketReadsNothing(t, i, keys); }
  }

  lemma BracketReadsNothing(t: string, i: nat, keys: seq<Key>)
    requires i < |t| && SkipSpace(t, i) == i && t[i] == ']'
    ensures !ParseValue(t, i, keys).ok && ParseValue(t, i, keys).seen == []
  {
    ScalarTurn(t, i, keys);
    NoPlainWord(t, i);
    match WordAt(t, i, NUMBER_WORDS)
    case Some(w) => HasAtIndex(t, i, w, 0);
    case None =>
  }

  /**
    The evidence path, exactly, on any text: a pair of path and value is observed if and only if the path is not
    empty and the value is that of a document that stands complete behind the first bracket and the containers
    that are open along that path, and is followed as it may be.
   */
  lemma ObservedIff(t: string, o: Observation)
    ensures o in ObservedValues(t) <==>
      exists ls, d ::
        Stands(t, FirstBracket(t, 0), ls, d) && o == Observation(DotPath(KeysOf(ls)), ValueIn(d)) && o.path != ""
  {
    hide Stands, DotPath, ValueIn, ParseValue, KeysOf;
    if o in ObservedValues(t) {
      var k :| 0 <= k < |ObservedValues(t)| && ObservedValues(t)[k] == o;
      var ls, d := ObservedIsPlaced(t, k);
      ObservedHavePaths(t, k);
    }
    if ls, d :| (
      Stands(t, FirstBracket(t, 0), ls, d) && o == Observation(DotPath(KeysOf(ls)), ValueIn(d)) && o.path != "")
    {
      PlaceIsVisible(t, FirstBracket(t, 0), ls, d);
      assert [] + KeysOf(ls) == KeysOf(ls);
      PlaceObserved(t, FirstBracket(t, 0), [], ls, d);
    }
  }
}
