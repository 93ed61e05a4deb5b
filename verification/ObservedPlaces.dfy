/**
  Nothing is reported that is not closed in the raw text, and nothing under another path than its own: on any
  text, whatever it holds and wherever it breaks off, each observed value is that of a complete rendering, and
  its path is that of the containers that stand open around it, from the first bracket on.
 */
module ObservedPlaces {
  import opened Chars
  import opened Documents
  import opened Json
  import opened Observed
  import opened StringBodies
  import opened ObservedDocs
  import opened ObservedClosed

  // Containers that stand open.

  /** A key and its colon, with the spaces around the colon. */
  datatype Head = Head(key: string, beforeColon: string, afterColon: string)

  /** A value that is complete and followed by a comma. */
  datatype Item = Item(value: Doc, afterValue: string, afterComma: string)

  datatype Entry = Entry(head: Head, item: Item)

  /** A container that is open at one of its values: what stands before that value. */
  datatype Level =
    | InObject(pad: string, entries: seq<Entry>, head: Head)
    | InArray(pad: string, items: seq<Item>)

  function HeadText(h: Head): string { Quote(h.key) + (h.beforeColon + (":" + h.afterColon)) }

  function ItemText(x: Item): string { Render(x.value) + (x.afterValue + ("," + x.afterComma)) }

  function EntriesText(es: seq<Entry>): string {
    if es == [] then "" else HeadText(es[0].head) + (ItemText(es[0].item) + EntriesText(es[1..]))
  }

  function ItemsText(xs: seq<Item>): string {
    if xs == [] then "" else ItemText(xs[0]) + ItemsText(xs[1..])
  }

  function LevelText(l: Level): string {
    match l
    case InObject(pad, entries, head) => "{" + (pad + (EntriesText(entries) + HeadText(head)))
    case InArray(pad, items) => "[" + (pad + ItemsText(items))
  }

  function LevelsText(ls: seq<Level>): string {
    if ls == [] then "" else LevelText(ls[0]) + LevelsText(ls[1..])
  }

  predicate ValidHead(h: Head) { Tokens.StringBody(h.key) && AllSpace(h.beforeColon) && AllSpace(h.afterColon) }

  predicate ValidItem(x: Item) { Valid(x.value) && AllSpace(x.afterValue) && AllSpace(x.afterComma) }

  predicate ValidEntries(es: seq<Entry>) {
    forall i :: 0 <= i < |es| ==> ValidHead(es[i].head) && ValidItem(es[i].item)
  }

  predicate ValidItems(xs: seq<Item>) { forall i :: 0 <= i < |xs| ==> ValidItem(xs[i]) }

  predicate ValidLevel(l: Level) {
    match l
    case InObject(pad, entries, head) => AllSpace(pad) && ValidEntries(entries) && ValidHead(head)
    case InArray(pad, items) => AllSpace(pad) && ValidItems(items)
  }

  predicate ValidLevels(ls: seq<Level>) { forall i :: 0 <= i < |ls| ==> ValidLevel(ls[i]) }

  /** The key of the value a container is open at. */
  function KeyOf(l: Level): Key {
    match l
    case InObject(_, _, head) => Name(Content(head.key))
    case InArray(_, items) => Index(|items|)
  }

  function KeysOf(ls: seq<Level>): (r: seq<Key>)
    ensures |r| == |ls| && forall i :: 0 <= i < |r| ==> r[i] == KeyOf(ls[i])
  {
    seq(|ls|, i requires 0 <= i < |ls| => KeyOf(ls[i]))
  }

  /**
    What may follow an accepted document that ends at `end`: anything after a container; after a scalar, behind
    spaces, a comma or a closing bracket, or the end of the text unless it is a number, which may still grow.
   */
  predicate Followed(t: string, end: nat, d: Doc) {
    Scalar(d) ==>
      && end <= |t|
      && var next := SkipSpace(t, end);
         if next < |t| then t[next] == ',' || t[next] == ']' || t[next] == '}' else !d.NumberDoc?
  }

  /** From `at` on, `t` opens the levels, then holds the whole document, and goes on as it may. */
  predicate Stands(t: string, at: nat, ls: seq<Level>, d: Doc) {
    && ValidLevels(ls) && Valid(d) && Tokens.HasAt(t, at, LevelsText(ls) + Render(d))
    && Followed(t, at + |LevelsText(ls)| + |Render(d)|, d)
  }

  /** The observation shows a value that stands at `at`, under the path of the levels below `keys`. */
  ghost predicate Placed(t: string, at: nat, keys: seq<Key>, o: Observation) {
    exists ls, d :: Stands(t, at, ls, d) && o == Observation(DotPath(keys + KeysOf(ls)), ValueIn(d))
  }

  ghost predicate InMembers(t: string, i: nat, keys: seq<Key>, o: Observation) {
    exists es, h ::
      && ValidEntries(es) && ValidHead(h) && Tokens.HasAt(t, i, EntriesText(es) + HeadText(h))
      && Placed(t, i + |EntriesText(es)| + |HeadText(h)|, keys + [Name(Content(h.key))], o)
  }

  ghost predicate InItems(t: string, i: nat, n: nat, keys: seq<Key>, o: Observation) {
    exists xs ::
      && ValidItems(xs) && Tokens.HasAt(t, i, ItemsText(xs))
      && Placed(t, i + |ItemsText(xs)|, keys + [Index(n + |xs|)], o)
  }

  lemma MemberFound(t: string, i: nat, keys: seq<Key>, o: Observation) returns (es: seq<Entry>, h: Head)
    requires InMembers(t, i, keys, o)
    ensures ValidEntries(es) && ValidHead(h) && Tokens.HasAt(t, i, EntriesText(es) + HeadText(h))
    ensures Placed(t, i + |EntriesText(es)| + |HeadText(h)|, keys + [Name(Content(h.key))], o)
  {
    hide Placed, ValidHead, ValidEntries, EntriesText, HeadText, Tokens.HasAt, Content;
    es, h :| ValidEntries(es) && ValidHead(h) && Tokens.HasAt(t, i, EntriesText(es) + HeadText(h))
      && Placed(t, i + |EntriesText(es)| + |HeadText(h)|, keys + [Name(Content(h.key))], o);
  }

  lemma MemberBy(t: string, i: nat, keys: seq<Key>, o: Observation, es: seq<Entry>, h: Head)
    requires ValidEntries(es) && ValidHead(h) && Tokens.HasAt(t, i, EntriesText(es) + HeadText(h))
    requires Placed(t, i + |EntriesText(es)| + |HeadText(h)|, keys + [Name(Content(h.key))], o)
    ensures InMembers(t, i, keys, o)
  {
    hide Placed, ValidHead, ValidEntries, EntriesText, HeadText, Tokens.HasAt, Content;
  }

  lemma ItemsFound(t: string, i: nat, n: nat, keys: seq<Key>, o: Observation) returns (xs: seq<Item>)
    requires InItems(t, i, n, keys, o)
    ensures ValidItems(xs) && Tokens.HasAt(t, i, ItemsText(xs))
    ensures Placed(t, i + |ItemsText(xs)|, keys + [Index(n + |xs|)], o)
  {
    hide Placed, ValidItems, ItemsText, Tokens.HasAt;
    xs :| ValidItems(xs) && Tokens.HasAt(t, i, ItemsText(xs))
      && Placed(t, i + |ItemsText(xs)|, keys + [Index(n + |xs|)], o);
  }

  lemma ItemsBy(t: string, i: nat, n: nat, keys: seq<Key>, o: Observation, xs: seq<Item>)
    requires ValidItems(xs) && Tokens.HasAt(t, i, ItemsText(xs))
    requires Placed(t, i + |ItemsText(xs)|, keys + [Index(n + |xs|)], o)
    ensures InItems(t, i, n, keys, o)
  {
    hide Placed, ValidItems, ItemsText, Tokens.HasAt;
  }

  lemma OneEntryMore(e: Entry, es: seq<Entry>)
    ensures EntriesText([e] + es) == HeadText(e.head) + (ItemText(e.item) + EntriesText(es))
    ensures ValidHead(e.head) && ValidItem(e.item) && ValidEntries(es) ==> ValidEntries([e] + es)
  {
    hide HeadText, ItemText, ValidHead, ValidItem;
    assert ([e] + es)[1..] == es;
  }

  lemma OneItemMore(x: Item, xs: seq<Item>)
    ensures ItemsText([x] + xs) == ItemText(x) + ItemsText(xs)
    ensures ValidItem(x) && ValidItems(xs) ==> ValidItems([x] + xs)
  {
    hide ItemText, ValidItem;
    assert ([x] + xs)[1..] == xs;
  }

  lemma PlacedHere(t: string, at: nat, keys: seq<Key>, d: Doc)
    requires Valid(d) && Tokens.HasAt(t, at, Render(d)) && Followed(t, at + |Render(d)|, d)
    ensures Placed(t, at, keys, Observation(DotPath(keys), ValueIn(d)))
  {
    hide Valid, Render, DotPath, ValueIn, Followed;
    assert keys + KeysOf([]) == keys && LevelsText([]) + Render(d) == Render(d);
    assert Stands(t, at, [], d);
  }

  lemma FirstMember(t: string, i: nat, h: Head, keys: seq<Key>, o: Observation)
    requires ValidHead(h) && Tokens.HasAt(t, i, HeadText(h))
    requires Placed(t, i + |HeadText(h)|, keys + [Name(Content(h.key))], o)
    ensures InMembers(t, i, keys, o)
  {
    hide Placed, HeadText, ValidHead, Content;
    assert EntriesText([]) + HeadText(h) == HeadText(h);
    assert ValidEntries([]);
  }

  lemma LaterMember(t: string, i: nat, e: Entry, keys: seq<Key>, o: Observation)
    requires ValidHead(e.head) && ValidItem(e.item)
    requires Tokens.HasAt(t, i, HeadText(e.head))
    requires Tokens.HasAt(t, i + |HeadText(e.head)|, ItemText(e.item))
    requires InMembers(t, i + |HeadText(e.head)| + |ItemText(e.item)|, keys, o)
    ensures InMembers(t, i, keys, o)
  {
    hide *;
    var j := i + |HeadText(e.head)| + |ItemText(e.item)|;
    var es, h := MemberFound(t, j, keys, o);
    var tail := EntriesText(es) + HeadText(h);
    HasAtSplit(t, i + |HeadText(e.head)|, ItemText(e.item), tail);
    HasAtSplit(t, i, HeadText(e.head), ItemText(e.item) + tail);
    OneEntryMore(e, es);
    assert EntriesText([e] + es) + HeadText(h) == HeadText(e.head) + (ItemText(e.item) + tail);
    MemberBy(t, i, keys, o, [e] + es, h);
  }

  lemma FirstItem(t: string, i: nat, n: nat, keys: seq<Key>, o: Observation)
    requires Placed(t, i, keys + [Index(n)], o) && i <= |t|
    ensures InItems(t, i, n, keys, o)
  {
    hide Placed;
    assert ItemsText([]) == "" && ValidItems([]) && t[i..i] == "";
  }

  lemma LaterItem(t: string, i: nat, x: Item, n: nat, keys: seq<Key>, o: Observation)
    requires ValidItem(x) && Tokens.HasAt(t, i, ItemText(x)) && InItems(t, i + |ItemText(x)|, n + 1, keys, o)
    ensures InItems(t, i, n, keys, o)
  {
    hide *;
    var xs := ItemsFound(t, i + |ItemText(x)|, n + 1, keys, o);
    HasAtSplit(t, i, ItemText(x), ItemsText(xs));
    OneItemMore(x, xs);
    assert n + 1 + |xs| == n + |[x] + xs|;
    ItemsBy(t, i, n, keys, o, [x] + xs);
  }

  /** One more container around a place. */
  lemma PlacedInside(t: string, at: nat, l: Level, keys: seq<Key>, o: Observation)
    requires ValidLevel(l) && Tokens.HasAt(t, at, LevelText(l))
    requires Placed(t, at + |LevelText(l)|, keys + [KeyOf(l)], o)
    ensures Placed(t, at, keys, o)
  {
    var at' := at + |LevelText(l)|;
    hide LevelText, LevelsText, Stands, ValidLevel, KeyOf, DotPath, ValueIn, Render;
    var ls, d :| Stands(t, at', ls, d) && o == Observation(DotPath(keys + [KeyOf(l)] + KeysOf(ls)), ValueIn(d));
    var all := [l] + ls;
    assert KeysOf(all) == [KeyOf(l)] + KeysOf(ls);
    assert keys + KeysOf(all) == keys + [KeyOf(l)] + KeysOf(ls);
    StandsInside(t, at, l, ls, d);
  }

  lemma StandsInside(t: string, at: nat, l: Level, ls: seq<Level>, d: Doc)
    requires ValidLevel(l) && Tokens.HasAt(t, at, LevelText(l)) && Stands(t, at + |LevelText(l)|, ls, d)
    ensures Stands(t, at, [l] + ls, d)
  {
    hide LevelText, ValidLevel, Valid, Render, Tokens.HasAt, Followed;
    var all := [l] + ls;
    assert all[1..] == ls;
    HasAtSplit(t, at, LevelText(l), LevelsText(ls) + Render(d));
    assert LevelsText(all) + Render(d) == LevelText(l) + (LevelsText(ls) + Render(d));
    assert ValidLevels(all);
  }

  lemma ObjectLevel(pad: string, es: seq<Entry>, h: Head)
    ensures var l := InObject(pad, es, h);
      && LevelText(l) == "{" + (pad + (EntriesText(es) + HeadText(h))) && KeyOf(l) == Name(Content(h.key))
      && (ValidLevel(l) <==> AllSpace(pad) && ValidEntries(es) && ValidHead(h))
  {
  }

  lemma ArrayLevel(pad: string, xs: seq<Item>)
    ensures var l := InArray(pad, xs);
      && LevelText(l) == "[" + (pad + ItemsText(xs)) && KeyOf(l) == Index(|xs|)
      && (ValidLevel(l) <==> AllSpace(pad) && ValidItems(xs))
  {
  }

  lemma PlacedInObject(t: string, at: nat, cursor: nat, keys: seq<Key>, o: Observation)
    requires at < |t| && t[at] == '{' && cursor == SkipSpace(t, at + 1) && InMembers(t, cursor, keys, o)
    ensures Placed(t, at, keys, o)
  {
    hide *;
    var es, h := MemberFound(t, cursor, keys, o);
    var pad := Padding(t, at + 1);
    HasAtChar(t, at, '{');
    HasAtSplit(t, at + 1, pad, EntriesText(es) + HeadText(h));
    HasAtSplit(t, at, "{", pad + (EntriesText(es) + HeadText(h)));
    ObjectLevel(pad, es, h);
    PlacedInside(t, at, InObject(pad, es, h), keys, o);
  }

  lemma PlacedInArray(t: string, at: nat, cursor: nat, keys: seq<Key>, o: Observation)
    requires at < |t| && t[at] == '[' && cursor == SkipSpace(t, at + 1) && InItems(t, cursor, 0, keys, o)
    ensures Placed(t, at, keys, o)
  {
    hide *;
    var xs := ItemsFound(t, cursor, 0, keys, o);
    var pad := Padding(t, at + 1);
    HasAtChar(t, at, '[');
    HasAtSplit(t, at + 1, pad, ItemsText(xs));
    HasAtSplit(t, at, "[", pad + ItemsText(xs));
    ArrayLevel(pad, xs);
    PlacedInside(t, at, InArray(pad, xs), keys, o);
  }

  // Every report, also of a text that breaks off or goes wrong later.

  ghost predicate AllPlaced(t: string, at: nat, keys: seq<Key>, seen: seq<Observation>) {
    forall k :: 0 <= k < |seen| ==> Placed(t, at, keys, seen[k])
  }

  ghost predicate AllInMembers(t: string, i: nat, keys: seq<Key>, seen: seq<Observation>) {
    forall k :: 0 <= k < |seen| ==> InMembers(t, i, keys, seen[k])
  }

  ghost predicate AllInItems(t: string, i: nat, n: nat, keys: seq<Key>, seen: seq<Observation>) {
    forall k :: 0 <= k < |seen| ==> InItems(t, i, n, keys, seen[k])
  }

  /** A loop's reports: those of its parts, and at the end the container it closes. */
  ghost predicate MembersPlaced(t: string, i: nat, keys: seq<Key>, r: Parsed) {
    if r.ok then exists others :: AllInMembers(t, i, keys, others) && r.seen == others + Report(keys, r.value)
    else AllInMembers(t, i, keys, r.seen)
  }

  ghost predicate ItemsPlaced(t: string, i: nat, n: nat, keys: seq<Key>, r: Parsed) {
    if r.ok then exists others :: AllInItems(t, i, n, keys, others) && r.seen == others + Report(keys, r.value)
    else AllInItems(t, i, n, keys, r.seen)
  }

  lemma NonePlaced(t: string, i: nat, n: nat, keys: seq<Key>)
    ensures AllPlaced(t, i, keys, []) && AllInMembers(t, i, keys, []) && AllInItems(t, i, n, keys, [])
  {
  }

  lemma OwnReport(t: string, at: nat, keys: seq<Key>, d: Doc)
    requires Valid(d) && Tokens.HasAt(t, at, Render(d)) && Followed(t, at + |Render(d)|, d)
    ensures AllPlaced(t, at, keys, Report(keys, ValueIn(d)))
  {
    PlacedHere(t, at, keys, d);
    hide Placed, DotPath;
  }

  lemma SkipStops(t: string, i: nat)
    requires i <= |t| && SkipSpace(t, i) < |t|
    ensures !IsSpace(t[SkipSpace(t, i)])
  {
  }

  lemma ScalarSeen(t: string, i: nat, keys: seq<Key>)
    requires i < |t|
    ensures var r := ParseScalar(t, i, keys); r.seen == if r.ok then Report(keys, r.value) else []
  {
  }

  /** A scalar is only accepted with what may follow it. */
  lemma AcceptedIsFollowed(t: string, i: nat, keys: seq<Key>, d: Doc)
    requires i < |t| && SkipSpace(t, i) == i && ParseValue(t, i, keys).ok && Valid(d) && Tokens.HasAt(t, i, Render(d))
    requires ParseValue(t, i, keys).value == ValueIn(d) && ParseValue(t, i, keys).cursor == i + |Render(d)|
    ensures Followed(t, i + |Render(d)|, d)
  {
    hide *;
    hide Scalar;
    if Scalar(d) {
      ScalarIsNoContainer(d, t, i);
      ScalarTurn(t, i, keys);
      ScalarAccepted(t, i, keys);
      TokenKind(Tokens.ScalarAt(t, i).value);
      FollowedMeans(t, i + |Render(d)|, d);
    } else {
      FollowedMeans(t, i + |Render(d)|, d);
    }
  }

  lemma FollowedMeans(t: string, end: nat, d: Doc)
    ensures Followed(t, end, d) <==>
      (Scalar(d) ==>
        && end <= |t|
        && var next := SkipSpace(t, end);
           if next < |t| then t[next] == ',' || t[next] == ']' || t[next] == '}' else !d.NumberDoc?)
  {
  }

  /** What the acceptance of a scalar means. */
  lemma ScalarAccepted(t: string, i: nat, keys: seq<Key>)
    requires i < |t|
    ensures var r, token := ParseScalar(t, i, keys), Tokens.ScalarAt(t, i);
      if r.ok then
        && token.Some? && token.value.end <= |t| && r.cursor == token.value.end && r.value == TokenValue(token.value)
        && r.seen == Report(keys, r.value)
        && var next := SkipSpace(t, r.cursor);
           if next < |t| then t[next] == ',' || t[next] == ']' || t[next] == '}' else !token.value.NumberToken?
      else
        token.Some? ==>
          var next := SkipSpace(t, token.value.end);
          if next < |t| then t[next] != ',' && t[next] != ']' && t[next] != '}' else token.value.NumberToken?
  {
    hide Tokens.ScalarAt, TokenValue, Report;
  }

  lemma TokenKind(token: Tokens.Token)
    ensures TokenValue(token).Num? <==> token.NumberToken?
  {
  }

  lemma ScalarIsNoContainer(d: Doc, t: string, i: nat)
    requires Scalar(d) && Valid(d) && Tokens.HasAt(t, i, Render(d)) && i < |t|
    ensures t[i] != '{' && t[i] != '['
    ensures ValueIn(d).Num? <==> d.NumberDoc?
  {
    match d
    case TextDoc(body) => QuoteLayout(t, i, body);
    case NumberDoc(lexeme) =>
      FirstOfNumber(lexeme);
      HasAtIndex(t, i, lexeme, 0);
    case WordDoc(lexeme) => HasAtIndex(t, i, lexeme, 0);
  }

  lemma ObjectReports(t: string, at: nat, cursor: nat, keys: seq<Key>, r: Parsed)
    requires at < |t| && t[at] == '{' && cursor == SkipSpace(t, at + 1) && MembersPlaced(t, cursor, keys, r)
    requires r.ok ==> AllPlaced(t, at, keys, Report(keys, r.value))
    ensures AllPlaced(t, at, keys, r.seen)
  {
    hide InMembers, Placed, Report, SkipSpace;
    var others := r.seen;
    if r.ok {
      others :| AllInMembers(t, cursor, keys, others) && r.seen == others + Report(keys, r.value);
    }
    forall k | 0 <= k < |others| ensures Placed(t, at, keys, others[k]) {
      PlacedInObject(t, at, cursor, keys, others[k]);
    }
  }

  lemma ArrayReports(t: string, at: nat, cursor: nat, keys: seq<Key>, r: Parsed)
    requires at < |t| && t[at] == '[' && cursor == SkipSpace(t, at + 1) && ItemsPlaced(t, cursor, 0, keys, r)
    requires r.ok ==> AllPlaced(t, at, keys, Report(keys, r.value))
    ensures AllPlaced(t, at, keys, r.seen)
  {
    hide InItems, Placed, Report, SkipSpace;
    var others := r.seen;
    if r.ok {
      others :| AllInItems(t, cursor, 0, keys, others) && r.seen == others + Report(keys, r.value);
    }
    forall k | 0 <= k < |others| ensures Placed(t, at, keys, others[k]) {
      PlacedInArray(t, at, cursor, keys, others[k]);
    }
  }

  lemma {:induction false} SeenPlaced(t: string, i: nat, keys: seq<Key>)
    requires i <= |t|
    ensures AllPlaced(t, SkipSpace(t, i), keys, ParseValue(t, i, keys).seen)
    decreases |t| - i, 0
  {
    hide *;
    var start, r := SkipSpace(t, i), ParseValue(t, i, keys);
    NonePlaced(t, start, 0, keys);
    if start == |t| {
      NothingLeft(t, i, keys);
    } else {
      SkipStops(t, i);
      SkipsNothing(t, start);
      ParseSkips(t, i, start, keys);
      if r.ok {
        var d := ValueRendered(t, i, keys);
        AcceptedIsFollowed(t, start, keys, d);
        OwnReport(t, start, keys, d);
      }
      if t[start] == '{' {
        var cursor := SkipSpace(t, start + 1);
        ObjectTurn(t, start, keys, cursor);
        if !(cursor < |t| && t[cursor] == '}') {
          MembersSeen(t, cursor, keys, []);
          ObjectReports(t, start, cursor, keys, r);
        }
      } else if t[start] == '[' {
        var cursor := SkipSpace(t, start + 1);
        ArrayTurn(t, start, keys, cursor);
        if !(cursor < |t| && t[cursor] == ']') {
          SkippedOnce(t, start + 1);
          ItemsSeen(t, cursor, keys, []);
          ArrayReports(t, start, cursor, keys, r);
        }
      } else {
        ScalarTurn(t, start, keys);
        ScalarSeen(t, start, keys);
      }
    }
  }

  lemma ChildOfMember(t: string, i: nat, h: Head, keys: seq<Key>, seen: seq<Observation>)
    requires ValidHead(h) && Tokens.HasAt(t, i, HeadText(h))
    requires AllPlaced(t, i + |HeadText(h)|, keys + [Name(Content(h.key))], seen)
    ensures AllInMembers(t, i, keys, seen)
  {
    hide InMembers, Placed, HeadText, ValidHead, Content, Tokens.HasAt;
    forall k | 0 <= k < |seen| ensures InMembers(t, i, keys, seen[k]) { FirstMember(t, i, h, keys, seen[k]); }
  }

  lemma MembersJoin(t: string, i: nat, e: Entry, keys: seq<Key>, first: seq<Observation>, rest: Parsed)
    requires ValidHead(e.head) && ValidItem(e.item)
    requires Tokens.HasAt(t, i, HeadText(e.head))
    requires Tokens.HasAt(t, i + |HeadText(e.head)|, ItemText(e.item))
    requires AllInMembers(t, i, keys, first)
    requires MembersPlaced(t, i + |HeadText(e.head)| + |ItemText(e.item)|, keys, rest)
    ensures MembersPlaced(t, i, keys, rest.(seen := first + rest.seen))
  {
    hide InMembers, Placed, HeadText, ItemText, ValidHead, ValidItem, Content, Tokens.HasAt, Report;
    var j, others := i + |HeadText(e.head)| + |ItemText(e.item)|, rest.seen;
    if rest.ok {
      others :| AllInMembers(t, j, keys, others) && rest.seen == others + Report(keys, rest.value);
      assert first + rest.seen == (first + others) + Report(keys, rest.value);
    }
    forall k | 0 <= k < |others| ensures InMembers(t, i, keys, others[k]) { LaterMember(t, i, e, keys, others[k]); }
    assert AllInMembers(t, i, keys, first + others);
  }

  lemma MembersOwn(t: string, i: nat, keys: seq<Key>, r: Parsed, first: seq<Observation>)
    requires AllInMembers(t, i, keys, first) && r.seen == if r.ok then first + Report(keys, r.value) else first
    ensures MembersPlaced(t, i, keys, r)
  {
    hide InMembers, Report;
  }

  lemma ItemsOwn(t: string, i: nat, n: nat, keys: seq<Key>, r: Parsed, first: seq<Observation>)
    requires AllInItems(t, i, n, keys, first) && r.seen == if r.ok then first + Report(keys, r.value) else first
    ensures ItemsPlaced(t, i, n, keys, r)
  {
    hide InItems, Report;
  }

  lemma ChildOfItems(t: string, i: nat, n: nat, keys: seq<Key>, seen: seq<Observation>)
    requires i <= |t| && AllPlaced(t, i, keys + [Index(n)], seen)
    ensures AllInItems(t, i, n, keys, seen)
  {
    hide InItems, Placed;
    forall k | 0 <= k < |seen| ensures InItems(t, i, n, keys, seen[k]) { FirstItem(t, i, n, keys, seen[k]); }
  }

  lemma ItemsJoin(t: string, i: nat, x: Item, n: nat, keys: seq<Key>, first: seq<Observation>, rest: Parsed)
    requires ValidItem(x) && Tokens.HasAt(t, i, ItemText(x)) && AllInItems(t, i, n, keys, first)
    requires ItemsPlaced(t, i + |ItemText(x)|, n + 1, keys, rest)
    ensures ItemsPlaced(t, i, n, keys, rest.(seen := first + rest.seen))
  {
    hide InItems, Placed, ItemText, ValidItem, Tokens.HasAt, Report;
    var j, others := i + |ItemText(x)|, rest.seen;
    if rest.ok {
      others :| AllInItems(t, j, n + 1, keys, others) && rest.seen == others + Report(keys, rest.value);
      assert first + rest.seen == (first + others) + Report(keys, rest.value);
    }
    forall k | 0 <= k < |others| ensures InItems(t, i, n, keys, others[k]) { LaterItem(t, i, x, n, keys, others[k]); }
    assert AllInItems(t, i, n, keys, first + others);
  }

  /** The key and colon in front of a child. */
  lemma HeadFound(t: string, i: nat, colon: nat) returns (h: Head)
    requires i <= |t| && KeyAt(t, i).Some? && colon == SkipSpace(t, KeyAt(t, i).value.1) < |t| && t[colon] == ':'
    ensures ValidHead(h) && Tokens.HasAt(t, i, HeadText(h)) && i + |HeadText(h)| == SkipSpace(t, colon + 1)
    ensures Content(h.key) == KeyAt(t, i).value.0
  {
    hide KeyAt, SkipSpace, Tokens.HasAt, Quote, Content, AllSpace, Tokens.StringBody;
    var body, beforeColon, afterColon := KeyPieces(t, i, colon);
    h := Head(body, beforeColon, afterColon);
    HasAtSplit(t, colon, ":", afterColon);
    HasAtSplit(t, i + |Quote(body)|, beforeColon, ":" + afterColon);
    HasAtSplit(t, i, Quote(body), beforeColon + (":" + afterColon));
  }

  /** A child that was accepted, with the comma after it. */
  lemma ItemFound(t: string, i: nat, keys: seq<Key>, next: nat) returns (x: Item)
    requires i <= |t| && ParseValue(t, i, keys).ok && next == SkipSpace(t, ParseValue(t, i, keys).cursor)
    requires next < |t| && t[next] == ','
    ensures ValidItem(x) && Tokens.HasAt(t, SkipSpace(t, i), ItemText(x))
    ensures SkipSpace(t, i) + |ItemText(x)| == SkipSpace(t, next + 1)
  {
    hide ParseValue, SkipSpace, Tokens.HasAt, Render, AllSpace, Valid, ValueIn, PostOrder;
    var start := SkipSpace(t, i);
    var d := ValueRendered(t, i, keys);
    var afterValue := Padding(t, start + |Render(d)|);
    var afterComma := Padding(t, next + 1);
    x := Item(d, afterValue, afterComma);
    HasAtChar(t, next, ',');
    HasAtSplit(t, next, ",", afterComma);
    HasAtSplit(t, start + |Render(d)|, afterValue, "," + afterComma);
    HasAtSplit(t, start, Render(d), afterValue + ("," + afterComma));
  }

  lemma {:induction false} MembersSeen(t: string, i: nat, keys: seq<Key>, members: seq<Member>)
    requires i <= |t|
    ensures MembersPlaced(t, i, keys, ParseMembers(t, i, keys, members))
    decreases |t| - i, 1
  {
    hide *;
    var r := ParseMembers(t, i, keys, members);
    NonePlaced(t, i, 0, keys);
    if KeyAt(t, i).None? {
      MembersStuck(t, i, keys, members);
      MembersOwn(t, i, keys, r, []);
    } else {
      var (key, end) := KeyAt(t, i).value;
      var colon := SkipSpace(t, end);
      if colon == |t| || t[colon] != ':' {
        MembersStuck(t, i, keys, members);
        MembersOwn(t, i, keys, r, []);
      } else {
        var child := ParseValue(t, colon + 1, keys + [Name(key)]);
        MembersTurn(t, i, keys, members, key, end, child);
        SeenPlaced(t, colon + 1, keys + [Name(key)]);
        var h := HeadFound(t, i, colon);
        ChildOfMember(t, i, h, keys, child.seen);
        var next := if child.ok then SkipSpace(t, child.cursor) else |t|;
        if child.ok && next < |t| && t[next] == ',' {
          var x := ItemFound(t, colon + 1, keys + [Name(key)], next);
          var rest := ParseMembers(t, SkipSpace(t, next + 1), keys, Put(members, key, child.value));
          MembersSeen(t, SkipSpace(t, next + 1), keys, Put(members, key, child.value));
          MembersJoin(t, i, Entry(h, x), keys, child.seen, rest);
        } else {
          MembersOwn(t, i, keys, r, child.seen);
        }
      }
    }
  }

  lemma {:induction false} ItemsSeen(t: string, i: nat, keys: seq<Key>, items: seq<Value>)
    requires i <= |t| && SkipSpace(t, i) == i
    ensures ItemsPlaced(t, i, |items|, keys, ParseItems(t, i, keys, items))
    decreases |t| - i, 1
  {
    hide *;
    var r := ParseItems(t, i, keys, items);
    NonePlaced(t, i, |items|, keys);
    if i == |t| {
      NothingToRead(t, keys, [], items);
      ItemsOwn(t, i, |items|, keys, r, []);
    } else {
      var below := keys + [Index(|items|)];
      var child := ParseValue(t, i, below);
      ItemsTurn(t, i, keys, items, child);
      SeenPlaced(t, i, below);
      ChildOfItems(t, i, |items|, keys, child.seen);
      var next := if child.ok then SkipSpace(t, child.cursor) else |t|;
      if child.ok && next < |t| && t[next] == ',' {
        var after := SkipSpace(t, next + 1);
        var x := ItemFound(t, i, below, next);
        SkippedOnce(t, next + 1);
        var rest := ParseItems(t, after, keys, items + [child.value]);
        ItemsSeen(t, after, keys, items + [child.value]);
        ItemsJoin(t, i, x, |items|, keys, child.seen, rest);
      } else {
        ItemsOwn(t, i, |items|, keys, r, child.seen);
      }
    }
  }

  lemma SkippedOnce(t: string, i: nat)
    requires i <= |t|
    ensures SkipSpace(t, SkipSpace(t, i)) == SkipSpace(t, i)
  {
  }

  /**
    The main statement: on any text, each observed value stands complete in it, and its path names the keys
    and indices of the containers that are open there.
   */
  lemma ObservedIsPlaced(t: string, k: nat) returns (levels: seq<Level>, d: Doc)
    requires k < |ObservedValues(t)|
    ensures Stands(t, FirstBracket(t, 0), levels, d)
    ensures ObservedValues(t)[k] == Observation(DotPath(KeysOf(levels)), ValueIn(d))
  {
    var start := FirstBracket(t, 0);
    hide ParseValue, Stands, DotPath, ValueIn;
    SeenPlaced(t, start, []);
    SkipsNothing(t, start);
    levels, d :| Stands(t, start, levels, d)
      && ObservedValues(t)[k] == Observation(DotPath([] + KeysOf(levels)), ValueIn(d));
    assert [] + KeysOf(levels) == KeysOf(levels);
  }
}
