/**
  What a stream reports for a whole reply, however it is cut into chunks: the done events that the raw text
  backs come in the post-order of the document, and are the same for every cutting while the completion
  heuristic stays silent, as it must when no value stands still before its boundary was observed
  (agently/utils/StreamingJSONParser.py:284-300, 415-467 and 811-846).
 */
module StreamingReplies {
  import opened Chars
  import opened Documents
  import opened Json
  import opened Texts
  import opened Observed
  import opened ObservedDocs
  import opened ObservedPaths
  import opened Streaming
  import opened StreamingEnd

  // Lists that keep the order of another.

  ghost predicate Subsequence<T>(a: seq<T>, b: seq<T>)
    decreases |b|
  {
    a == [] || (b != [] && ((a[0] == b[0] && Subsequence(a[1..], b[1..])) || Subsequence(a, b[1..])))
  }

  lemma {:induction false} SubsequenceJoin<T>(a: seq<T>, b: seq<T>, c: seq<T>, d: seq<T>)
    requires Subsequence(a, b) && Subsequence(c, d)
    ensures Subsequence(a + c, b + d)
    decreases |b|
  {
    if b == [] {
      assert a + c == c && b + d == d;
    } else {
      assert (b + d)[0] == b[0] && (b + d)[1..] == b[1..] + d;
      if a != [] && a[0] == b[0] && Subsequence(a[1..], b[1..]) {
        assert (a + c)[0] == a[0] && (a + c)[1..] == a[1..] + c;
        SubsequenceJoin(a[1..], b[1..], c, d);
      } else {
        SubsequenceJoin(a, b[1..], c, d);
      }
    }
  }

  /** The done events of observations, one for each. */
  function EventsOf(observed: seq<Observation>): (r: seq<Event>)
    ensures |r| == |observed|
    ensures forall i :: 0 <= i < |r| ==> r[i] == Done(observed[i].path, observed[i].value, ObservedBoundary)
  {
    seq(|observed|, i requires 0 <= i < |observed| => Done(observed[i].path, observed[i].value, ObservedBoundary))
  }

  lemma {:induction false} FreshIsSubsequence(observed: seq<Observation>, complete: set<string>)
    ensures Subsequence(FreshObserved(observed, complete), EventsOf(observed))
    decreases |observed|
  {
    if observed != [] {
      var o := observed[0];
      assert EventsOf(observed)[1..] == EventsOf(observed[1..]);
      FreshIsSubsequence(observed[1..], if o.path in complete then complete else complete + {o.path});
      if o.path !in complete {
        assert FreshObserved(observed, complete)[1..] == FreshObserved(observed[1..], complete + {o.path});
      }
    }
  }

  // Observing more, piece by piece.

  lemma {:induction false} FreshJoin(a: seq<Observation>, b: seq<Observation>, complete: set<string>)
    ensures FreshObserved(a + b, complete)
         == FreshObserved(a, complete) + FreshObserved(b, Completed(complete, FreshObserved(a, complete)))
    decreases |a|
  {
    hide *;
    FreshObservedFirst(a, complete);
    FreshObservedFirst(a + b, complete);
    NothingCompleted(complete);
    if a == [] {
      assert a + b == b && [] + FreshObserved(b, complete) == FreshObserved(b, complete);
    } else {
      var o := a[0];
      assert (a + b)[1..] == a[1..] + b;
      if o.path in complete {
        FreshJoin(a[1..], b, complete);
      } else {
        var one, rest := Done(o.path, o.value, ObservedBoundary), FreshObserved(a[1..], complete + {o.path});
        FreshJoin(a[1..], b, complete + {o.path});
        CompletedOne(complete, one, rest);
        var more := FreshObserved(b, Completed(complete + {o.path}, rest));
        assert [one] + (rest + more) == [one] + rest + more;
      }
    }
  }

  lemma CompletedOne(complete: set<string>, e: Event, rest: seq<Event>)
    requires e.Done?
    ensures Completed(complete, [e] + rest) == Completed(complete + {e.path}, rest)
  {
    assert ([e] + rest)[1..] == rest;
    assert DonePaths([e] + rest) == [e.path] + DonePaths(rest);
    assert Streaming.Elements([e.path] + DonePaths(rest)) == {e.path} + Streaming.Elements(DonePaths(rest));
  }

  /** What was observed before is complete, so only the new part is reported. */
  lemma OnlyNews(a: seq<Observation>, b: seq<Observation>, complete: set<string>)
    requires forall k :: 0 <= k < |a| ==> a[k].path in complete
    ensures FreshObserved(a + b, complete) == FreshObserved(b, complete)
  {
    hide *;
    FreshJoin(a, b, complete);
    NothingFresh(a, complete);
    NothingCompleted(complete);
    assert [] + FreshObserved(b, complete) == FreshObserved(b, complete);
  }

  // The rounds of a stream.

  /** The done events that the raw text backs. */
  function Backed(rounds: seq<Round>): seq<Event> {
    if rounds == [] then []
    else
      var earlier, last := rounds[..|rounds| - 1], rounds[|rounds| - 1];
      Backed(earlier) + FreshObserved(ObservedValues(last.buffer), Completed({}, Emitted(earlier) + last.changes))
  }

  /** The heuristic marks nothing. */
  predicate Silent(rounds: seq<Round>) {
    forall k :: 0 <= k < |rounds| ==> DonePaths(rounds[k].changes) == []
  }

  /** Nothing the heuristic marks is a path that is observed. */
  predicate Unmarked(rounds: seq<Round>, observed: seq<Observation>) {
    forall k, i :: 0 <= k < |rounds| && 0 <= i < |observed| ==> observed[i].path !in DonePaths(rounds[k].changes)
  }

  lemma RoundParts(rounds: seq<Round>)
    requires rounds != []
    ensures var earlier, last := rounds[..|rounds| - 1], rounds[|rounds| - 1];
      var before := Emitted(earlier) + last.changes;
      && Emitted(rounds) == before + FreshObserved(ObservedValues(last.buffer), Completed({}, before))
      && Backed(rounds) == Backed(earlier) + FreshObserved(ObservedValues(last.buffer), Completed({}, before))
    ensures forall buffer :: Growing(rounds, buffer) <==>
      rounds[|rounds| - 1].buffer <= buffer && Growing(rounds[..|rounds| - 1], rounds[|rounds| - 1].buffer)
  {
  }

  /** What the buffers of some rounds show: they show parts of one list, so that is the longest of them. */
  function Shown(rounds: seq<Round>): seq<Observation> {
    if rounds == [] then []
    else
      var earlier, now := Shown(rounds[..|rounds| - 1]), ObservedValues(rounds[|rounds| - 1].buffer);
      if |earlier| <= |now| then now else earlier
  }

  lemma ShownMeans(rounds: seq<Round>)
    ensures rounds == [] ==> Shown(rounds) == []
    ensures rounds != [] ==>
      var earlier, now := Shown(rounds[..|rounds| - 1]), ObservedValues(rounds[|rounds| - 1].buffer);
      Shown(rounds) == if |earlier| <= |now| then now else earlier
  {
  }

  lemma {:induction false} ShownInReply(t: string, before: string, d: Doc, rounds: seq<Round>)
    requires ReplyWith(t, before, d) && Growing(rounds, t)
    ensures Shown(rounds) <= PostOrder(d, [])
    ensures rounds != [] && rounds[|rounds| - 1].buffer == t ==> Shown(rounds) == PostOrder(d, [])
    decreases |rounds|
  {
    hide *;
    ShownMeans(rounds);
    if rounds != [] {
      EarlierGrowing(rounds, t);
      ShownInReply(t, before, d, rounds[..|rounds| - 1]);
      ObservedOnlyGrows(t, before, d, rounds[|rounds| - 1].buffer);
    }
  }

  lemma EarlierGrowing(rounds: seq<Round>, buffer: string)
    requires rounds != [] && Growing(rounds, buffer)
    ensures rounds[|rounds| - 1].buffer <= buffer && Growing(rounds[..|rounds| - 1], buffer)
  {
    hide *;
    RoundParts(rounds);
    GrowingOn(rounds[..|rounds| - 1], rounds[|rounds| - 1].buffer, buffer);
  }

  lemma CompletedGrows(a: seq<Event>, b: seq<Event>)
    ensures Completed({}, a) <= Completed({}, a + b)
  {
    DonePathsJoin(a, b);
  }

  /** All that was shown so far is complete. */
  ghost predicate ShownIsComplete(rounds: seq<Round>) {
    forall k :: 0 <= k < |Shown(rounds)| ==> Shown(rounds)[k].path in Completed({}, Emitted(rounds))
  }

  /** What the last round shows beyond the earlier ones. */
  function News(rounds: seq<Round>): seq<Observation>
    requires rounds != []
  {
    var earlier, now := Shown(rounds[..|rounds| - 1]), Shown(rounds);
    if |earlier| <= |now| then now[|earlier|..] else []
  }

  /** The last round reports its news and nothing else; after it, all that was shown is complete. */
  lemma RoundNews(t: string, before: string, d: Doc, rounds: seq<Round>)
    requires ReplyWith(t, before, d) && rounds != [] && Growing(rounds, t)
    requires ShownIsComplete(rounds[..|rounds| - 1])
    ensures var earlier, changes := rounds[..|rounds| - 1], rounds[|rounds| - 1].changes;
      var all := Emitted(earlier) + changes;
      && Shown(rounds) == Shown(earlier) + News(rounds)
      && Emitted(rounds) == all + FreshObserved(News(rounds), Completed({}, all))
      && Backed(rounds) == Backed(earlier) + FreshObserved(News(rounds), Completed({}, all))
    ensures ShownIsComplete(rounds)
  {
    hide *;
    hide ShownIsComplete;
    var earlier, last := rounds[..|rounds| - 1], rounds[|rounds| - 1];
    var all := Emitted(earlier) + last.changes;
    var complete, now, news := Completed({}, all), ObservedValues(last.buffer), News(rounds);
    RoundParts(rounds);
    ShownMeans(rounds);
    NewsMeans(rounds);
    EarlierGrowing(rounds, t);
    ShownInReply(t, before, d, earlier);
    ObservedOnlyGrows(t, before, d, last.buffer);
    CompletedGrows(Emitted(earlier), last.changes);
    ShownCompleteMeans(earlier);
    if |Shown(earlier)| <= |now| {
      assert now == Shown(earlier) + news;
      OnlyNews(Shown(earlier), news, complete);
    } else {
      assert Shown(rounds) == Shown(earlier) + [] && now <= Shown(earlier);
      NothingFresh(now, complete);
      NothingFresh([], complete);
    }
    ObservedBecomesComplete(news, complete);
    CompletedJoin(all, FreshObserved(news, complete));
    ShownCompleteMeans(rounds);
  }

  lemma NewsMeans(rounds: seq<Round>)
    requires rounds != []
    ensures var earlier, now := Shown(rounds[..|rounds| - 1]), Shown(rounds);
      News(rounds) == if |earlier| <= |now| then now[|earlier|..] else []
  {
  }

  lemma ShownCompleteMeans(rounds: seq<Round>)
    ensures ShownIsComplete(rounds) <==>
      forall k :: 0 <= k < |Shown(rounds)| ==> Shown(rounds)[k].path in Completed({}, Emitted(rounds))
  {
  }

  lemma {:induction false} ShownStaysComplete(t: string, before: string, d: Doc, rounds: seq<Round>)
    requires ReplyWith(t, before, d) && Growing(rounds, t)
    ensures ShownIsComplete(rounds)
    decreases |rounds|
  {
    hide *;
    if rounds == [] {
      ShownMeans(rounds);
      ShownCompleteMeans(rounds);
    } else {
      EarlierGrowing(rounds, t);
      ShownStaysComplete(t, before, d, rounds[..|rounds| - 1]);
      RoundNews(t, before, d, rounds);
    }
  }

  lemma BackedInDocument(t: string, before: string, d: Doc, rounds: seq<Round>)
    requires ReplyWith(t, before, d) && Growing(rounds, t)
    ensures Subsequence(Backed(rounds), EventsOf(PostOrder(d, [])))
  {
    hide *;
    ShownInReply(t, before, d, rounds);
    BackedInShown(t, before, d, rounds);
    var rest := PostOrder(d, [])[|Shown(rounds)|..];
    assert PostOrder(d, []) == Shown(rounds) + rest;
    EventsJoin(Shown(rounds), rest);
    NothingIsSubsequence(EventsOf(rest));
    SubsequenceJoin(Backed(rounds), EventsOf(Shown(rounds)), [], EventsOf(rest));
    assert Backed(rounds) + [] == Backed(rounds);
  }

  lemma {:induction false} BackedInShown(t: string, before: string, d: Doc, rounds: seq<Round>)
    requires ReplyWith(t, before, d) && Growing(rounds, t)
    ensures Subsequence(Backed(rounds), EventsOf(Shown(rounds)))
    decreases |rounds|
  {
    hide *;
    if rounds == [] {
      NothingBacked();
      NothingIsSubsequence(EventsOf(Shown(rounds)));
    } else {
      var earlier := rounds[..|rounds| - 1];
      EarlierGrowing(rounds, t);
      BackedInShown(t, before, d, earlier);
      ShownStaysComplete(t, before, d, earlier);
      RoundNews(t, before, d, rounds);
      var complete := Completed({}, Emitted(earlier) + rounds[|rounds| - 1].changes);
      FreshIsSubsequence(News(rounds), complete);
      EventsJoin(Shown(earlier), News(rounds));
      SubsequenceJoin(Backed(earlier), EventsOf(Shown(earlier)), FreshObserved(News(rounds), complete),
        EventsOf(News(rounds)));
    }
  }

  lemma NothingBacked()
    ensures Backed([]) == [] && Emitted([]) == [] && Shown([]) == []
  {
  }

  lemma NothingIsSubsequence<T>(b: seq<T>)
    ensures Subsequence([], b)
  {
  }

  lemma EventsJoin(a: seq<Observation>, b: seq<Observation>)
    ensures EventsOf(a + b) == EventsOf(a) + EventsOf(b)
  {
  }

  // When nothing is lost.

  /** Only the observed paths matter among those that are complete. */
  lemma {:induction false} FreshSame(observed: seq<Observation>, a: set<string>, b: set<string>)
    requires forall k :: 0 <= k < |observed| ==> (observed[k].path in a <==> observed[k].path in b)
    ensures FreshObserved(observed, a) == FreshObserved(observed, b)
    decreases |observed|
  {
    if observed != [] {
      var o := observed[0];
      if o.path in a {
        FreshSame(observed[1..], a, b);
      } else {
        FreshSame(observed[1..], a + {o.path}, b + {o.path});
      }
    }
  }

  lemma CompletedMore(a: seq<Event>, b: seq<Event>, path: string)
    ensures path in Completed({}, a + b) <==> path in Completed({}, a) || path in DonePaths(b)
  {
    DonePathsJoin(a, b);
  }

  lemma UnmarkedMeans(rounds: seq<Round>, observed: seq<Observation>)
    requires rounds != [] && Unmarked(rounds, observed)
    ensures Unmarked(rounds[..|rounds| - 1], observed)
    ensures forall i :: 0 <= i < |observed| ==> observed[i].path !in DonePaths(rounds[|rounds| - 1].changes)
  {
    var earlier := rounds[..|rounds| - 1];
    forall k | 0 <= k < |earlier| ensures earlier[k] == rounds[k] {}
  }

  /** Of the observed paths, the complete ones are those of backed events, and these are all that was shown. */
  lemma {:induction false} BackedIsShown(t: string, before: string, d: Doc, rounds: seq<Round>)
    requires ReplyWith(t, before, d) && Growing(rounds, t) && Unmarked(rounds, PostOrder(d, []))
    ensures Backed(rounds) == FreshObserved(Shown(rounds), {})
    ensures forall i :: 0 <= i < |PostOrder(d, [])| ==>
      var path := PostOrder(d, [])[i].path;
      path in Completed({}, Emitted(rounds)) <==> path in Completed({}, Backed(rounds))
    decreases |rounds|
  {
    hide *;
    var all := PostOrder(d, []);
    if rounds == [] {
      NothingBacked();
      FreshObservedFirst([], {});
    } else {
      var earlier, changes := rounds[..|rounds| - 1], rounds[|rounds| - 1].changes;
      EarlierGrowing(rounds, t);
      UnmarkedMeans(rounds, all);
      BackedIsShown(t, before, d, earlier);
      ShownStaysComplete(t, before, d, earlier);
      RoundNews(t, before, d, rounds);
      ShownInReply(t, before, d, rounds);
      var made := Emitted(earlier) + changes;
      var had, complete, news := Completed({}, Backed(earlier)), Completed({}, made), News(rounds);
      forall i | 0 <= i < |all| ensures all[i].path in complete <==> all[i].path in had {
        CompletedMore(Emitted(earlier), changes, all[i].path);
      }
      forall k | 0 <= k < |news| ensures news[k].path in complete <==> news[k].path in had {
        assert news[k] == Shown(rounds)[|Shown(earlier)| + k] == all[|Shown(earlier)| + k];
      }
      FreshSame(news, complete, had);
      FreshJoin(Shown(earlier), news, {});
      var found := FreshObserved(news, complete);
      forall i | 0 <= i < |all|
        ensures all[i].path in Completed({}, Emitted(rounds)) <==> all[i].path in Completed({}, Backed(rounds))
      {
        CompletedMore(made, found, all[i].path);
        CompletedMore(Backed(earlier), found, all[i].path);
      }
    }
  }

  /** Each event of a round is one of the stream; what is marked in a round is not backed. */
  lemma {:induction false} MarkedIsNotBacked(rounds: seq<Round>, k: nat, path: string)
    requires k < |rounds| && path in DonePaths(rounds[k].changes) && NoRepeats(DonePaths(Emitted(rounds)))
    ensures path !in DonePaths(Backed(rounds))
    decreases |rounds|
  {
    hide *;
    var earlier, last := rounds[..|rounds| - 1], rounds[|rounds| - 1];
    var made := Emitted(earlier) + last.changes;
    var found := FreshObserved(ObservedValues(last.buffer), Completed({}, made));
    RoundParts(rounds);
    DonePathsJoin(made, found);
    DonePathsJoin(Emitted(earlier), last.changes);
    DonePathsJoin(Backed(earlier), found);
    NoRepeatsJoin(DonePaths(made), DonePaths(found));
    NoRepeatsJoin(DonePaths(Emitted(earlier)), DonePaths(last.changes));
    if k < |earlier| {
      assert earlier[k] == rounds[k];
      MarkedIsNotBacked(earlier, k, path);
      MarkedIsEmitted(earlier, k, path);
    } else {
      BackedIsEmitted(earlier, path);
    }
  }

  lemma NoRepeatsJoin(a: seq<string>, b: seq<string>)
    requires NoRepeats(a + b)
    ensures NoRepeats(a) && NoRepeats(b) && forall x :: x in a ==> x !in b
  {
    forall i, j | 0 <= i < |a| && 0 <= j < |b| ensures a[i] != b[j] {
      assert (a + b)[i] == a[i] && (a + b)[|a| + j] == b[j];
    }
    forall i, j | 0 <= i < j < |a| ensures a[i] != a[j] { assert (a + b)[i] == a[i] && (a + b)[j] == a[j]; }
    forall i, j | 0 <= i < j < |b| ensures b[i] != b[j] {
      assert (a + b)[|a| + i] == b[i] && (a + b)[|a| + j] == b[j];
    }
  }

  lemma {:induction false} MarkedIsEmitted(rounds: seq<Round>, k: nat, path: string)
    requires k < |rounds| && path in DonePaths(rounds[k].changes)
    ensures path in DonePaths(Emitted(rounds))
    decreases |rounds|
  {
    hide *;
    var earlier, last := rounds[..|rounds| - 1], rounds[|rounds| - 1];
    var made := Emitted(earlier) + last.changes;
    RoundParts(rounds);
    DonePathsJoin(made, FreshObserved(ObservedValues(last.buffer), Completed({}, made)));
    DonePathsJoin(Emitted(earlier), last.changes);
    if k < |earlier| {
      assert earlier[k] == rounds[k];
      MarkedIsEmitted(earlier, k, path);
    }
  }

  lemma {:induction false} BackedIsEmitted(rounds: seq<Round>, path: string)
    ensures path in DonePaths(Backed(rounds)) ==> path in DonePaths(Emitted(rounds))
    decreases |rounds|
  {
    hide *;
    if rounds == [] {
      NothingBacked();
    } else {
      var earlier, last := rounds[..|rounds| - 1], rounds[|rounds| - 1];
      var made := Emitted(earlier) + last.changes;
      var found := FreshObserved(ObservedValues(last.buffer), Completed({}, made));
      RoundParts(rounds);
      DonePathsJoin(made, found);
      DonePathsJoin(Emitted(earlier), last.changes);
      DonePathsJoin(Backed(earlier), found);
      BackedIsEmitted(earlier, path);
    }
  }

  lemma WhollyBackedIff(t: string, before: string, d: Doc, rounds: seq<Round>)
    requires ReplyWith(t, before, d) && Growing(rounds, t) && rounds != [] && rounds[|rounds| - 1].buffer == t
    requires NoRepeats(DonePaths(Emitted(rounds)))
    ensures Backed(rounds) == FreshObserved(PostOrder(d, []), {}) <==> Unmarked(rounds, PostOrder(d, []))
  {
    hide *;
    hide NoRepeats;
    var all := PostOrder(d, []);
    ShownInReply(t, before, d, rounds);
    if Unmarked(rounds, all) {
      BackedIsShown(t, before, d, rounds);
    } else {
      var k, i := MarkedSomewhere(rounds, all);
      MarkedIsNotBacked(rounds, k, all[i].path);
      ObservedBecomesComplete(all, {});
      CompletedMeans({}, FreshObserved(all, {}));
      ElementsMean(DonePaths(FreshObserved(all, {})));
      assert all[i].path in DonePaths(FreshObserved(all, {}));
    }
  }

  lemma ElementsMean(s: seq<string>)
    ensures forall x :: x in Streaming.Elements(s) <==> x in s
  {
  }

  lemma MarkedSomewhere(rounds: seq<Round>, observed: seq<Observation>) returns (k: nat, i: nat)
    requires !Unmarked(rounds, observed)
    ensures k < |rounds| && i < |observed| && observed[i].path in DonePaths(rounds[k].changes)
  {
    k, i :| 0 <= k < |rounds| && 0 <= i < |observed| && observed[i].path in DonePaths(rounds[k].changes);
  }

  /** No path twice, and none that is complete. */
  ghost predicate NewPaths(observed: seq<Observation>, complete: set<string>) {
    && (forall i :: 0 <= i < |observed| ==> observed[i].path !in complete)
    && (forall i, j :: 0 <= i < j < |observed| ==> observed[i].path != observed[j].path)
  }

  lemma NewPathsFirst(observed: seq<Observation>, complete: set<string>)
    requires observed != []
    ensures NewPaths(observed, complete) <==>
      observed[0].path !in complete && NewPaths(observed[1..], complete + {observed[0].path})
  {
    var rest := observed[1..];
    assert forall i :: 0 < i < |observed| ==> observed[i] == rest[i - 1];
    if observed[0].path !in complete && NewPaths(rest, complete + {observed[0].path}) {
      forall i, j | 0 <= i < j < |observed| ensures observed[i].path != observed[j].path {
        assert observed[j] == rest[j - 1];
        if i > 0 { assert observed[i] == rest[i - 1]; }
      }
    }
  }

  /** And each place is backed by an event of its own exactly when no two places share a dot path. */
  lemma {:induction false} FreshAllIff(observed: seq<Observation>, complete: set<string>)
    ensures FreshObserved(observed, complete) == EventsOf(observed) <==> NewPaths(observed, complete)
    ensures |FreshObserved(observed, complete)| <= |observed|
    decreases |observed|
  {
    hide NewPaths;
    if observed == [] {
      NoNewPaths(complete);
    } else {
      var o, rest := observed[0], observed[1..];
      NewPathsFirst(observed, complete);
      FreshAllIff(rest, if o.path in complete then complete else complete + {o.path});
      assert EventsOf(observed) == [Done(o.path, o.value, ObservedBoundary)] + EventsOf(rest);
      if o.path !in complete {
        assert FreshObserved(observed, complete)[1..] == FreshObserved(rest, complete + {o.path});
        assert EventsOf(observed)[1..] == EventsOf(rest);
      }
    }
  }

  lemma NoNewPaths(complete: set<string>)
    ensures NewPaths([], complete)
  {
  }

  // Whole streams.

  function Dones(events: seq<Event>): seq<Event> {
    if events == [] then [] else (if events[0].Done? then [events[0]] else []) + Dones(events[1..])
  }

  lemma {:induction false} DonesJoin(a: seq<Event>, b: seq<Event>)
    ensures Dones(a + b) == Dones(a) + Dones(b)
    decreases |a|
  {
    if a == [] {
      assert a + b == b;
    } else {
      assert (a + b)[0] == a[0] && (a + b)[1..] == a[1..] + b;
      DonesJoin(a[1..], b);
    }
  }

  lemma {:induction false} DonesOfDones(events: seq<Event>)
    requires forall e :: e in events ==> e.Done?
    ensures Dones(events) == events
    decreases |events|
  {
    if events != [] { DonesOfDones(events[1..]); }
  }

  lemma {:induction false} NoDonePaths(events: seq<Event>)
    requires DonePaths(events) == []
    ensures Dones(events) == []
    decreases |events|
  {
    if events != [] { NoDonePaths(events[1..]); }
  }

  lemma {:induction false} SilentDones(rounds: seq<Round>)
    requires Silent(rounds)
    ensures Dones(Emitted(rounds)) == Backed(rounds)
    decreases |rounds|
  {
    hide *;
    if rounds == [] {
      NothingBacked();
      NoDonePaths([]) by { NoneEmitted(); }
    } else {
      var earlier, last := rounds[..|rounds| - 1], rounds[|rounds| - 1];
      var made := Emitted(earlier) + last.changes;
      var observed := ObservedValues(last.buffer);
      RoundParts(rounds);
      SilentMeans(rounds);
      SilentDones(earlier);
      DonesJoin(made, FreshObserved(observed, Completed({}, made)));
      DonesJoin(Emitted(earlier), last.changes);
      NoDonePaths(last.changes);
      ObservedBecomesComplete(observed, Completed({}, made));
      DonesOfDones(FreshObserved(observed, Completed({}, made)));
    }
  }

  lemma SilentMeans(rounds: seq<Round>)
    requires Silent(rounds) && rounds != []
    ensures Silent(rounds[..|rounds| - 1]) && DonePaths(rounds[|rounds| - 1].changes) == []
  {
    var earlier := rounds[..|rounds| - 1];
    forall k | 0 <= k < |earlier| ensures earlier[k] == rounds[k] {}
  }

  lemma SilentIsUnmarked(rounds: seq<Round>, observed: seq<Observation>)
    requires Silent(rounds)
    ensures Unmarked(rounds, observed)
  {
  }

  lemma SilentDocument(t: string, before: string, d: Doc, rounds: seq<Round>, source: Source)
    requires ReplyWith(t, before, d) && DistinctKeys(d)
    requires Growing(rounds, t) && rounds != [] && rounds[|rounds| - 1].buffer == t && Silent(rounds)
    ensures var emitted := Emitted(rounds);
      Dones(emitted + DonesOf(ValueIn(d), [], Completed({}, emitted), source)) == FreshObserved(PostOrder(d, []), {})
  {
    hide *;
    var emitted, all := Emitted(rounds), PostOrder(d, []);
    SilentIsUnmarked(rounds, all);
    BackedIsShown(t, before, d, rounds);
    ShownInReply(t, before, d, rounds);
    SilentDones(rounds);
    ShownStaysComplete(t, before, d, rounds);
    ShownCompleteMeans(rounds);
    ObservedOnlyGrows(t, before, d, t);
    ObservedCoversValue(t, before, d, Completed({}, emitted));
    ValueIsDictionaries(d);
    NothingToMark(ValueIn(d), [], Completed({}, emitted), source);
    assert emitted + [] == emitted;
  }

  // The rounds that chunks make.

  /** The rounds of the chunks on a new parser. */
  ghost predicate Run(p: StreamingJSONParser, chunks: seq<string>, rounds: seq<Round>) {
    p.RunOf(false, "", chunks, rounds)
  }

  lemma RunMeans(p: StreamingJSONParser, chunks: seq<string>, rounds: seq<Round>)
    requires Run(p, chunks, rounds)
    ensures rounds != [] && rounds[|rounds| - 1] == Round(p.Waiting(false, "", chunks), Concat(chunks))
    ensures Buffers(rounds[..|rounds| - 1]) == p.Read("", chunks) && p.Compares(Obj([]), rounds[..|rounds| - 1])
  {
    hide p.Compares, p.Read, p.Waiting;
    assert "" + Concat(chunks) == Concat(chunks);
  }

  lemma {:induction false} ReadGrows(p: StreamingJSONParser, buffer: string, chunks: seq<string>)
    ensures var r := p.Read(buffer, chunks);
      && (forall i :: 0 <= i < |r| ==> buffer <= r[i] <= buffer + Concat(chunks))
      && (forall i, j :: 0 <= i < j < |r| ==> r[i] <= r[j])
    decreases |chunks|
  {
    hide *;
    p.ReadFirst(buffer, chunks);
    ConcatFirst(chunks);
    if chunks != [] {
      var longer := buffer + chunks[0];
      ReadGrows(p, longer, chunks[1..]);
      assert longer + Concat(chunks[1..]) == buffer + Concat(chunks);
    }
  }

  lemma {:induction false} GrowingBy(rounds: seq<Round>, t: string)
    requires forall i :: 0 <= i < |rounds| ==> rounds[i].buffer <= t
    requires forall i, j :: 0 <= i < j < |rounds| ==> rounds[i].buffer <= rounds[j].buffer
    ensures Growing(rounds, t)
    decreases |rounds|
  {
    if rounds != [] { GrowingBy(rounds[..|rounds| - 1], rounds[|rounds| - 1].buffer); }
  }

  lemma GrowingBefore(rounds: seq<Round>, read: seq<string>, t: string)
    requires rounds != [] && rounds[|rounds| - 1].buffer == t && Buffers(rounds[..|rounds| - 1]) == read
    requires forall i :: 0 <= i < |read| ==> read[i] <= t
    requires forall i, j :: 0 <= i < j < |read| ==> read[i] <= read[j]
    ensures Growing(rounds, t)
  {
    hide *;
    var earlier := rounds[..|rounds| - 1];
    forall i | 0 <= i < |earlier| ensures rounds[i].buffer == read[i] { assert Buffers(earlier)[i] == read[i]; }
    GrowingBy(rounds, t);
  }

  lemma RunGrows(p: StreamingJSONParser, chunks: seq<string>, rounds: seq<Round>)
    requires Run(p, chunks, rounds)
    ensures Growing(rounds, Concat(chunks)) && rounds != [] && rounds[|rounds| - 1].buffer == Concat(chunks)
  {
    hide *;
    RunMeans(p, chunks, rounds);
    ReadGrows(p, "", chunks);
    var earlier, read := rounds[..|rounds| - 1], p.Read("", chunks);
    assert "" + Concat(chunks) == Concat(chunks);
    GrowingBefore(rounds, read, Concat(chunks));
  }

  /**
    Whatever the heuristic does, and however the reply is cut: the events the raw text backs come in the
    order of the document, each at most once for its place and with its final value.
   */
  lemma BackedInOrder(p: StreamingJSONParser, chunks: seq<string>, rounds: seq<Round>, before: string, d: Doc)
    requires Run(p, chunks, rounds) && ReplyWith(Concat(chunks), before, d)
    ensures Subsequence(Backed(rounds), EventsOf(PostOrder(d, [])))
  {
    hide *;
    RunGrows(p, chunks, rounds);
    BackedInDocument(Concat(chunks), before, d, rounds);
  }

  /**
    On a whole reply the raw text backs every place that it would back if the reply came in one piece,
    exactly when the heuristic marked no such place in a comparison before.
   */
  lemma BackedWhollyIff(p: StreamingJSONParser, chunks: seq<string>, rounds: seq<Round>, before: string, d: Doc,
                        events: seq<Event>, complete: set<string>)
    requires Run(p, chunks, rounds) && ReplyWith(Concat(chunks), before, d)
    requires Emitted(rounds) <= events && FreshDones(events, {}, complete)
    ensures Backed(rounds) == FreshObserved(PostOrder(d, []), {}) <==> Unmarked(rounds, PostOrder(d, []))
  {
    hide *;
    RunGrows(p, chunks, rounds);
    FreshPart(Emitted(rounds), events, complete);
    WhollyBackedIff(Concat(chunks), before, d, rounds);
  }

  lemma FreshPart(part: seq<Event>, events: seq<Event>, complete: set<string>)
    requires part <= events && FreshDones(events, {}, complete)
    ensures NoRepeats(DonePaths(part)) && "" !in DonePaths(part)
  {
    var rest := events[|part|..];
    assert events == part + rest;
    DonePathsJoin(part, rest);
    NoRepeatsJoin(DonePaths(part), DonePaths(rest));
  }

  // When the heuristic has nothing to mark.

  /** A boundary with this path is observed in one of the buffers. */
  ghost predicate SeenIn(buffers: seq<string>, path: string) {
    exists k :: 0 <= k < |buffers| && exists o :: o in ObservedValues(buffers[k]) && o.path == path
  }

  /** What two values share at places with the same path was observed in one of the buffers. */
  ghost predicate SharedIsSeen(newer: Value, older: Value, buffers: seq<string>) {
    forall path, value ::
      path != "" && value != NULL && StandsIn(newer, [], path, value) && StandsIn(older, [], path, value) ==>
        SeenIn(buffers, path)
  }

  /** No value stands still from one reading to the next unless its boundary was observed before. */
  ghost predicate Settled(p: StreamingJSONParser, value: Value, buffers: seq<string>) {
    buffers == [] ||
    var earlier, last := buffers[..|buffers| - 1], buffers[|buffers| - 1];
    && Settled(p, value, earlier)
    && (p.Readable(last).Some? ==> SharedIsSeen(p.Readable(last).value, p.ReadLast(value, earlier), earlier))
  }

  /** A reply that is read in one piece is settled. */
  lemma OneReadingIsSettled(p: StreamingJSONParser, buffer: string)
    ensures Settled(p, Obj([]), [buffer])
  {
    assert [buffer][..0] == [];
    assert DotPath([]) == "";
    hide DotPath;
  }

  /** What the buffers of some rounds show is complete after them. */
  lemma {:induction false} SeenIsComplete(rounds: seq<Round>, path: string)
    requires SeenIn(Buffers(rounds), path)
    ensures path in DonePaths(Emitted(rounds))
    decreases |rounds|
  {
    hide *;
    hide SeenIn;
    SeenMeans(rounds, path);
    var earlier, last := rounds[..|rounds| - 1], rounds[|rounds| - 1];
    var made := Emitted(earlier) + last.changes;
    var found := FreshObserved(ObservedValues(last.buffer), Completed({}, made));
    RoundParts(rounds);
    ObservedBecomesComplete(ObservedValues(last.buffer), Completed({}, made));
    CompletedJoin(made, found);
    CompletedMeans({}, Emitted(rounds));
    ElementsMean(DonePaths(Emitted(rounds)));
    if SeenIn(Buffers(earlier), path) {
      SeenIsComplete(earlier, path);
      DonePathsJoin(Emitted(earlier), last.changes);
      DonePathsJoin(made, found);
    }
  }

  lemma SeenMeans(rounds: seq<Round>, path: string)
    requires SeenIn(Buffers(rounds), path)
    ensures rounds != []
    ensures var now := ObservedValues(rounds[|rounds| - 1].buffer);
      SeenIn(Buffers(rounds[..|rounds| - 1]), path) || exists k :: 0 <= k < |now| && now[k].path == path
  {
    hide ObservedValues;
    var k :| 0 <= k < |rounds| && exists o :: o in ObservedValues(Buffers(rounds)[k]) && o.path == path;
    var o :| o in ObservedValues(Buffers(rounds)[k]) && o.path == path;
    if k < |rounds| - 1 {
      var earlier := Buffers(rounds[..|rounds| - 1]);
      assert earlier[k] == Buffers(rounds)[k];
      assert SeenIn(earlier, path);
    }
  }

  /** So the heuristic stays silent in the comparisons of such buffers. */
  lemma {:induction false} SettledIsSilent(p: StreamingJSONParser, rounds: seq<Round>)
    requires p.Compares(Obj([]), rounds) && Settled(p, Obj([]), Buffers(rounds))
    requires NoRepeats(DonePaths(Emitted(rounds))) && "" !in DonePaths(Emitted(rounds))
    ensures Silent(rounds)
    decreases |rounds|
  {
    hide *;
    hide NoRepeats, SeenIn;
    if rounds == [] {
      NoneSilent();
    } else {
      var earlier, last := rounds[..|rounds| - 1], rounds[|rounds| - 1];
      var made := Emitted(earlier) + last.changes;
      RoundParts(rounds);
      DonePathsJoin(made, FreshObserved(ObservedValues(last.buffer), Completed({}, made)));
      DonePathsJoin(Emitted(earlier), last.changes);
      NoRepeatsJoin(DonePaths(made), DonePaths(FreshObserved(ObservedValues(last.buffer), Completed({}, made))));
      NoRepeatsJoin(DonePaths(Emitted(earlier)), DonePaths(last.changes));
      SettledParts(p, rounds);
      SettledIsSilent(p, earlier);
      if DonePaths(last.changes) != [] {
        var e := DoneEvent(last.changes);
        SharedMark(p, rounds, e);
        SeenIsComplete(earlier, e.path);
        assert false;
      }
      SilentMore(rounds);
    }
  }

  lemma NoneSilent()
    ensures Silent([])
  {
  }

  lemma SilentMore(rounds: seq<Round>)
    requires rounds != [] && Silent(rounds[..|rounds| - 1]) && DonePaths(rounds[|rounds| - 1].changes) == []
    ensures Silent(rounds)
  {
    var earlier := rounds[..|rounds| - 1];
    forall k | 0 <= k < |rounds| ensures DonePaths(rounds[k].changes) == [] {
      if k < |earlier| { assert earlier[k] == rounds[k]; }
    }
  }

  lemma {:induction false} DoneEvent(events: seq<Event>) returns (e: Event)
    requires DonePaths(events) != []
    ensures e in events && e.Done? && e.path in DonePaths(events)
  {
    if events[0].Done? {
      e := events[0];
      assert DonePaths(events)[0] == e.path;
    } else {
      e := DoneEvent(events[1..]);
    }
  }

  lemma SettledParts(p: StreamingJSONParser, rounds: seq<Round>)
    requires rounds != [] && p.Compares(Obj([]), rounds) && Settled(p, Obj([]), Buffers(rounds))
    ensures var earlier := rounds[..|rounds| - 1];
      p.Compares(Obj([]), earlier) && Settled(p, Obj([]), Buffers(earlier))
  {
    assert Buffers(rounds)[..|rounds| - 1] == Buffers(rounds[..|rounds| - 1]);
    hide SharedIsSeen, p.Readable, Comparison;
  }

  /** A mark of the last round shows a value that both readings share, so that its boundary was observed before. */
  lemma SharedMark(p: StreamingJSONParser, rounds: seq<Round>, e: Event)
    requires rounds != [] && p.Compares(Obj([]), rounds) && Settled(p, Obj([]), Buffers(rounds))
    requires e in rounds[|rounds| - 1].changes && e.Done? && e.path != ""
    ensures SeenIn(Buffers(rounds[..|rounds| - 1]), e.path)
  {
    hide p.Readable, StandsIn, SeenIn, DeltasOf, p.ReadLast;
    assert Buffers(rounds)[..|rounds| - 1] == Buffers(rounds[..|rounds| - 1]);
    assert p.Readable(rounds[|rounds| - 1].buffer).Some?;
  }

  lemma {:induction false} WaitingIsSilent(p: StreamingJSONParser, deferred: bool, buffer: string, chunks: seq<string>)
    ensures DonePaths(p.Waiting(deferred, buffer, chunks)) == []
    decreases |chunks|
  {
    hide *;
    p.WaitingFirst(deferred, buffer, chunks);
    NoneEmitted();
    if chunks != [] {
      var longer := buffer + chunks[0];
      WaitingIsSilent(p, deferred || p.Defers(longer), longer, chunks[1..]);
      var status := Status(|longer|, p.maxIncompleteParseChars);
      OneStatus(status);
      DonePathsJoin([status], p.Waiting(deferred || p.Defers(longer), longer, chunks[1..]));
      DonePathsJoin([], p.Waiting(deferred || p.Defers(longer), longer, chunks[1..]));
    }
  }

  /** The rounds of settled chunks are silent. */
  lemma SettledRun(p: StreamingJSONParser, chunks: seq<string>, rounds: seq<Round>, events: seq<Event>,
                   complete: set<string>)
    requires Run(p, chunks, rounds) && Settled(p, Obj([]), p.Read("", chunks))
    requires Emitted(rounds) <= events && FreshDones(events, {}, complete)
    ensures Silent(rounds)
  {
    hide *;
    RunMeans(p, chunks, rounds);
    var earlier, last := rounds[..|rounds| - 1], rounds[|rounds| - 1];
    RoundParts(rounds);
    assert Emitted(earlier) <= Emitted(rounds) <= events;
    FreshPart(Emitted(earlier), events, complete);
    SettledIsSilent(p, earlier);
    WaitingIsSilent(p, false, "", chunks);
    SilentMore(rounds);
  }

  // The value that is read at the end.

  lemma {:induction false} LastIsRead(p: StreamingJSONParser, buffer: string, chunks: seq<string>)
    requires chunks != [] && !p.Defers(buffer + Concat(chunks))
    ensures var r := p.Read(buffer, chunks); r != [] && r[|r| - 1] == buffer + Concat(chunks)
    decreases |chunks|
  {
    hide *;
    p.ReadFirst(buffer, chunks);
    ConcatFirst(chunks);
    var longer := buffer + chunks[0];
    assert longer + Concat(chunks[1..]) == buffer + Concat(chunks);
    if chunks[1..] == [] {
      ConcatFirst(chunks[1..]);
      p.ReadFirst(longer, chunks[1..]);
      assert longer + "" == longer;
    } else {
      LastIsRead(p, longer, chunks[1..]);
    }
  }

  /** At the end the whole buffer has been or is read: it closes, or was not deferred, or nothing was read before. */
  predicate ReadAtEnd(p: StreamingJSONParser, chunks: seq<string>) {
    Provenance.LooksComplete(Concat(chunks)) || !p.Defers(Concat(chunks)) || p.Read("", chunks) == []
  }

  /** Such a reply, if it can be read, leaves the value it decodes to. */
  lemma FinalValue(p: StreamingJSONParser, chunks: seq<string>)
    requires Concat(chunks) != "" && p.Readable(Concat(chunks)).Some? && ReadAtEnd(p, chunks)
    ensures p.Reread(p.ReadLast(Obj([]), p.Read("", chunks)), Concat(chunks)) == p.Readable(Concat(chunks)).value
  {
    hide *;
    hide ReadAtEnd;
    EndMeans(p, chunks);
    var t, read := Concat(chunks), p.Read("", chunks);
    p.RereadMeans(p.ReadLast(Obj([]), read), t);
    if !Provenance.LooksComplete(t) && read == [] {
      NothingRead(p);
    } else if !Provenance.LooksComplete(t) {
      ConcatFirst(chunks);
      assert "" + t == t;
      LastIsRead(p, "", chunks);
      LastReading(p, Obj([]), read);
    }
  }

  lemma EndMeans(p: StreamingJSONParser, chunks: seq<string>)
    ensures ReadAtEnd(p, chunks) <==>
      Provenance.LooksComplete(Concat(chunks)) || !p.Defers(Concat(chunks)) || p.Read("", chunks) == []
  {
  }

  /** With nothing read the value is the empty object, which counts as none. */
  lemma NothingRead(p: StreamingJSONParser)
    ensures p.ReadLast(Obj([]), []) == Obj([]) && p.Falsy(Obj([]))
  {
  }

  lemma LastReading(p: StreamingJSONParser, value: Value, buffers: seq<string>)
    requires buffers != [] && p.Readable(buffers[|buffers| - 1]).Some?
    ensures p.ReadLast(value, buffers) == p.Readable(buffers[|buffers| - 1]).value
  {
  }

  lemma ReplyIsThere(t: string, before: string, d: Doc)
    requires ReplyWith(t, before, d)
    ensures t != ""
  {
  }

  /**
    Cutting makes no difference: for a reply that decodes to its document, and chunks through which no value
    stands still before its boundary is observed, the done events of the whole stream are those of the
    document, in its order. They depend on the document alone.
   */
  lemma CuttingMakesNoDifference(p: StreamingJSONParser, chunks: seq<string>, rounds: seq<Round>, before: string,
                                 d: Doc, value: Value, events: seq<Event>, complete: set<string>)
    requires ReplyWith(Concat(chunks), before, d) && DistinctKeys(d)
    requires p.Readable(Concat(chunks)) == Some(ValueIn(d))
    requires ReadAtEnd(p, chunks)
    requires Settled(p, Obj([]), p.Read("", chunks))
    requires Run(p, chunks, rounds) && FreshDones(events, {}, complete)
    requires value == p.Reread(p.ReadLast(Obj([]), p.Read("", chunks)), Concat(chunks))
    requires events
      == Emitted(rounds) + DonesOf(value, [], Completed({}, Emitted(rounds)), p.Label(None, Concat(chunks)))
    ensures Dones(events) == FreshObserved(PostOrder(d, []), {})
  {
    hide *;
    hide ReadAtEnd;
    ReplyIsThere(Concat(chunks), before, d);
    FinalValue(p, chunks);
    RunGrows(p, chunks, rounds);
    SettledRun(p, chunks, rounds, events, complete);
    SilentDocument(Concat(chunks), before, d, rounds, p.Label(None, Concat(chunks)));
  }
}
