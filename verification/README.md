# Verification of the streaming structured-output stack

A Dafny model of the parts of `agently/utils` that turn model text, chunk by chunk, into structured values
and events: completion and repair of partial JSON, location of JSON in text, detection of closed values, the
streaming parser, path texts, the layered state store, broadcast with replay, key failover and rate limiting.
`dafny verify dfyconfig.toml` checks everything.

Loops and objects that are updated step by step are methods and classes here. Each is proved against a
function on values, and what the source promises is proved about that function, for all inputs or all runs.

| files | about |
|---|---|
| `Chars`, `Texts`, `Tokens`, `Documents`, `Json`, `StringBodies`, `Numerals` | character classes, JSON tokens, JSON documents with their whitespace (sections 4 to 7 of RFC 8259) and their rendering, values and paths; what strings and numbers spell |
| `Completer`, `Provenance`, `ProvenanceExact`, `WholeReplies` | closing a partial buffer; the independent scanner that decides whether the raw buffer is complete; exactly when the two agree, and what both do on a whole reply |
| `FinalProvenance` | exactly when what `finalize` labels as reconciled comes from the raw text |
| `Repair`, `RepairWidening`, `RepairLoose` | the repair automaton for full-width and curly punctuation |
| `Observed`, `ObservedDocs`, `ObservedClosed`, `ObservedPlaces`, `ObservedExact`, `ObservedPaths` | the bounded recursive descent that reports closed values |
| `Locator`, `LocatedBreaks`, `BlockChoice`, `CompletedIsLocated` | the two root scanners, what they rewrite and drop, the choice between blocks, and their composition with the completer |
| `Streaming`, `StreamingDeltas`, `StreamingLeaves`, `StreamingMarks`, `StreamingEnd`, `StreamingReplies`, `LargeReplies` | the parser object, its done events, its delta events, the end of a complete reply, and whole replies however they are cut into chunks |
| `Paths`, `SlashPaths`, `PathLookup`, `DotLookup` | dot paths, slash paths, lookup of both |
| `StateValues`, `StateUpdates` | merge, inherited view and dotted paths on values; exactly when an update is idempotent |
| `StateStore`, `StateWrites`, `StatePlaces`, `LayeredState` | the same on heap objects that are updated in place |
| `Broadcast` | one source, many subscribers that may join late |
| `KeyPool`, `KeyFailover`, `TokenBucket`, `Residues` | key selection, failover, rate |

## Where the code does not do what one would expect

The lemma named with each point gives the exact condition, or an input that shows it.

- A buffer that ends right after an unpaired backslash is not closed by `complete`: the quote it appends is
  escaped (`CompletedIsClosed`, `CompletedIdempotent`, `CompletedPrefixIsLocated` are equivalences).
- `repair_json_fragment` takes a curly or full-width quote inside a string for the closing one when a fitting
  character follows (`RepairUndoesWideningIff`).
- `_looks_structurally_complete` and the completer part ways on text before the first bracket that does not end
  the completer's scan as it began, such as an apostrophe (`NeutralStartIff` is exact), and on a comment mark
  followed by a character that it forms another mark with: `/*/`, `*//` and `*/*` (`ReadAlikeIff` is exact, mark
  by mark; `UnalikeIsDishonest` builds the failing continuation). Marks inside strings and line comments, and all
  other block comments, are read alike.
- Delta events that follow a text which did not extend the one before can never be put together to the current
  text again (`DeltasRebuild`).
- When `close` comes before the first subscriber of a plain generator, a later `get_result` still starts the
  source, so two answers of `get_result` can differ (`ResultIsFinalIff`, `LateRunIsReachable`).
- `finalize` ignores whether the buffer could be read once more. When the raw text closes but does not decode, the
  value that was read before, from a text the completer had closed itself, stays and its places are labelled
  `final_reconciliation`, although docs/en/requests/model-response.md:159-160 keeps that label for raw JSON that
  closed itself: after the chunks `["x` and `"!]` the item `x` gets it (`UndecodedReply`). `FinalValueIff` and
  `FinalLabelIff` are exact: value and label are those of the raw text if and only if the buffer can be read.
- Merging three levels gives different results in the two orders exactly when a dictionary or a list of the lowest
  one hides a value of another kind (`MergeAssociativeIff`). Along a chain, the inherited view is the local data
  over the parent's view, whatever the last level holds, exactly when no container of the local data hides a value
  of another kind in the view of the levels between (`ViewIsLocalOverParentIff`).
- `update` with a dotted key that extends another one is not idempotent. In one order of the keys the second
  update can raise (`OverlappingKeysBreakUpdate`); in the other it changes the result without raising: on an empty
  state `{"a": {"b": 5}, "a.b": [2]}` gives `[2]` after one update and `[2, 5]` after two. `UpdateIdempotentIff`
  is exact for the keys of any mapping, and `ClashChanges` gives failing values, without a raise in the first update, for
  every set that does not meet its condition.
- A done event whose path the stability heuristic marked first is never backed by the raw text later
  (`BackedWhollyIff`): what a stream reports as observed depends on the cutting exactly through that heuristic.
- The dot style of the path lookup takes one pair of brackets after a name: the path `a[0][1]`, as
  `build_dot_path` writes it, finds nothing. For a present place the lookup finds it if and only if no two keys in a
  row are indices (`DotPathLookupIff`); converted to slashes, every such path is found (`ConvertedLookup`).
- `convert_dot_to_slash` does not end on a text with an opening bracket that is never closed: `find` answers -1
  and the loop starts again at index 0 (`ConversionEndsIff`). `ConvertDotToSlash` therefore asks for closed
  brackets.

Two descriptions in the source say less or more than its code does. The docstring of `_observed_complete_values`
speaks of values whose closing token is present; words such as `true` have none and are accepted at the very end
of the text, as strings are, while numbers there are not (agently/utils/StreamingJSONParser.py:164-170 and
254-272). And done events of the stability heuristic carry the label `observed_boundary`, like those of closed
values (agently/utils/StreamingJSONParser.py:528-656 and 284-300).

## Model

| member | source | states |
|---|---|---|
| Completer.StreamingJSONCompleter.Append | agently/utils/StreamingJSONCompleter.py:30-32 | the buffer grows by exactly the chunk |
| Completer.StreamingJSONCompleter.Complete | agently/utils/StreamingJSONCompleter.py:34-132 | the loop over stack, string, escape and comment flags computes the completed text of the buffer, with its early return at a root closer |
| Completer.ReversedClosers | agently/utils/StreamingJSONCompleter.py:125-130 | the appended closers are those of the open brackets, innermost first |
| Completer.Completed | agently/utils/StreamingJSONCompleter.py:34-132 | the result is a prefix of the buffer when a root was closed and an extension of it otherwise |
| Completer.CompletedIsClosed | agently/utils/StreamingJSONCompleter.py:56-132 | rescanning the completed text ends outside strings and comments with nothing open, or at the root closer that is its last character, if and only if the buffer does not end on a pending escape; one-character lookahead at the seam included |
| Completer.CompletedIdempotent | agently/utils/StreamingJSONCompleter.py:56-132 | completing twice equals completing once, if and only if the buffer does not end on a pending escape |
| Completer.CompletedIsStable | agently/utils/StreamingJSONCompleter.py:85-91 | once a root closer has been seen, no further append changes the result |
| Completer.ScanSeam | agently/utils/StreamingJSONCompleter.py:49-105 | the scan of a text goes on from the state it ended in when more is appended, as long as the appended text cannot pair with the last character |
| Provenance.LooksStructurallyComplete | agently/utils/StreamingJSONParser.py:74-122 | the raw scanner's loop computes the predicate the lemmas below are about |
| Provenance.Lockstep | agently/utils/StreamingJSONParser.py:88-121 | from any stack and any state, block comments included, the raw scanner and the completer's scan find the same root closer, or none, as long as each comment mark of the scan is read alike |
| Provenance.LooksCompleteIffCompleterStops | agently/utils/StreamingJSONParser.py:74-122 | for a neutral preamble and comment marks read alike, the raw scanner answers yes if and only if the completer stops at a root closer, ignored no bracket, and only a fence follows |
| Provenance.ReconciledTextIsRaw | agently/utils/StreamingJSONParser.py:146-153 | for such a buffer judged complete, the text that is located and decoded is raw: the completer returns the buffer up to that root closer; what comes of it in `finalize` is the matter of FinalProvenance |
| Provenance.ReconciledTextIsRawPlain | agently/utils/StreamingJSONParser.py:146-153 | the same for every buffer without a slash and without a quote before the first bracket |
| WholeReplies.WholeReply | agently/utils/StreamingJSONParser.py:74-122 | a document with an object or array root behind plain text: its last character is the root closer, completing stops there, and the reply looks complete if and only if nothing but spaces and an optional code fence follows |
| WholeReplies.NeverEarly | agently/utils/StreamingJSONParser.py:74-122 | no proper prefix of the text up to that closer looks complete |
| WholeReplies.StrayCloserEnds | agently/utils/StreamingJSONParser.py:111-114 | a closing bracket before any opening one ends the scan with the answer no |
| ProvenanceExact.NeutralStartIff | agently/utils/StreamingJSONParser.py:106-110 | for any text that the raw scanner leaves waiting for a bracket, provenance holds for everything that may follow and is read alike, if and only if the completer's scan of that text ends as it began |
| ProvenanceExact.ReadAlikeIff | agently/utils/StreamingJSONParser.py:82-99 | at any two-character comment mark both scanners reach in lockstep, provenance holds for every text that shares it and the character behind it and is read alike from there on, if and only if the mark is read alike |
| ProvenanceExact.UnalikeIsDishonest | agently/utils/StreamingJSONParser.py:82-99 | a mark that is not read alike has a continuation, read alike from there on, which is judged complete although the completer extends it |
| ProvenanceExact.ApostropheBreaksProvenance | agently/utils/StreamingJSONParser.py:106-110 | an apostrophe before the bracket makes the buffer look complete although the completer extends it |
| ProvenanceExact.BlockCommentBreaksProvenance | agently/utils/StreamingJSONParser.py:85-90 | the star that opens a block comment also closes it for the raw scanner, not for the completer, with the same effect |
| FinalProvenance.FinalValueIff | agently/utils/StreamingJSONParser.py:730-740 | for a neutral, aligned buffer that closes and any value before: what `finalize` leaves is what the raw text up to its root closer decodes to, if and only if the buffer can be read; otherwise it is the value before, unchanged |
| FinalProvenance.FinalLabelIff | agently/utils/StreamingJSONParser.py:730-802 | for a neutral, aligned buffer: every event of `finalize` labelled `final_reconciliation` shows a place of what the raw text decodes to, whatever the value and the complete paths before, if and only if a buffer that closes can be read |
| FinalProvenance.UndecodedReply | agently/utils/StreamingJSONParser.py:730-740 | a reply in two chunks, closed but not decodable, whose item read from completed text is labelled as reconciled |
| Repair.TakeTurn | agently/utils/DataLocator.py:381-543 | every turn keeps one root at the bottom of the context stack, never lets a root wait for a comma, and only a turn that leaves a primitive does not advance |
| Repair.Repaired | agently/utils/DataLocator.py:369-545 | repair preserves length, and each character is the input's or the ASCII form of its kind |
| Repair.RewritesSeeKinds | agently/utils/DataLocator.py:401-545 | texts whose characters agree in kind are rewritten at the same places |
| Repair.RepairedIdempotent | agently/utils/DataLocator.py:369-545 | repairing twice equals repairing once, on every text |
| Repair.RepairedIsIdentityOnAscii | agently/utils/DataLocator.py:369-545 | a text in ASCII forms is unchanged |
| Repair.NextNonWhitespaceChar | agently/utils/DataLocator.py:347-351 | the next visible character, or none |
| Repair.StepInString | agently/utils/DataLocator.py:405-433 | the string branch is the automaton's turn |
| Repair.StepInPrimitive | agently/utils/DataLocator.py:435-462 | the primitive branch is the automaton's turn, the one that does not consume its character included |
| Repair.StepPlain | agently/utils/DataLocator.py:464-543 | the structural branch is the automaton's turn |
| Repair.RepairJsonFragment | agently/utils/DataLocator.py:369-545 | the loop ends, and computes the repaired text |
| RepairWidening.RepairUndoesWidening | agently/utils/DataLocator.py:354-366 | for every JSON document, with any whitespace around and inside, whose strings hold no quote that could close them, and anything behind an object or array root: replacing any subset of its punctuation and string delimiters by forms from the list of wide forms is undone exactly |
| RepairWidening.RepairUndoesWideningIff | agently/utils/DataLocator.py:360-366 | every such widening of a rendering is undone if and only if no wide quote inside a string is followed by a character that would let it close |
| RepairWidening.OnlyWideFormsChange | agently/utils/DataLocator.py:372-379 | on every text, repair changes nothing but characters of the list of wide forms, each into the form listed with it |
| RepairWidening.RepairSpoilsUnsafe | agently/utils/DataLocator.py:418-429 | otherwise repair already changes the unwidened rendering |
| RepairLoose.RepairKeepsLooseObjects | agently/utils/DataLocator.py:369-545 | the same for objects whose keys and values are in double or single quotes or bare words: what stands in quotes or words is kept, wide forms of the structure become ASCII |
| Observed.ObserveScalar | agently/utils/StreamingJSONParser.py:254-272 | strings and words flush against the end of the text are accepted, numbers there are not; other leaves need a delimiter |
| Observed.ObserveValue | agently/utils/StreamingJSONParser.py:184-272 | the descent over shared cursor and list computes the parse the lemmas are about, and only appends to the list |
| Observed.ObserveMembers | agently/utils/StreamingJSONParser.py:197-224 | the object loop: each closed member is stored, in order, under its decoded key |
| Observed.ObserveItems | agently/utils/StreamingJSONParser.py:233-253 | the array loop: each closed item is stored under its index |
| Observed.ObservedCompleteValues | agently/utils/StreamingJSONParser.py:163-282 | the list returned for a text |
| Observed.ObservedHavePaths | agently/utils/StreamingJSONParser.py:193-195 | the root is never reported |
| StringBodies.ContentIsDecoded | agently/utils/StreamingJSONParser.py:199 | every string body is a list of pieces (plain characters, the eight short escapes, code units, surrogate pairs), and it is decoded to the text of its pieces, given by a table of code points and by positional hex |
| StringBodies.WrittenIsDecoded | agently/utils/StreamingJSONParser.py:255 | every list of pieces is a string body when written, and decodes to their text |
| Numerals.LexemeIff | agently/utils/StreamingJSONParser.py:255 | the numbers the decoder reads are exactly the spelled numerals of RFC 8259, section 6, and its three constants |
| Numerals.NumeralRead | agently/utils/StreamingJSONParser.py:255 | where a numeral stands, the decoder reads at least that far, and exactly that far at the end of the text |
| Numerals.ReadIsNumeral | agently/utils/StreamingJSONParser.py:255 | what the decoder reads as a number is a numeral |
| Chars.SpacesAreInTable | agently/utils/StreamingJSONParser.py:177-180 | what is skipped between tokens is a fixed table of code points, the four JSON spaces among them |
| ObservedDocs.ObservedOnPrefix | agently/utils/StreamingJSONParser.py:163-282 | for every document with an object or array root, any whitespace, any text without brackets before it and any text after it: on every prefix the observed list is a prefix of the post-order list of paths and subvalues, and the whole list as soon as the document is there |
| ObservedDocs.ObservedOnlyGrows | agently/utils/StreamingJSONParser.py:163-282 | so what is observed on a prefix of a reply is a prefix of what is observed on the reply: nothing early, nothing that changes |
| ObservedPlaces.ObservedIsPlaced | agently/utils/StreamingJSONParser.py:163-282 | on any text whatever, each observed value is that of a valid JSON document that stands complete in it, followed by a delimiter where one is needed, behind the first bracket and containers that stand open there, and its path is made of the keys and indices at which these are open |
| ObservedExact.ObservedIff | agently/utils/StreamingJSONParser.py:163-282 | and the converse: on any text, a value is observed under a path if and only if it stands so |
| ObservedClosed.ValueRendered | agently/utils/StreamingJSONParser.py:184-272 | whatever the descent accepts at a position is a rendered document there, of that value and length |
| ObservedPaths.ObservedAreThePaths | agently/utils/StreamingJSONParser.py:163-282 | with distinct keys, a pair is observed if and only if it is the dot path of a place in the final value other than the root, with the subvalue found there |
| Locator.TurnInBlock | agently/utils/DataLocator.py:214-256 | the loop body both scans share: escapes, quotes, brackets, and the characters dropped or rewritten |
| Locator.LocateDirectRootJson | agently/utils/DataLocator.py:205-256 | the direct scan's loop returns the block that starts at the first visible character |
| Locator.LocateAllJson | agently/utils/DataLocator.py:259-317 | the loop over stages returns all blocks in order |
| Locator.ScannersAgree | agently/utils/DataLocator.py:214-317 | when the first visible character is a bracket, the direct scan returns the first of all blocks, and nothing exactly when there is none |
| Locator.LocatedBlocksAreStable | agently/utils/DataLocator.py:204-317 | every returned block is its own only block for both scanners, although characters were dropped and rewritten |
| LocatedBreaks.RawIsLocated | agently/utils/DataLocator.py:205-317 | for every JSON text with raw line breaks and tabs in its strings, dropped backslash pairs between its tokens and backslashes in front of opening quotes: both scans return the same document with each break and tab written as its escape, those backslashes gone, and everything else kept |
| LocatedBreaks.EscapedMeansRaw | agently/utils/DataLocator.py:247-250 | each such string then decodes to the raw one: the text of its pieces with its line breaks and tabs |
| LocatedBreaks.AllPartsAreLocated | agently/utils/DataLocator.py:259-317 | for a reply with any number of such documents, each behind text without brackets and backslashes, the scan for all blocks returns all of them in order, and nothing else |
| LocatedBreaks.OutputIs | agently/utils/DataLocator.py:319-344 | what is located as the output of such a reply: nothing without a document, a document that only spaces precede or that is alone, and otherwise what is chosen from all of them |
| BlockChoice.ChooseBlock | agently/utils/DataLocator.py:330-344 | the loop returns the last of the blocks with the highest score that is not negative, and the last block of all when none has one |
| BlockChoice.BestIsOne | agently/utils/DataLocator.py:330-344 | there is only one such block |
| CompletedIsLocated.CompletedPrefixIsLocated | agently/utils/StreamingJSONParser.py:146-153 | for every non-empty prefix of a JSON text that starts at its root bracket, the completed prefix is located and returned unchanged, unless the prefix ends on an unpaired backslash, when nothing is located |
| CompletedIsLocated.CompletedTextIsLocated | agently/utils/DataLocator.py:205-256 | the same for every text without comments, apostrophes, stray closers and raw line breaks in strings |
| CompletedIsLocated.LocatedIsScanned | agently/utils/DataLocator.py:214-256 | on such texts the locator's block ends where the completer's scan sees the root closed |
| Streaming.StreamingJSONParser.ParseBufferOnce | agently/utils/StreamingJSONParser.py:146-160 | the value moves on exactly when the completed buffer can be located and decoded |
| Streaming.StreamingJSONParser.ShouldMarkFieldComplete | agently/utils/StreamingJSONParser.py:415-467 | the heuristic answers yes only for a path that is not complete and a value that is there and is the same as when it was last read; otherwise it is arbitrary |
| Streaming.StreamingJSONParser.TraverseAndCompare | agently/utils/StreamingJSONParser.py:528-656 | one comparison emits exactly the deltas of the two values and records the texts sent; its done events are for paths not marked before, each of which it marks, and show values that stand in the newer value and stood in the older one |
| Streaming.StreamingJSONParser.EmitObservedBoundaryEvents | agently/utils/StreamingJSONParser.py:284-300 | the exact events: in the order observed, one for each path that was not complete, with the observed value, and none for the others |
| Streaming.StreamingJSONParser.MarkAllComplete | agently/utils/StreamingJSONParser.py:738-802 | the exact events: one for each path into the value that was not complete, children before parents, with its value; afterwards every path is complete |
| Streaming.StreamingJSONParser.ParseChunk | agently/utils/StreamingJSONParser.py:811-830 | over any sequence of calls and whatever the heuristic answers: each path marked complete had one done event and no other had any, the marked set only grows, the deltas are those of the comparisons made, and every observed path is complete; when the buffer is too large, one status event and nothing else changes |
| Streaming.StreamingJSONParser.FlushObservedBoundaries | agently/utils/StreamingJSONParser.py:804-809 | emits exactly the events of the observed paths that are not complete, with the same bookkeeping |
| Streaming.StreamingJSONParser.Finalize | agently/utils/StreamingJSONParser.py:715-802 | the exact events: what the raw buffer closes, then every other path of the value, labelled by what the raw buffer looks like; when the buffer is read once more; and every path of the value is complete |
| Streaming.StreamingJSONParser.FalsyValues | agently/utils/StreamingJSONParser.py:730-735 | the values for which the buffer is read once more at the end |
| Streaming.StreamingJSONParser.FlushFinalData | agently/utils/StreamingJSONParser.py:671-713 | nothing for a missing value; otherwise the changes against the current value if it differs, then exactly the end of the stream |
| Streaming.StreamingJSONParser.ParseStream | agently/utils/StreamingJSONParser.py:832-846 | for a whole stream: every path of the final value is done, every done path was done exactly once, and the events are those of its rounds, one for each chunk whose buffer is not deferred, in order: first one comparison with the value read before, if the buffer can be read, then exactly what its raw text closes; at the end one status event for deferred chunks, what the whole buffer closes, and the paths left over |
| StreamingEnd.EndOfCompleteReply | agently/utils/StreamingJSONParser.py:738-802 | when the buffer holds a whole reply and the value read is its document's, everything the end of the stream emits is backed by an observed boundary, whatever was complete before |
| StreamingEnd.CompleteReplyEndsSilently | agently/utils/StreamingJSONParser.py:738-802 | and it emits nothing when the last chunk has reported what it observed |
| Streaming.DoneOnce | agently/utils/StreamingJSONParser.py:284-300 | exact bookkeeping means one done event for each complete path and none for any other |
| StreamingMarks.MarkingIsPostOrder | agently/utils/StreamingJSONParser.py:743-802 | marking a value emits one done event for each of its places that was not complete, with the value found there, in an order in which every place comes after those below it |
| StreamingMarks.EndLabels | agently/utils/StreamingJSONParser.py:725-802 | an event of `finalize` is labelled as observed if and only if the raw buffer closes a value at its path; all others carry the given label, or the one that tells whether the raw buffer is complete |
| StreamingReplies.BackedInOrder | agently/utils/StreamingJSONParser.py:284-300 | for the rounds of any chunks that make up a reply, whatever the heuristic marks: the done events the raw text backs are, in order, part of the document's places in post-order, each with its final value |
| StreamingReplies.BackedWhollyIff | agently/utils/StreamingJSONParser.py:811-846 | they are all those it would back if the reply came in one piece, if and only if no comparison marked one of these places first |
| StreamingReplies.FreshAllIff | agently/utils/StreamingJSONParser.py:289-291 | each place has a backed event of its own if and only if no two places share a dot path |
| StreamingReplies.SettledIsSilent | agently/utils/StreamingJSONParser.py:415-467 | the heuristic marks nothing in rounds through which no value stands still from one reading to the next unless its boundary was observed before |
| StreamingReplies.OneReadingIsSettled | agently/utils/StreamingJSONParser.py:415-467 | a reply read in one piece is of that kind |
| StreamingReplies.CuttingMakesNoDifference | agently/utils/StreamingJSONParser.py:832-846 | for chunks of that kind and a reply that decodes to its document and closes, is not deferred, or comes after nothing that could be read: the done events of the whole stream, `finalize` included, are those of the document in its order, whatever the chunks |
| LargeReplies.DeferredOnce | agently/utils/StreamingJSONParser.py:811-823 | the chunks up to the first that makes the buffer longer than the limit are read, none after it is, and exactly one status event tells the length then reached; without a positive limit every chunk is read |
| StreamingDeltas.DeltaAt | agently/utils/StreamingJSONParser.py:548-567 | for a path that names one place, one comparison emits exactly the delta between the strings there |
| StreamingDeltas.OneComparison | agently/utils/StreamingJSONParser.py:548-567 | if the text extends the one before, appending the delta gives it; otherwise the appended text is longer than it |
| StreamingDeltas.DeltasRebuild | agently/utils/StreamingJSONParser.py:548-567 | the concatenated deltas equal the current text if every comparison extended it, and are longer than it for good otherwise |
| StreamingDeltas.StreamDeltasRebuild | agently/utils/StreamingJSONParser.py:811-846 | the same for the event list of a whole stream |
| StreamingDeltas.PlainNamesOnlyAt | agently/utils/DataPathBuilder.py:41-57 | with plain names a dot path names one place only, as those lemmas ask |
| StreamingLeaves.DeltasLeafByLeaf | agently/utils/StreamingJSONParser.py:544-656 | the deltas of one comparison are those of the leaves of the newer value in its order, each against what stood at its place before |
| StreamingLeaves.DeltaOfLeaf | agently/utils/StreamingJSONParser.py:548-591 | for a path that names one place: a number or a word other than null has exactly one delta with its lexeme, if and only if the older value there differs; a string that extends the older one has one with the rest, any other string one with its whole text; null, containers, the empty text and what did not change have none |
| Json.BuildDotPath | agently/utils/DataPathBuilder.py:41-57 | the loop builds the dot form of the keys |
| Texts.SplitJoin | agently/utils/StreamingJSONParser.py:371-372 | splitting at a separator undoes joining of parts that do not hold it |
| Texts.JoinSplit | agently/utils/StateData.py:274 | joining undoes splitting, so different dotted keys have different paths |
| Texts.NumberOfDecimal | agently/utils/StreamingJSONParser.py:384-386 | reading a decimal numeral gives the number back |
| Paths.ParsePathKeys | agently/utils/StreamingJSONParser.py:360-390 | the loop over parts computes the keys of a path text |
| Paths.DotPathRoundTrip | agently/utils/StreamingJSONParser.py:360-390 | reading the dot form of any keys with plain names gives the keys back |
| Paths.DotPathInjective | agently/utils/DataPathBuilder.py:41-57 | different keys with plain names have different dot forms |
| SlashPaths.ConversionEndsIff | agently/utils/DataPathBuilder.py:82-97 | the dot-to-slash loop ends if and only if every opening bracket is closed further on |
| SlashPaths.ConvertDotToSlash | agently/utils/DataPathBuilder.py:70-101 | on such texts the loop joins the parts of the path with slashes |
| SlashPaths.ConvertSlashToDot | agently/utils/DataPathBuilder.py:103-122 | the loop joins the parts of a stripped slash path into a dot path |
| SlashPaths.TokensOfPath | agently/utils/DataPathBuilder.py:79-99 | the parts of a dot path are one for each of its keys, wildcards included |
| SlashPaths.DotSlashRoundTrip | agently/utils/DataPathBuilder.py:70-122 | to slashes and back is the identity on the dot form of keys with plain names, indices and wildcards |
| PathLookup.BuildSlashPath | agently/utils/DataPathBuilder.py:59-68 | the loop joins the keys with slashes |
| PathLookup.SlashPathLookup | agently/utils/DataLocator.py:123-158 | for every path present in a value, looking up its slash form finds the subvalue there |
| PathLookup.SlashPatternLookup | agently/utils/DataLocator.py:123-158 | for every pattern of names, indices and wildcards that finds something in a value, the lookup of its slash form finds that |
| PathLookup.ConvertedLookup | agently/utils/DataPathBuilder.py:70-101 | a dot path with plain names, indices and wildcards, converted to slashes, is looked up to what its keys find in a value |
| PathLookup.EachIs | agently/utils/DataLocator.py:137-147 | a wildcard collects what the rest of the path finds in each item, in order, and finds nothing exactly when one item has nothing there |
| PathLookup.NegativeIndex | agently/utils/DataLocator.py:148-156 | a negative index counts from the end, and finds nothing before the first item |
| PathLookup.PlusIndex | agently/utils/DataLocator.py:148-156 | a plus sign in front of an index changes nothing |
| PathLookup.NoIndex | agently/utils/DataLocator.py:148-158 | a part that starts like no number, bracket or wildcard finds nothing in an array |
| DotLookup.DotPathLookupIff | agently/utils/DataLocator.py:71-121 | for every place of a value with plain names on its way: looking its dot path up finds the value there if and only if no two keys in a row are indices, and finds nothing otherwise |
| DotLookup.DotPatternLookup | agently/utils/DataLocator.py:71-121 | a dot path with wildcards and no two brackets in a row finds what its keys stand for |
| StateValues.UnionAssociative | agently/utils/StateData.py:121-128 | ordered list union with de-duplication is associative |
| StateValues.UnionAddsOnce | agently/utils/StateData.py:121-128 | what it adds is new where it stands, even when it comes twice |
| StateValues.MergeAssociative | agently/utils/StateData.py:114-139 | merging three levels does not depend on the order when the lower two have the same kinds |
| StateValues.MergeAssociativeIff | agently/utils/StateData.py:114-139 | merging a level over another is associative with every further level if and only if no container hides a value of another kind |
| StateValues.ViewIsLocalOverParentIff | agently/utils/StateData.py:141-147 | for any local data and any levels between: the fold along the chain is the local data over the parent's own view, whatever the last level holds, if and only if the local data fits on the view of the levels between |
| StateValues.ViewIsLayered | agently/utils/StateData.py:141-147 | when that holds at every level, the fold is the levels laid one over the other from the last one inwards |
| StateValues.PairsFit | agently/utils/StateData.py:141-147 | it holds at every level of a chain whose levels, the last one aside, fit in pairs |
| StateValues.SetItemIdempotent | agently/utils/StateData.py:226-270 | merging the same value a second time changes nothing, through every mismatch of kinds |
| StateValues.RaisesIff | agently/utils/StateData.py:272-285 | a dotted write raises if and only if a proper prefix of its path holds something that is no dictionary |
| StateValues.RaisedChangedNothing | agently/utils/StateData.py:272-289 | a dotted write that raises has changed nothing, although it creates dictionaries on its way |
| StateValues.GetAfterSet | agently/utils/StateData.py:272-294 | after a write that did not raise, the path holds what was placed there |
| StateValues.SetFrame | agently/utils/StateData.py:272-294 | a write, one that raises included, leaves every path that neither prefixes nor extends its own unchanged |
| StateValues.GetAfterDelete | agently/utils/StateData.py:376-394 | after deleting a path, the lookup finds nothing there |
| StateValues.DeleteFrame | agently/utils/StateData.py:376-394 | a deletion leaves every path that neither prefixes nor extends its own unchanged |
| StateValues.UpdateIdempotent | agently/utils/StateData.py:305-313 | an update applied twice equals the update applied once, in its answer too, dotted keys and updates that raise included, when no key's path extends another's |
| StateValues.PlainUpdateIdempotent | agently/utils/StateData.py:305-313 | without dotted keys no condition is left |
| StateValues.OverlappingKeysBreakUpdate | agently/utils/StateData.py:305-313 | with keys that extend each other the second update can raise |
| StateUpdates.UpdateIdempotentIff | agently/utils/StateData.py:305-313 | for any different keys, dotted or not: their update is idempotent on every state and for all values, if and only if no key's path extends another's |
| StateUpdates.ClashChanges | agently/utils/StateData.py:305-313 | for any set of keys one of which extends another, in any order, there are values for which the first update does not raise and the second one differs |
| StateStore.Copy | agently/utils/StateData.py:95-112 | a copy stands for the same value and shares no dictionary or list with its origin |
| StateStore.Equal | agently/utils/StateData.py:124 | the nested comparison behind `in` is equality of the values |
| StateStore.AppendAllMissing | agently/utils/StateData.py:122-127 | the in-place loop appends copies of exactly the items the ordered union adds |
| StateStore.MergeEntry | agently/utils/StateData.py:116-138 | one shared key: the merged value, fresh objects, and changes only to the child's own lists |
| StateStore.MergeView | agently/utils/StateData.py:114-139 | the loop over the child's keys returns a fresh dictionary for the merged view, and leaves the parent's objects alone |
| StateWrites.SetItem | agently/utils/StateData.py:226-270 | the in-place recursive merge turns the dictionary's value into that of the merge on values, and touches no other object |
| StateWrites.SetFields | agently/utils/StateData.py:227-233 | the loop over a mapping that meets a dictionary |
| StatePlaces.Close | agently/utils/StateData.py:276-289 | after a write where a path leads, the whole is a tree of objects again, with the new part at that place |
| LayeredState.Enter | agently/utils/StateData.py:276-285 | one step of the walk: a missing key gets a dictionary of its own, at its place in the whole |
| LayeredState.Place | agently/utils/StateData.py:286-289 | the end of the walk: the value is covered by a copy, or merged in place |
| LayeredState.StateData.SetItemByDotPath | agently/utils/StateData.py:272-289 | the walking loop leaves the object in the state, and with the answer, of the dotted write on values |
| LayeredState.StateData.Set | agently/utils/StateData.py:291-298 | with or without dots, the object is in the state of the covering write on values; a part of the object's own data may be stored under a plain key, or where something stands already |
| LayeredState.StateData.Update | agently/utils/StateData.py:305-313 | the loop over a mapping leaves the object in the state of the update on values, stopped at the first write that raises |
| LayeredState.StateData.Delete | agently/utils/StateData.py:376-394 | the walking loop leaves the object in the state of the deletion on values |
| LayeredState.StateData.Data | agently/utils/StateData.py:141-147 | the view through the parents stands for the fold of the stored levels, shares nothing with them, and reading it changes no stored object of any level |
| LayeredState.StateData.Get | agently/utils/StateData.py:166-198 | the lookup in the view, or in the local data, where it hands out the stored object itself |
| LayeredState.ViewOverParent | agently/utils/StateData.py:141-147 | the view of an object is its own data over the view of its parent, when that data fits on the view of the levels between |
| Broadcast.StepKeepsInv | agently/utils/GeneratorConsumer.py:72-145 | every step of source, subscribers and close keeps the invariant: delivered plus queued messages are the full history in order, followed only by terminators |
| Broadcast.RunKeepsInv | agently/utils/GeneratorConsumer.py:72-145 | so does every run |
| Broadcast.RunIsItsSteps | agently/utils/GeneratorConsumer.py:72-145 | after any run, the history is the list of values yielded in it and the error that of its failing step, told from the list of steps alone; nothing is yielded after a failure |
| Broadcast.ResultIsWhatWasYielded | agently/utils/GeneratorConsumer.py:204-217 | `get_result` waits until the consumer has finished, then raises the error of the run, or returns the values yielded |
| Broadcast.SubscriberSteps | agently/utils/GeneratorConsumer.py:122-143 | what a subscriber got in a run is what it took in its own steps, and it leaves only by its own step |
| Broadcast.StreamCanEnd | agently/utils/GeneratorConsumer.py:72-104 | a running source can end at any time, with its values as the result, or with an error |
| Broadcast.ReplayIsComplete | agently/utils/GeneratorConsumer.py:113-145 | in every reachable state, whenever a live subscriber joined, it has and is owed everything the source yielded, in order; behind it comes the error first if the source failed, otherwise the sentinel once the stream is done |
| Broadcast.FinishedSawTheResult | agently/utils/GeneratorConsumer.py:204-217 | in every reachable state, subscribers that ran to the end saw exactly what the source yielded, and its error if it failed, which is what `get_result` answers |
| Broadcast.SubscriberEnds | agently/utils/GeneratorConsumer.py:122-143 | once the stream is done, a subscriber that keeps taking messages ends after the rest of the history and one terminator |
| Broadcast.FinishedIsFinal | agently/utils/GeneratorConsumer.py:122-143 | once a subscriber has finished, the history it saw never changes |
| Broadcast.ResultIsFinalIff | agently/utils/GeneratorConsumer.py:204-238 | a result stays the same in every further run if and only if no plain generator is left to run after a close |
| Broadcast.LateRunIsReachable | agently/utils/GeneratorConsumer.py:219-238 | such a state is reachable by closing first |
| Broadcast.GeneratorConsumer.SourceYields | agently/utils/GeneratorConsumer.py:72-104 | the object's step for a yielded value is the system's step |
| Broadcast.GeneratorConsumer.SourceRaises | agently/utils/GeneratorConsumer.py:80-91 | the object's step for an error is the system's step |
| Broadcast.GeneratorConsumer.FinishConsume | agently/utils/GeneratorConsumer.py:84-91 | the end of the consumer is the system's step; the sentinel is broadcast once |
| Broadcast.GeneratorConsumer.Join | agently/utils/GeneratorConsumer.py:113-121 | subscribing with replay is the system's step |
| Broadcast.GeneratorConsumer.Take | agently/utils/GeneratorConsumer.py:122-143 | taking a message is the system's step |
| Broadcast.GeneratorConsumer.EndClose | agently/utils/GeneratorConsumer.py:219-238 | the end of `close` is the system's step |
| Broadcast.GeneratorConsumer.Result | agently/utils/GeneratorConsumer.py:204-217 | `get_result` answers as the system does |
| KeyPool.LeastUsed | agently/utils/ModelPool.py:92 | the first of the keys with the smallest count |
| KeyPool.KeySelector.SelectKey | agently/utils/ModelPool.py:73-96 | each mode's choice and its counter, the counters it leaves alone, and the two errors |
| KeyPool.SpreadStays | agently/utils/ModelPool.py:91-94 | over any run of `least_used` selections, from this pool or pools without its keys, the spread of use never exceeds the larger of the initial spread and 1 |
| KeyPool.UseIsEven | agently/utils/ModelPool.py:91-94 | after n selections from one pool of different keys, each was used n divided by the number of keys times, or once more |
| KeyFailover.FailoverState.NextKeyEntry | agently/utils/ModelPool.py:335-354 | the two loops return the first entry behind the selected one, around the pool, that was not attempted |
| KeyFailover.FailoverState.ResolveFailover | agently/utils/ModelPool.py:397-472 | the decision, its reason, and the new selected key, attempts and key value; nothing changes when it gives up |
| KeyFailover.PolicyDecides | agently/utils/ModelPool.py:397-472 | without a handler, when a retry is allowed: give up if status and error are not listed or the strategy is to raise; otherwise the first key behind the selected one that was not tried, the same key, or the key named, and giving up exactly when there is none |
| KeyFailover.NoRetry | agently/utils/ModelPool.py:412-436 | the reasons for giving up before any policy is asked, in their order, and that a retry is allowed otherwise |
| KeyFailover.NeverTooManyAttempts | agently/utils/ModelPool.py:424-427 | whatever the handlers answer, over any run of failures, a request never makes more attempts than the limit the policy sets, or the number of keys without one |
| KeyFailover.NoKeyTwice | agently/utils/ModelPool.py:335-354 | while the answer is to try the next key, no key id is attempted twice, whatever the pool holds |
| KeyFailover.CyclicNext | agently/utils/ModelPool.py:335-354 | after m keys in cyclic order the next one is the m-th from the start, and none once all were attempted |
| KeyFailover.VisitsInCyclicOrder | agently/utils/ModelPool.py:397-472 | with different key ids, the k-th attempt is the k-th key around the pool from the first one, and a run makes exactly the smaller of limit and number of keys attempts |
| TokenBucket.Bucket.Acquire | agently/utils/RequestScheduler.py:54-63 | the grant time of a call and the next allowed time; no limit without a positive rate |
| TokenBucket.AcquireAll | agently/utils/RequestScheduler.py:46-63 | a run of calls on a new bucket grants the times the lemmas are about |
| TokenBucket.GrantsAreSpaced | agently/utils/RequestScheduler.py:54-63 | grants j - i calls apart are at least j - i intervals apart, for any run whose sleeps last long enough |
| TokenBucket.WindowHoldsRate | agently/utils/RequestScheduler.py:46-63 | a window of length w holds at most floor(w * rate) + 1 grants |
| TokenBucket.GrantsAreGreedy | agently/utils/RequestScheduler.py:58-63 | with exact sleeps no call waits longer than one interval after the last grant |

## Left out

- Streaming.StreamingJSONParser.ShouldMarkFieldComplete: beyond the stability of its value, the heuristic is an
  arbitrary answer, because nothing is claimed about the truth of its answers. Values are the same here when
  their lexemes and the order of their keys are.
- Observed.ObservedCompleteValues: the recursion limit of Python, surrogate escapes without a partner (they stay
  escape text, since a Dafny `char` cannot hold them) and the decoding of numbers are not modelled; numbers and
  words are compared as lexemes.
- Streaming.StreamingJSONParser.TraverseAndCompare: the delta of a number or a word is its lexeme, where the
  source sends Python's text of the decoded value; and values are compared by lexeme, so `1.0` and `1.00` differ.
- BlockChoice.ChooseBlock: what a block scores against the expected output is a parameter.
- Streaming.StreamingJSONParser.Finalize: which number lexemes the decoder reads as zero is an arbitrary function.
- Locator.LocateDirectRootJson: starts from prepared text, as the next one does.
- Locator.LocateAllJson: the regular expressions that prepare and restore triple quotes and the `[OUTPUT]` mark
  (agently/utils/DataLocator.py:186-202); the scans start from prepared text.
- Streaming.StreamingJSONParser.ParseBufferOnce: the json5 decoder and the choice between several blocks are
  arbitrary functions; the repair option of the completer is off, as its callers leave it.
- StateStore.Equal: a number equals another spelling of it in Python; here atoms are equal when their
  representations are. Sets, tuples, shared non-builtin objects, keys that are no strings and the order of
  dictionary keys are not modelled, nor are `load` and `dump`.
- StateStore.Copy: sets and tuples, which the source copies too, and objects of other classes, which it shares,
  are not modelled; atoms and null stand for all values that are not copied.
- StateWrites.SetItem: a value that is merged shares no dictionary or list with the stored data, and no object
  stands at two places of one stored value; aliases of either kind are not modelled, because what such a merge
  yields depends on changes it makes to its own argument.
- StateWrites.SetFields: the same for a mapping that is merged.
- LayeredState.Place: the same for a value that is merged; a value that covers may be a part of the data.
- LayeredState.StateData.SetItemByDotPath: the same; and a covering value may be a part of the data
  only where the path leads somewhere already, since otherwise the walk may change it before the copy.
- LayeredState.StateData.Set: the same as for a covering dotted write.
- LayeredState.StateData.Update: the mapping shares no object with the stored data, as for a merge; the order of
  its keys is a parameter.
- LayeredState.StateData.Data: chains of parents that end; a cyclic chain does not return in the source.
- Paths.ParsePathKeys: `\d` and `int` are modelled for ASCII digits.
- PathLookup.SlashPathLookup: the default is no part of any value, so that identity with it is absence; `int`
  takes a sign and ASCII digits.
- Broadcast.GeneratorConsumer.SourceYields: a source that yields an instance of `Exception` as a value, which
  subscribers take for an error, is not covered; values and errors have different types.
- Broadcast.GeneratorConsumer.Join: `get_generator` with threads and several event loops, and errors raised by
  closing the source, are left out; queue operations do not suspend, so each step is atomic.
- KeyFailover.FailoverState.ResolveFailover: what a handler is and how its answer is read
  (agently/utils/ModelPool.py:109-131 and 375-394); any action with any entry is allowed. Settings without a pool
  or without a failover policy only give up.
- KeyPool.KeySelector.SelectKey: the random choice is a parameter.
- TokenBucket.Bucket.Acquire: reals instead of floating point; calls are serialized by the lock.
- Concurrency limits of the request scheduler, key values from the environment, schema path extraction and
  `get_value_by_path` would add only easy members or rest on code that is not part of this model.
