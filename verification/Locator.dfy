/**
  The two root scanners (agently/utils/DataLocator.py:204-317), on text that the preparation step leaves
  alone: the direct scan, for text that starts with its JSON, and the scan for all blocks.
 */
module Locator {
  import opened Chars

  /** One turn of either scan inside a block: what it writes and how many characters it consumes. */
  datatype Turn = Turn(layer: int, inQuote: bool, written: string, width: nat)

  function TakeTurn(layer: int, inQuote: bool, c: char, next: Option<char>): (r: Turn)
    ensures 1 <= r.width <= 2
  {
    if !inQuote then
      if c == '\\' then
        if next == Some('\"') then Turn(layer, true, "\"", 2) else Turn(layer, false, "", 2)
      else if c == '\"' then Turn(layer, true, [c], 1)
      else if Opener(c) then Turn(layer + 1, false, [c], 1)
      else if Closer(c) then Turn(layer - 1, false, [c], 1)
      else Turn(layer, false, [c], 1)
    else
      if c == '\\' then
        if next.Some? then Turn(layer, true, [c, next.value], 2) else Turn(layer, true, [c], 1)
      else if c == '\n' then Turn(layer, true, "\\n", 1)
      else if c == '\t' then Turn(layer, true, "\\t", 1)
      else if c == '\"' then Turn(layer, false, [c], 1)
      else Turn(layer, true, [c], 1)
  }

  datatype Block = Block(text: string, end: nat)

  function Step(t: string, i: nat, width: nat): nat
    requires i <= |t|
  {
    if i + width <= |t| then i + width else |t|
  }

  /** The block that is open at `i`, with `written` written so far: `None` when it is never closed. */
  function FindBlock(t: string, i: nat, layer: int, inQuote: bool, written: string): (r: Option<Block>)
    requires i <= |t|
    ensures r.Some? ==> i < r.value.end <= |t| && written <= r.value.text
    decreases |t| - i
  {
    if i == |t| then None
    else
      var turn := TakeTurn(layer, inQuote, t[i], At(t, i + 1));
      if turn.layer == 0 && turn.written != "" then Some(Block(written + turn.written, Step(t, i, turn.width)))
      else FindBlock(t, Step(t, i, turn.width), turn.layer, turn.inQuote, written + turn.written)
  }

  /** What `_locate_direct_root_json` returns. */
  function DirectRoot(t: string): Option<string> {
    var start := SkipSpace(t, 0);
    if start == |t| || !Opener(t[start]) then None
    else
      match FindBlock(t, start, 0, false, "")
      case None => None
      case Some(b) => Some(b.text)
  }

  /** What `locate_all_json` collects from `i` on, when no block is open there. */
  function AllFrom(t: string, i: nat): seq<string>
    requires i <= |t|
    decreases |t| - i
  {
    if i == |t| then []
    else if t[i] == '\\' then AllFrom(t, Step(t, i, 2))
    else if Opener(t[i]) then
      match FindBlock(t, i + 1, 1, false, [t[i]])
      case None => []
      case Some(b) => [b.text] + AllFrom(t, b.end)
    else AllFrom(t, i + 1)
  }

  function AllBlocks(t: string): seq<string> { AllFrom(t, 0) }

  /** `locate_output_json`, with the choice between several blocks left open. */
  function LocateOutput(t: string, choose: seq<string> -> string): Option<string> {
    match DirectRoot(t)
    case Some(b) => Some(b)
    case None =>
      var all := AllBlocks(t);
      if |all| == 0 then None else if |all| == 1 then Some(all[0]) else Some(choose(all))
  }

  lemma FindBlockTurn(t: string, i: nat, layer: int, inQuote: bool, written: string)
    requires i <= |t|
    ensures i == |t| ==> FindBlock(t, i, layer, inQuote, written) == None
    ensures i < |t| ==>
      var turn := TakeTurn(layer, inQuote, t[i], At(t, i + 1));
      FindBlock(t, i, layer, inQuote, written) ==
        if turn.layer == 0 && turn.written != "" then Some(Block(written + turn.written, Step(t, i, turn.width)))
        else FindBlock(t, Step(t, i, turn.width), turn.layer, turn.inQuote, written + turn.written)
  {
  }

  lemma AllFromTurn(t: string, i: nat)
    requires i <= |t|
    ensures i == |t| ==> AllFrom(t, i) == []
    ensures i < |t| ==>
      AllFrom(t, i) ==
        if t[i] == '\\' then AllFrom(t, Step(t, i, 2))
        else if Opener(t[i]) then
          match FindBlock(t, i + 1, 1, false, [t[i]])
          case None => []
          case Some(b) => [b.text] + AllFrom(t, b.end)
        else AllFrom(t, i + 1)
  {
  }

  lemma DirectRootMeans(t: string)
    ensures DirectRoot(t) ==
      var start := SkipSpace(t, 0);
      if start == |t| || !Opener(t[start]) then None
      else
        match FindBlock(t, start, 0, false, "")
        case None => None
        case Some(b) => Some(b.text)
  {
  }

  // The loops.

  /** The part of the loop body that both scans share; `done` when the block's last bracket was closed. */
  method TurnInBlock(c: char, next: Option<char>, layer: int, inQuote: bool, blockChars: string)
    returns (layer': int, inQuote': bool, blockChars': string, skipNext: bool, done: bool)
    ensures var turn := TakeTurn(layer, inQuote, c, next);
      && layer' == turn.layer && inQuote' == turn.inQuote && blockChars' == blockChars + turn.written
      && (skipNext <==> turn.width == 2)
      && (layer >= 1 || (!inQuote && Opener(c)) ==> (done <==> turn.layer == 0 && turn.written != ""))
  {
    layer', inQuote', blockChars', skipNext, done := layer, inQuote, blockChars, false, false;
    assert blockChars + "" == blockChars;
    var written := [c];
    if !inQuote {
      if c == '\\' {
        skipNext := true;
        if next != Some('\"') { return; }
        written := "\"";
      }
      if written == "\"" {
        inQuote' := true;
      } else if Opener(c) {
        layer' := layer + 1;
      } else if Closer(c) {
        layer' := layer - 1;
      }
    } else if c == '\\' {
      if next.Some? {
        blockChars', skipNext := blockChars + [c, next.value], true;
        return;
      }
    } else if c == '\n' {
      written := "\\n";
    } else if c == '\t' {
      written := "\\t";
    } else if c == '\"' {
      inQuote' := false;
    }
    blockChars' := blockChars + written;
    done := layer' == 0;
  }

  lemma OpenerTurn(c: char, next: Option<char>)
    requires Opener(c)
    ensures TakeTurn(0, false, c, next) == Turn(1, false, [c], 1)
  {
  }

  lemma TurnGoesOn(layer: int, inQuote: bool, c: char, next: Option<char>)
    requires layer >= 1
    ensures var turn := TakeTurn(layer, inQuote, c, next);
      turn.layer >= 0 && (turn.layer == 0 ==> turn.written != "" && turn.width == 1)
  {
  }

  method LocateDirectRootJson(text: string) returns (r: Option<string>)
    ensures r == DirectRoot(text)
  {
    hide *;
    var start := SkipSpaces(text);
    DirectRootMeans(text);
    if start == |text| || !Opener(text[start]) {
      return None;
    }
    var blockChars := "";
    var layer := 0;
    var skipNext, inQuote, done := false, false, false;
    ResumeMeans(text, start, false);
    for index := start to |text|
      invariant index == start ==> !skipNext && !inQuote && layer == 0 && blockChars == ""
      invariant index > start ==> layer >= 1
      invariant FindBlock(text, Resume(text, index, skipNext), layer, inQuote, blockChars)
        == FindBlock(text, start, 0, false, "")
    {
      ResumeMeans(text, index, skipNext);
      if skipNext {
        skipNext := false;
        ResumeMeans(text, index + 1, false);
        continue;
      }
      FindBlockTurn(text, index, layer, inQuote, blockChars);
      if index == start {
        OpenerTurn(text[index], At(text, index + 1));
      } else {
        TurnGoesOn(layer, inQuote, text[index], At(text, index + 1));
      }
      layer, inQuote, blockChars, skipNext, done :=
        TurnInBlock(text[index], At(text, index + 1), layer, inQuote, blockChars);
      ResumeMeans(text, index + 1, skipNext);
      if done {
        return Some(blockChars);
      }
    }
    ResumeMeans(text, |text|, skipNext);
    FindBlockTurn(text, |text|, layer, inQuote, blockChars);
    return None;
  }

  method SkipSpaces(text: string) returns (start: nat)
    ensures start == SkipSpace(text, 0)
  {
    start := 0;
    while start < |text| && IsSpace(text[start])
      invariant start <= |text| && SkipSpace(text, start) == SkipSpace(text, 0)
    {
      start := start + 1;
    }
    SpaceEnds(text, start);
  }

  lemma SpaceEnds(t: string, i: nat)
    requires i <= |t| && SkipSpace(t, i) == SkipSpace(t, 0) && (i < |t| ==> !IsSpace(t[i]))
    ensures SkipSpace(t, 0) == i
  {
  }

  /** Where the scan goes on at `index`, when it may have been told to skip a character. */
  function Resume(t: string, index: nat, skipNext: bool): (k: nat)
    requires index <= |t|
    ensures k <= |t|
  {
    if skipNext then Step(t, index, 1) else index
  }

  lemma ResumeMeans(t: string, index: nat, skipNext: bool)
    requires index <= |t|
    ensures Resume(t, index, skipNext) == (if skipNext && index < |t| then index + 1 else index) <= |t|
    ensures index > 0 ==> Step(t, index - 1, 2) == Resume(t, index, true) && Step(t, index - 1, 1) == index
  {
  }

  /** What is still to be collected when the loop over all blocks stands at `k`. */
  ghost function Remaining(t: string, k: nat, stage: int, layer: int, inQuote: bool, blockChars: string): seq<string>
    requires k <= |t|
  {
    if stage == 1 then AllFrom(t, k)
    else
      match FindBlock(t, k, layer, inQuote, blockChars)
      case None => []
      case Some(b) => [b.text] + AllFrom(t, b.end)
  }

  lemma RemainingMeans(t: string, k: nat, stage: int, layer: int, inQuote: bool, blockChars: string)
    requires k <= |t|
    ensures stage == 1 ==> Remaining(t, k, stage, layer, inQuote, blockChars) == AllFrom(t, k)
    ensures stage == 2 ==>
      Remaining(t, k, stage, layer, inQuote, blockChars) == match FindBlock(t, k, layer, inQuote, blockChars) {
        case None => []
        case Some(b) => [b.text] + AllFrom(t, b.end)
      }
  {
  }

  method LocateAllJson(text: string) returns (blocks: seq<string>)
    ensures blocks == AllBlocks(text)
  {
    hide *;
    var stage := 1;
    blocks := [];
    var blockChars := "";
    var layer := 0;
    var skipNext, inQuote, done := false, false, false;
    AllBlocksMeans(text);
    ResumeMeans(text, 0, false);
    RemainingMeans(text, 0, 1, 0, false, "");
    assert [] + AllFrom(text, 0) == AllFrom(text, 0);
    for index := 0 to |text|
      invariant stage == 1 || stage == 2
      invariant if stage == 1 then layer == 0 && !inQuote else layer >= 1
      invariant blocks + Remaining(text, Resume(text, index, skipNext), stage, layer, inQuote, blockChars)
        == AllBlocks(text)
    {
      ResumeMeans(text, index, skipNext);
      if skipNext {
        skipNext := false;
        ResumeMeans(text, index + 1, false);
        continue;
      }
      RemainingMeans(text, index, stage, layer, inQuote, blockChars);
      FindBlockTurn(text, index, layer, inQuote, blockChars);
      AllFromTurn(text, index);
      if stage == 1 {
        if text[index] == '\\' {
          skipNext := true;
        } else if Opener(text[index]) {
          blockChars := [text[index]];
          stage := 2;
          layer := layer + 1;
        }
      } else {
        TurnGoesOn(layer, inQuote, text[index], At(text, index + 1));
        ghost var before := blocks;
        layer, inQuote, blockChars, skipNext, done :=
          TurnInBlock(text[index], At(text, index + 1), layer, inQuote, blockChars);
        if done {
          assert before + ([blockChars] + AllFrom(text, index + 1)) == before + [blockChars] + AllFrom(text, index + 1);
          blocks := blocks + [blockChars];
          ResumeMeans(text, index + 1, false);
          blockChars := "";
          stage := 1;
          inQuote := false;
        }
      }
      ResumeMeans(text, index + 1, skipNext);
      RemainingMeans(text, Resume(text, index + 1, skipNext), stage, layer, inQuote, blockChars);
    }
    ResumeMeans(text, |text|, skipNext);
    RemainingMeans(text, |text|, stage, layer, inQuote, blockChars);
    FindBlockTurn(text, |text|, layer, inQuote, blockChars);
    AllFromTurn(text, |text|);
    assert blocks + [] == blocks;
  }

  lemma AllBlocksMeans(t: string)
    ensures AllBlocks(t) == AllFrom(t, 0)
  {
  }

  // Agreement.

  lemma {:induction false} AllSkipsSpace(t: string, i: nat)
    requires i <= |t|
    ensures AllFrom(t, i) == AllFrom(t, SkipSpace(t, i))
    decreases |t| - i
  {
    if i < |t| && IsSpace(t[i]) { AllSkipsSpace(t, i + 1); }
  }

  /**
    The two scanners agree: when the first visible character is a bracket, the direct scan returns the first
    of all blocks, and nothing exactly when there is none.
   */
  lemma ScannersAgree(t: string)
    requires SkipSpace(t, 0) < |t| && Opener(t[SkipSpace(t, 0)])
    ensures DirectRoot(t) == if AllBlocks(t) == [] then None else Some(AllBlocks(t)[0])
  {
    AllSkipsSpace(t, 0);
    OpeningTurn(t, SkipSpace(t, 0));
  }

  /** The direct scan starts before the bracket, the other one after it. */
  lemma OpeningTurn(t: string, i: nat)
    requires i < |t| && Opener(t[i])
    ensures FindBlock(t, i, 0, false, "") == FindBlock(t, i + 1, 1, false, [t[i]])
  {
    assert "" + [t[i]] == [t[i]];
  }

  // Stability: what has been written once is written again as it is.

  /** A turn on what a turn wrote: same state, same text, all of it consumed. */
  lemma RewrittenTurn(layer: int, inQuote: bool, c: char, next: Option<char>, after: Option<char>)
    requires var turn := TakeTurn(layer, inQuote, c, next);
             turn.written != "" && turn.written != "\\"
    ensures var turn := TakeTurn(layer, inQuote, c, next);
            var w := turn.written;
            && 1 <= |w| <= 2
            && TakeTurn(layer, inQuote, w[0], if |w| == 2 then Some(w[1]) else after) == turn.(width := |w|)
  {
  }

  lemma EndOfPiece(w: string, u: string, j: nat, whole: string, written: string)
    requires j <= |u| && written + w <= whole && u[j..] == whole[|written|..]
    ensures j + |w| <= |u| && u[j + |w|..] == whole[|written + w|..] && forall k :: 0 <= k < |w| ==> u[j + k] == w[k]
  {
    assert whole[|written|..][..|w|] == (written + w)[|written|..] == w;
    forall k | 0 <= k < |w| ensures u[j + k] == w[k] { assert u[j..][k] == whole[|written|..][..|w|][k]; }
    assert u[j + |w|..] == u[j..][|w|..];
  }

  lemma LoneBackslashIsLast(t: string, i: nat, layer: int, inQuote: bool)
    requires i < |t| && TakeTurn(layer, inQuote, t[i], At(t, i + 1)).written == "\\"
    ensures Step(t, i, TakeTurn(layer, inQuote, t[i], At(t, i + 1)).width) == |t|
    ensures TakeTurn(layer, inQuote, t[i], At(t, i + 1)).layer == layer
  {
  }

  /** If a block is found in `t`, then the same block is found wherever its remaining text stands. */
  lemma {:induction false} FoundAgain(t: string, i: nat, layer: int, inQuote: bool, written: string, u: string,
                                      j: nat, written': string)
    requires i <= |t| && j <= |u| && layer != 0
    requires var b := FindBlock(t, i, layer, inQuote, written);
             b.Some? && u[j..] == b.value.text[|written|..]
    ensures FindBlock(u, j, layer, inQuote, written') == Some(Block(written' + u[j..], |u|))
    decreases |t| - i
  {
    hide *;
    FindBlockTurn(t, i, layer, inQuote, written);
    var turn, b := TakeTurn(layer, inQuote, t[i], At(t, i + 1)), FindBlock(t, i, layer, inQuote, written).value;
    var w, i' := turn.written, Step(t, i, turn.width);
    EmptyPieces(written);
    if w == "" {
      SilentTurn(layer, inQuote, t[i], At(t, i + 1));
      StepMoves(t, i, turn.width);
      FoundAgain(t, i', turn.layer, turn.inQuote, written + w, u, j, written');
    } else {
      StepMoves(t, i, turn.width);
      if w == "\\" {
        FindBlockTurn(t, i', turn.layer, turn.inQuote, written + w);
        LoneBackslashIsLast(t, i, layer, inQuote);
      }
      EndOfPiece(w, u, j, b.text, written);
      RewrittenTurn(layer, inQuote, t[i], At(t, i + 1), At(u, j + 1));
      NextOf(u, j, w);
      FindBlockTurn(u, j, layer, inQuote, written');
      StepWhole(u, j, |w|);
      if turn.layer == 0 {
        WholePiece(w, u, j, b.text, written);
      } else {
        FoundAgain(t, i', turn.layer, turn.inQuote, written + w, u, j + |w|, written' + w);
        TwoPieces(written', w, u, j);
      }
    }
  }

  lemma EmptyPieces(written: string)
    ensures written + "" == written
  {
  }

  lemma SilentTurn(layer: int, inQuote: bool, c: char, next: Option<char>)
    requires TakeTurn(layer, inQuote, c, next).written == ""
    ensures TakeTurn(layer, inQuote, c, next).layer == layer && TakeTurn(layer, inQuote, c, next).inQuote == inQuote
  {
  }

  lemma StepMoves(t: string, i: nat, width: nat)
    requires i < |t| && width >= 1
    ensures i < Step(t, i, width) <= |t|
  {
  }

  lemma StepWhole(t: string, i: nat, width: nat)
    requires i + width <= |t|
    ensures Step(t, i, width) == i + width
  {
  }

  lemma NextOf(u: string, j: nat, w: string)
    requires 1 <= |w| <= 2 && j + |w| <= |u| && forall k :: 0 <= k < |w| ==> u[j + k] == w[k]
    ensures u[j] == w[0] && (|w| == 2 ==> At(u, j + 1) == Some(w[1]))
  {
    assert u[j + 0] == w[0];
    if |w| == 2 { assert u[j + 1] == w[1]; }
  }

  lemma WholePiece(w: string, u: string, j: nat, whole: string, written: string)
    requires j <= |u| && whole == written + w && u[j..] == whole[|written|..]
    ensures u[j..] == w && j + |w| == |u|
  {
  }

  lemma TwoPieces(written: string, w: string, u: string, j: nat)
    requires j + |w| <= |u| && forall k :: 0 <= k < |w| ==> u[j + k] == w[k]
    ensures written + w + u[j + |w|..] == written + u[j..]
  {
    assert w + u[j + |w|..] == u[j..];
  }

  lemma BlockIsStable(t: string, i: nat)
    requires i < |t| && Opener(t[i]) && FindBlock(t, i + 1, 1, false, [t[i]]).Some?
    ensures var b := FindBlock(t, i + 1, 1, false, [t[i]]).value.text;
            AllBlocks(b) == [b] && DirectRoot(b) == Some(b)
  {
    var b := FindBlock(t, i + 1, 1, false, [t[i]]).value.text;
    assert b[0] == [t[i]][0];
    FoundAgain(t, i + 1, 1, false, [t[i]], b, 1, [b[0]]);
    assert [b[0]] + b[1..] == b;
    assert AllFrom(b, |b|) == [];
    ScannersAgree(b);
  }

  lemma {:induction false} AllFromStable(t: string, i: nat)
    requires i <= |t|
    ensures forall b :: b in AllFrom(t, i) ==> AllBlocks(b) == [b] && DirectRoot(b) == Some(b)
    decreases |t| - i
  {
    if i < |t| {
      if t[i] == '\\' {
        AllFromStable(t, Step(t, i, 2));
      } else if Opener(t[i]) {
        match FindBlock(t, i + 1, 1, false, [t[i]])
        case None =>
        case Some(b) =>
          BlockIsStable(t, i);
          AllFromStable(t, b.end);
      } else {
        AllFromStable(t, i + 1);
      }
    }
  }

  /** Every returned block is its own only block, although the scan drops and rewrites characters. */
  lemma LocatedBlocksAreStable(t: string)
    ensures forall b :: b in AllBlocks(t) ==> AllBlocks(b) == [b] && DirectRoot(b) == Some(b)
    ensures DirectRoot(t).Some? ==> var b := DirectRoot(t).value; AllBlocks(b) == [b] && DirectRoot(b) == Some(b)
  {
    AllFromStable(t, 0);
    if DirectRoot(t).Some? { ScannersAgree(t); }
  }
}
