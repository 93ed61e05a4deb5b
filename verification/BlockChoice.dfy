/**
  The choice between several located blocks (agently/utils/DataLocator.py:330-344): the last of those that fit
  the expected output best. What a block scores is a parameter; one that does not decode has no score.
 */
module BlockChoice {
  import opened Chars

  type Scores = string -> Option<int>

  /** A block counts when it has a score that is not negative. */
  predicate Counts(scores: Scores, block: string) { scores(block).Some? && scores(block).value >= 0 }

  /** The best block of a list: none of the others that count scores more, and none behind it as much. */
  ghost predicate Best(all: seq<string>, scores: Scores, k: nat) {
    && k < |all| && Counts(scores, all[k])
    && (forall j :: 0 <= j < k && Counts(scores, all[j]) ==> scores(all[j]).value <= scores(all[k]).value)
    && (forall j :: k < j < |all| && Counts(scores, all[j]) ==> scores(all[j]).value < scores(all[k]).value)
  }

  lemma BestIsOne(all: seq<string>, scores: Scores, k: nat, k': nat)
    requires Best(all, scores, k) && Best(all, scores, k')
    ensures k == k'
  {
  }

  method ChooseBlock(all: seq<string>, scores: Scores) returns (block: string)
    requires all != []
    ensures if exists k :: 0 <= k < |all| && Counts(scores, all[k])
      then exists k: nat :: Best(all, scores, k) && block == all[k]
      else block == all[|all| - 1]
  {
    var bestBlock: Option<string>, bestScore := None, -1;
    ghost var best := 0;
    for i := 0 to |all|
      invariant bestScore >= -1 && (bestBlock.None? ==> bestScore == -1)
      invariant bestScore == -1 ==> forall j :: 0 <= j < i ==> !Counts(scores, all[j])
      invariant bestScore >= 0 ==>
        Best(all[..i], scores, best) && bestBlock == Some(all[best]) && scores(all[best]) == Some(bestScore)
    {
      assert all[..i + 1] == all[..i] + [all[i]];
      match scores(all[i]) {
        case Some(score) =>
          if score >= bestScore {
            bestScore, bestBlock, best := score, Some(all[i]), i;
          }
        case None =>
      }
    }
    assert all[..|all|] == all;
    if bestBlock.Some? && bestScore >= 0 { return bestBlock.value; }
    return all[|all| - 1];
  }
}
