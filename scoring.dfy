/// The points Character.ShowScore awards: five for each battle the character
/// won, two for each other battle.
module Scoring {

  function Points(won: bool): int
  {
    if won then 5 else 2
  }

  /** The score after the battles whose outcomes are `won`, in order. */
  function Score(won: seq<bool>): (s: int)
    ensures 2 * |won| <= s <= 5 * |won|
    decreases |won|
  {
    if won == [] then 0 else Score(won[..|won| - 1]) + Points(won[|won| - 1])
  }

  /** The score counts wins and the rest, whatever their order. */
  lemma {:induction false} ScoreByCount(won: seq<bool>)
    ensures Score(won) == 5 * multiset(won)[true] + 2 * multiset(won)[false]
    ensures multiset(won)[true] + multiset(won)[false] == |won|
    decreases |won|
  {
    if won != [] {
      var init := won[..|won| - 1];
      assert won == init + [won[|won| - 1]];
      assert multiset(won) == multiset(init) + multiset{won[|won| - 1]};
      ScoreByCount(init);
    }
  }
}
