/** Turn alternation between player 1 and player 2. */
module Turns {

  predicate IsPlayer(p: int)
  {
    p == 1 || p == 2
  }

  /** switchTurn: 1 becomes 2, and anything else becomes 1. */
  function Other(p: int): (q: int)
    ensures IsPlayer(q)
    ensures IsPlayer(p) ==> q != p
    ensures p != 1 ==> q == 1
  {
    if p == 1 then 2 else 1
  }

  /** Switching twice returns the turn to the same player. */
  lemma OtherInvolutive(p: int)
    requires IsPlayer(p)
    ensures Other(Other(p)) == p
  {
  }
}
