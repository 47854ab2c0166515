/** Each player's meter: 0..3 points, earned one per counted card and spent
    on the mystery wheel. */
module Points {

  /** A full meter. */
  const MaxPoints: int := 3

  predicate InMeter(s: int)
  {
    0 <= s <= MaxPoints
  }

  /** The point award of the count handler: one more point, capped at 3. */
  function Award(s: int): (r: int)
    ensures s < MaxPoints ==> r == s + 1
    ensures MaxPoints <= s ==> r == MaxPoints
    ensures InMeter(s) ==> InMeter(r) && s <= r
  {
    if s + 1 < MaxPoints then s + 1 else MaxPoints
  }

  /** spendPointsForWheel: the level is taken off, but the meter never goes
      below zero (there is no failure when the player cannot afford it). */
  function Spend(s: int, level: int): (r: int)
    ensures 0 <= r
    ensures level <= s ==> r == s - level
    ensures s < level ==> r == 0
    ensures InMeter(s) && 0 <= level ==> InMeter(r) && r <= s
  {
    if s - level > 0 then s - level else 0
  }

  /** updateWheelButtons: the level-L wheel button is enabled exactly when the
      active player's meter holds at least L points. */
  predicate WheelEnabled(s: int, level: int)
  {
    !(s < level)
  }

  /** The enabled wheel buttons are the levels the meter covers: they form a
      prefix 1..s of the three levels. */
  lemma WheelButtonsEnabled(s: int, level: int)
    requires InMeter(s) && 1 <= level <= 3
    ensures WheelEnabled(s, level) <==> level <= s
    ensures WheelEnabled(s, level) ==> forall lower :: 1 <= lower <= level ==> WheelEnabled(s, lower)
    ensures s == MaxPoints ==> WheelEnabled(s, level)
    ensures s == 0 ==> !WheelEnabled(s, level)
  {
  }

  /** The count handler's celebration test: the award has just filled the meter. */
  predicate JustCompleted(before: int)
  {
    before < MaxPoints && Award(before) == MaxPoints
  }

  /** The celebration fires on exactly one meter value. */
  lemma JustCompletedIff(before: int)
    ensures JustCompleted(before) <==> before == MaxPoints - 1
  {
  }

  /** Three awards fill an empty meter; a fourth leaves it full. */
  lemma AwardSaturates()
    ensures Award(Award(Award(0))) == MaxPoints
    ensures Award(Award(Award(Award(0)))) == MaxPoints
  {
  }

  /** Spending never fails: for any meter value and any wheel level the result
      is a meter value, and it is the exact difference when affordable. */
  lemma SpendStaysInMeter(s: int, level: int)
    requires InMeter(s) && 1 <= level <= 3
    ensures InMeter(Spend(s, level))
    ensures WheelEnabled(s, level) ==> Spend(s, level) + level == s
  {
  }
}
