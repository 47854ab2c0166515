/** The three mystery wheels and the spin's rotation arithmetic. Prompt texts
    are opaque: a prompt is identified by its wheel level and slot. */
module Wheel {

  /** Items on every wheel. */
  const WheelSize: int := 5

  /** Where slice 0 starts on the canvas (straight up), in degrees. */
  const StartOffset: real := -90.0

  /** Six extra full turns added by every spin, in degrees. */
  const ExtraSpins: real := 2160.0

  datatype Prompt = Prompt(level: int, slot: int)

  /** The items of wheel `level` (1, 2 or 3). */
  function Tier(level: int): (items: seq<Prompt>)
    ensures |items| == WheelSize
    ensures forall i :: 0 <= i < |items| ==> items[i] == Prompt(level, i)
  {
    seq(WheelSize, i => Prompt(level, i))
  }

  /** openWheel's list selection: level 1 and 2 pick their own wheel, and any
      other level falls through to wheel 3. */
  function ItemsFor(level: int): (items: seq<Prompt>)
    ensures |items| == WheelSize
    ensures 1 <= level <= 3 ==> items == Tier(level)
    ensures level != 1 && level != 2 ==> items == Tier(3)
  {
    if level == 1 then Tier(1)
    else if level == 2 then Tier(2)
    else Tier(3)
  }

  /** Width of one slice of an n-item wheel, in degrees. */
  function SliceAngle(n: nat): real
    requires 0 < n
  {
    360.0 / n as real
  }

  /** Angle of the centre of slice i under the drawing convention. */
  function TargetCenter(i: nat, n: nat): real
    requires 0 < n
  {
    StartOffset + (i as real * SliceAngle(n) + SliceAngle(n) / 2.0)
  }

  /** The cumulative rotation after a spin that chose slice i of n. */
  function SpinRotation(prev: real, i: nat, n: nat): (r: real)
    requires 0 < n
    ensures i < n ==> 1890.0 < r - prev < 2250.0
  {
    if i < n then CenterWithinTurn(i, n); prev + ExtraSpins - TargetCenter(i, n)
    else prev + ExtraSpins - TargetCenter(i, n)
  }

  /** The centre of a chosen slice lies strictly inside the wheel's first
      turn measured from the start offset. */
  lemma CenterWithinTurn(i: nat, n: nat)
    requires i < n
    ensures 0.0 < TargetCenter(i, n) - StartOffset < 360.0
  {
    var s := SliceAngle(n);
    assert s * n as real == 360.0;
    assert 0.0 < s;
    var k := i as real + 0.5;
    assert k < n as real;
    assert TargetCenter(i, n) - StartOffset == k * s;
    assert k * s < n as real * s by {
      assert (n as real - k) * s > 0.0;
    }
  }

  /** Every spin turns the wheel forward by more than five and less than seven
      full turns, whatever the number of items. */
  lemma SpinAdvances(prev: real, i: nat, n: nat)
    requires i < n
    ensures 1890.0 < SpinRotation(prev, i, n) - prev < 2250.0
  {
    CenterWithinTurn(i, n);
  }

  /** On the five-item wheels the advance is the whole number 2214 - 72 i,
      between 1926 and 2214 degrees. */
  lemma FiveSliceAdvance(prev: real, i: nat)
    requires i < WheelSize
    ensures SpinRotation(prev, i, WheelSize) == prev + 2214.0 - 72.0 * i as real
    ensures 1926.0 <= SpinRotation(prev, i, WheelSize) - prev <= 2214.0
  {
    assert SliceAngle(WheelSize) == 72.0;
  }

  /** An angle reduced to [0, 360). */
  function Normalize(a: real): (r: real)
    ensures 0.0 <= r < 360.0
    ensures (a - r) / 360.0 == ((a / 360.0).Floor) as real
  {
    a - 360.0 * ((a / 360.0).Floor) as real
  }

  /** Adding whole turns does not change a normalized angle. */
  lemma NormalizeSixTurns(a: real)
    ensures Normalize(a + ExtraSpins) == Normalize(a)
  {
    assert (a + ExtraSpins) / 360.0 == a / 360.0 + 6.0;
    assert ((a + ExtraSpins) / 360.0).Floor == (a / 360.0).Floor + 6;
  }

  /** Where the chosen slice comes to rest: the screen angle (mod 360) of its
      centre after the spin equals the previous cumulative rotation (mod 360),
      not a fixed position. */
  lemma LandingAngle(prev: real, i: nat, n: nat)
    requires i < n
    ensures Normalize(TargetCenter(i, n) + SpinRotation(prev, i, n)) == Normalize(prev)
  {
    assert TargetCenter(i, n) + SpinRotation(prev, i, n) == prev + ExtraSpins;
    NormalizeSixTurns(prev);
  }

  /** Shortest distance around the circle between two normalized angles. */
  function AngularGap(a: real, b: real): real
  {
    var d := if a <= b then b - a else a - b;
    if d <= 180.0 then d else 360.0 - d
  }

  /** Three spins in a row onto slice 0 of a five-item wheel, starting from
      rotation 0: the chosen centre rests at screen angle 0, then 54, then
      108 degrees. The first and third resting slices are a full slice width
      apart, so the slice arcs (-36, 36) and (72, 144) share no point and no
      fixed marker is over the chosen slice on both of those spins. */
  lemma LandingDrifts()
    ensures var first := SpinRotation(0.0, 0, WheelSize);
            var second := SpinRotation(first, 0, WheelSize);
            var third := SpinRotation(second, 0, WheelSize);
            && Normalize(TargetCenter(0, WheelSize) + first) == 0.0
            && Normalize(TargetCenter(0, WheelSize) + second) == 54.0
            && Normalize(TargetCenter(0, WheelSize) + third) == 108.0
            && AngularGap(Normalize(TargetCenter(0, WheelSize) + first),
                          Normalize(TargetCenter(0, WheelSize) + third)) >= SliceAngle(WheelSize)
  {
    var first := SpinRotation(0.0, 0, WheelSize);
    FiveSliceAdvance(0.0, 0);
    assert first == 2214.0;
    var second := SpinRotation(first, 0, WheelSize);
    FiveSliceAdvance(first, 0);
    assert second == 4428.0;
    LandingAngle(0.0, 0, WheelSize);
    LandingAngle(first, 0, WheelSize);
    LandingAngle(second, 0, WheelSize);
    assert Normalize(0.0) == 0.0;
    assert (2214.0 / 360.0).Floor == 6;
    assert Normalize(2214.0) == 54.0;
    assert (4428.0 / 360.0).Floor == 12;
    assert Normalize(4428.0) == 108.0;
    assert SliceAngle(WheelSize) == 72.0;
  }
}
