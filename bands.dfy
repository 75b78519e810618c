/** Percentages, and qualitative bands chosen by a ladder of inclusive
    lower thresholds. */
module Bands {

  /** The number of thresholds at or below `x`: the index of the band `x`
      falls in when the ladder is read from the bottom. */
  function Band(thresholds: seq<real>, x: real): (n: nat)
    ensures n <= |thresholds|
  {
    if thresholds == [] then 0
    else (if thresholds[0] <= x then 1 else 0) + Band(thresholds[1..], x)
  }

  /** A larger score never falls in a lower band. */
  lemma {:induction false} BandMonotone(thresholds: seq<real>, x: real, y: real)
    requires x <= y
    ensures Band(thresholds, x) <= Band(thresholds, y)
  {
    if thresholds != [] {
      BandMonotone(thresholds[1..], x, y);
    }
  }

  /** `part / whole * 100` over exact rationals. */
  function Percent(part: nat, whole: nat): (r: real)
    requires whole > 0
    ensures r >= 0.0
    ensures r == 0.0 <==> part == 0
    ensures part <= whole ==> r <= 100.0
    ensures r == 100.0 <==> part == whole
  {
    var q := part as real / whole as real;
    assert q * whole as real == part as real;
    assert q == 1.0 ==> part as real == whole as real;
    q * 100.0
  }

  lemma PercentMonotone(p1: nat, p2: nat, whole: nat)
    requires whole > 0 && p1 <= p2
    ensures Percent(p1, whole) <= Percent(p2, whole)
  {
    var w := whole as real;
    var q1, q2 := p1 as real / w, p2 as real / w;
    assert q1 * w == p1 as real && q2 * w == p2 as real;
    assert (q2 - q1) * w == (p2 - p1) as real;
    assert q1 <= q2;
  }
}
