/** `calculate_intensity` over exact integers: a stem's least repeat
    distance `d` against the normalisation length `L` becomes
    `clamp(trunc(32 * (1 - (1 - d/L)^2)) * 8, 1, 255)`, or 0 for the
    sentinel distance `L`. Since `1 - (1 - d/L)^2 == d * (2L - d) / L^2`,
    the truncated value is `trunc(32 * d * (2L - d) / (L * L))`. */
module Intensity {

  /** Euclidean division by a positive number. */
  lemma DivMod(a: int, b: int)
    requires b > 0
    ensures a == (a / b) * b + a % b && 0 <= a % b < b
  {
  }

  /** A product with a positive factor is positive only if the other one is. */
  lemma PositiveFactor(x: int, c: int)
    requires c > 0 && x * c > 0
    ensures x > 0
  {
  }

  /** The quotient bounds of a non-negative dividend. */
  lemma FloorBounds(a: int, b: int)
    requires b > 0 && a >= 0
    ensures 0 <= (a / b) * b <= a < (a / b) * b + b
  {
    DivMod(a, b);
  }

  /** A multiple of `c` divided by `c` gives the factor back. */
  lemma ExactQuotient(k: nat, c: int)
    requires c > 0
    ensures (k * c) / c == k
  {
    FloorBounds(k * c, c);
    var q := (k * c) / c;
    assert (q + 1 - k) * c == q * c + c - k * c;
    PositiveFactor(q + 1 - k, c);
    assert (k + 1 - q) * c == k * c + c - q * c;
    PositiveFactor(k + 1 - q, c);
  }

  /** The quotient bounds of a negative dividend, rounded toward zero. */
  lemma CeilBounds(a: int, b: int)
    requires b > 0 && a < 0
    ensures a <= -((-a) / b) * b <= 0 && -((-a) / b) * b < a + b
  {
    FloorBounds(-a, b);
    var q := (-a) / b;
    assert -q * b == -(q * b);
  }

  /** Python's `int()` of the exact quotient `a / b`: truncation toward zero. */
  function TruncDiv(a: int, b: int): (r: int)
    requires b > 0
    ensures a >= 0 ==> 0 <= r * b <= a < r * b + b
    ensures a < 0 ==> a <= r * b <= 0 && r * b < a + b
  {
    if a >= 0 then FloorBounds(a, b); a / b
    else CeilBounds(a, b); -((-a) / b)
  }

  function Clamp(x: int, lo: int, hi: int): (r: int)
    requires lo <= hi
    ensures lo <= r <= hi
    ensures lo <= x <= hi ==> r == x
    ensures x < lo ==> r == lo
    ensures x > hi ==> r == hi
  {
    if x < lo then lo else if x > hi then hi else x
  }

  /** The truncated ease-out value before scaling and clamping: 0 at
      distance 0 and 32 at the sentinel distance `len`. */
  function Raw(d: int, len: int): (r: int)
    requires len > 0
    ensures d == 0 ==> r == 0
    ensures d == len ==> r == 32
  {
    var n, c := 32 * d * (2 * len - d), len * len;
    if d == len then
      assert n == 32 * c by { assert 2 * len - d == len; }
      ExactQuotient(32, c);
      TruncDiv(n, c)
    else TruncDiv(n, c)
  }

  /** `calculate_intensity` for distance `d` and length `len`: 0 for the
      sentinel, otherwise in [1, 255]. */
  function Intensity(d: int, len: int): (r: int)
    requires len > 0
    ensures d == len ==> r == 0
    ensures d != len ==> 1 <= r <= 255
  {
    if d == len then 0
    else Clamp(Raw(d, len) * 8, 1, 255)
  }

  /** Bounds on a quotient from bounds on the dividend. */
  lemma QuotientBounds(n: int, c: int, k: int)
    requires c > 0 && 0 <= n
    ensures n <= k * c ==> n / c <= k
    ensures n < k * c ==> n / c < k
  {
    DivMod(n, c);
    var q := n / c;
    if n <= k * c {
      assert (k + 1 - q) * c == k * c + c - q * c;
      PositiveFactor(k + 1 - q, c);
    }
    if n < k * c {
      assert (k - q) * c == k * c - q * c;
      PositiveFactor(k - q, c);
    }
  }

  /** Floor division by a positive number is monotone. */
  lemma DivMonotone(a: int, b: int, c: int)
    requires 0 <= a <= b && c > 0
    ensures a / c <= b / c
  {
    DivMod(a, c);
    DivMod(b, c);
    var qa, qb := a / c, b / c;
    assert (qb + 1 - qa) * c == qb * c + c - qa * c;
    PositiveFactor(qb + 1 - qa, c);
  }

  /** The ease-out numerator grows with the distance up to `len`: the
      difference is `32 * (d2 - d1) * (2 len - d1 - d2)`. */
  lemma NumeratorMonotone(d1: int, d2: int, len: int)
    requires 0 <= d1 <= d2 <= len
    ensures 0 <= 32 * d1 * (2 * len - d1) <= 32 * d2 * (2 * len - d2)
  {
    assert 32 * d2 * (2 * len - d2) - 32 * d1 * (2 * len - d1)
        == 32 * (d2 - d1) * (2 * len - d1 - d2);
    assert 0 <= d1 * (2 * len - d1);
    assert 0 <= (d2 - d1) * (2 * len - d1 - d2);
  }

  /** On [0, len] the raw value lies in [0, 32], and it is below 32 except at
      `len` itself, so the upper clamp never acts off the sentinel. */
  lemma RawRange(d: int, len: int)
    requires len > 0 && 0 <= d <= len
    ensures 0 <= Raw(d, len) <= 32
    ensures d < len ==> Raw(d, len) <= 31
  {
    var n := 32 * d * (2 * len - d);
    NumeratorMonotone(d, d, len);
    SquareGap(d, len);
    QuotientBounds(n, len * len, 32);
  }

  /** `32 d (2 len - d)` falls short of `32 len^2` by `32 (len - d)^2`. */
  lemma SquareGap(d: int, len: int)
    requires 0 <= d <= len
    ensures 32 * d * (2 * len - d) <= 32 * (len * len)
    ensures d < len ==> 32 * d * (2 * len - d) < 32 * (len * len)
  {
    var e := len - d;
    assert 32 * d * (2 * len - d) == 32 * (len * len) - 32 * (e * e);
    assert d < len ==> e * e > 0;
  }

  /** The raw value is non-decreasing in the distance on [0, len]. */
  lemma RawMonotone(d1: int, d2: int, len: int)
    requires len > 0 && 0 <= d1 <= d2 <= len
    ensures Raw(d1, len) <= Raw(d2, len)
  {
    NumeratorMonotone(d1, d2, len);
    DivMonotone(32 * d1 * (2 * len - d1), 32 * d2 * (2 * len - d2), len * len);
  }

  /** Away from the sentinel, a stem repeated farther apart never gets a
      weaker intensity. */
  lemma IntensityMonotone(d1: int, d2: int, len: int)
    requires len > 0 && 0 <= d1 <= d2 < len
    ensures Intensity(d1, len) <= Intensity(d2, len)
  {
    RawMonotone(d1, d2, len);
  }
}
