/** Python `Decimal` arithmetic as the order code uses it, over exact reals.
    For a `Decimal`, `x // m` is the integer part of `x / m` truncated toward
    zero and `x % m` is `x - m * (x // m)`, so the remainder takes the sign of
    `x` (unlike `float` or `int`, where both round toward minus infinity). */
module DecimalMath {

  /** `x` is a whole multiple of `m`. */
  predicate IsMultiple(x: real, m: real)
    requires m > 0.0
  {
    (x / m).Floor as real == x / m
  }

  /** `Decimal` integer division `x // m` for a positive `m`: the multiple
      `q * m` lies between zero and `x`, less than one `m` away from `x`. */
  function IntDiv(x: real, m: real): (q: int)
    requires m > 0.0
    ensures x >= 0.0 ==> q >= 0 && q as real * m <= x < q as real * m + m
    ensures x < 0.0 ==> q <= 0 && x <= q as real * m < x + m
    ensures q == 0 <==> -m < x < m
  {
    if x >= 0.0 then
      FloorBounds(x, m);
      (x / m).Floor
    else
      FloorBounds(-x, m);
      -((-x) / m).Floor
  }

  /** For `x >= 0`, `floor(x / m) * m` is within one `m` below `x`. */
  lemma FloorBounds(x: real, m: real)
    requires x >= 0.0 && m > 0.0
    ensures var f := (x / m).Floor;
      f >= 0 && f as real * m <= x < f as real * m + m && (f == 0 <==> x < m)
  {
    var y := x / m;
    var f := y.Floor;
    assert y * m == x;
    assert f as real <= y < f as real + 1.0;
    MulMono(f as real, y, m);
    MulStrict(y, f as real + 1.0, m);
    calc {
      x;
    ==
      y * m;
    <
      (f as real + 1.0) * m;
    ==
      f as real * m + m;
    }
    MulLessIff(y, 1.0, m);
  }

  /** `Decimal` remainder `x % m` for a positive `m`: smaller than `m` in size,
      of the same sign as `x`, and `x` minus it is a multiple of `m`. */
  function Rem(x: real, m: real): (r: real)
    requires m > 0.0
    ensures x >= 0.0 ==> 0.0 <= r < m
    ensures x < 0.0 ==> -m < r <= 0.0
    ensures IsMultiple(x - r, m)
  {
    var q := IntDiv(x, m);
    IntTimesIsMultiple(q, m);
    x - q as real * m
  }

  /** `(x // m) * m`: `x` brought toward zero to a multiple of `m`; for a
      non-negative `x` this is the largest multiple of `m` not above `x`. */
  function TowardZero(x: real, m: real): (r: real)
    requires m > 0.0
    ensures IsMultiple(r, m)
    ensures x >= 0.0 ==> 0.0 <= r <= x < r + m
    ensures x < 0.0 ==> x <= r <= 0.0 && r < x + m
  {
    var q := IntDiv(x, m);
    IntTimesIsMultiple(q, m);
    q as real * m
  }

  lemma IntTimesIsMultiple(k: int, m: real)
    requires m > 0.0
    ensures IsMultiple(k as real * m, m)
  {
    assert (k as real * m) / m == k as real;
  }

  lemma MulMono(a: real, b: real, m: real)
    requires a <= b && m > 0.0
    ensures a * m <= b * m
  {
  }

  lemma MulLessIff(a: real, b: real, m: real)
    requires m > 0.0
    ensures a < b <==> a * m < b * m
  {
  }

  lemma MulStrict(a: real, b: real, m: real)
    requires a < b && m > 0.0
    ensures a * m < b * m
  {
  }
}
