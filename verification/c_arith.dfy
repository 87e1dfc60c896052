/** Integer operations of C as the redundancy decoder uses them.

    Dafny's `/` is Euclidean; C's integer division truncates toward zero, and
    the C library's `round` rounds halves away from zero. Both are written out
    here and characterised by their defining inequalities, so that the rest of
    the model never depends on how they are computed.
 */
module CArith {

  /** `IMIN(a, b)`: the smaller of two integers. */
  function IMin(a: int, b: int): (r: int)
    ensures r <= a && r <= b
    ensures r == a || r == b
  {
    if a < b then a else b
  }

  /** The larger of two integers. */
  function Max(a: int, b: int): (r: int)
    ensures r >= a && r >= b
    ensures r == a || r == b
  {
    if a < b then b else a
  }

  /** C's `a / b` for a positive divisor: the quotient truncated toward zero,
      so that the remainder takes the sign of the dividend. */
  function CDiv(a: int, b: int): (r: int)
    requires b > 0
    ensures 0 <= a ==> 0 <= a - r * b < b
    ensures a < 0 ==> -b < a - r * b <= 0
  {
    if a >= 0 then a / b else -((-a) / b)
  }

  /** C's truncating division and Dafny's Euclidean division disagree on a
      negative odd dividend: `(-1) / 2` is 0 in C and -1 in Dafny. */
  lemma CDivTruncatesTowardZero()
    ensures CDiv(-1, 2) == 0
    ensures (-1) / 2 == -1
    ensures CDiv(-3, 2) == -1
  {
  }

  /** A dividend below the divisor never gives a positive truncated quotient. */
  lemma CDivBelowDivisor(a: int, b: int)
    requires b > 0 && a < b
    ensures CDiv(a, b) <= 0
  {
    var r := CDiv(a, b);
    if r > 0 {
      MulMonotone(1, r, b);
      assert false;
    }
  }

  /** Multiplying both sides of `a <= b` by a non-negative factor. */
  lemma MulMonotone(a: int, b: int, c: int)
    requires a <= b && 0 <= c
    ensures a * c <= b * c
  {
    var d := b - a;
    assert b * c == a * c + d * c;
  }

  /** `round(num / den)` for a positive denominator, in exact rational
      arithmetic: the nearest integer, with a tie going away from zero. */
  function RoundHalfAway(num: int, den: int): (r: int)
    requires den > 0
    ensures IsRoundHalfAway(num, den, r)
  {
    if num >= 0 then
      var q := (2 * num + den) / (2 * den);
      FloorQuotient(2 * num + den, 2 * den);
      q
    else
      var q := (-2 * num + den) / (2 * den);
      FloorQuotient(-2 * num + den, 2 * den);
      -q
  }

  /** `r` is `num / den` rounded to the nearest integer, ties away from zero:
      twice the rounding error is at most `den`, and at a tie (error exactly
      one half) the result lies on the far side of zero. */
  ghost predicate IsRoundHalfAway(num: int, den: int, r: int)
  {
    && 2 * num - den <= 2 * r * den <= 2 * num + den
    && (num >= 0 ==> 2 * num - den < 2 * r * den)
    && (num < 0 ==> 2 * r * den < 2 * num + den)
  }

  /** The floor quotient `a / b` of a positive divisor lies within one `b`. */
  lemma FloorQuotient(a: int, b: int)
    requires b > 0
    ensures b * (a / b) <= a < b * (a / b) + b
  {
  }

  /** At most one integer is the rounding of a given fraction. */
  lemma RoundHalfAwayUnique(num: int, den: int, r: int)
    requires den > 0
    requires IsRoundHalfAway(num, den, r)
    ensures r == RoundHalfAway(num, den)
  {
    var s := RoundHalfAway(num, den);
    if r < s {
      MulMonotone(r + 1, s, 2 * den);
      assert false;
    } else if s < r {
      MulMonotone(s + 1, r, 2 * den);
      assert false;
    }
  }

  /** Rounding a whole number gives it back. */
  lemma RoundHalfAwayExact(x: int, den: int)
    requires den > 0
    ensures RoundHalfAway(x * den, den) == x
  {
    assert 2 * x * den == 2 * (x * den);
    RoundHalfAwayUnique(x * den, den, x);
  }

  /** Rounding preserves the order of the numerators. */
  lemma RoundHalfAwayMonotone(n1: int, n2: int, den: int)
    requires den > 0 && n1 <= n2
    ensures RoundHalfAway(n1, den) <= RoundHalfAway(n2, den)
  {
    var r1 := RoundHalfAway(n1, den);
    var r2 := RoundHalfAway(n2, den);
    if n1 < n2 && r2 < r1 {
      ScaledGap(r2, r1, den);
      assert false;
    }
  }

  /** Two integers apart by at least one are, scaled by `2 * den`, at least
      `2 * den` apart. */
  lemma ScaledGap(a: int, b: int, den: int)
    requires a < b && den > 0
    ensures 2 * a * den + 2 * den <= 2 * b * den
  {
    MulMonotone(a + 1, b, 2 * den);
  }
}
