/** `Math.round(n / d * 100)`-style percentages, computed exactly on integers. */
module MathRound {

  /** `r` is `n / d` rounded to the nearest integer, halves rounding up (as `Math.round` does). */
  ghost predicate IsRoundHalfUp(r: int, n: int, d: int)
    requires d != 0
  {
    if d > 0 then 2 * d * r <= 2 * n + d < 2 * d * (r + 1)
    else 2 * d * r >= 2 * n + d > 2 * d * (r + 1)
  }

  lemma MulMonotone(a: int, b: int, c: int)
    requires a <= b && c > 0
    ensures a * c <= b * c
  {
  }

  /** `Math.round(n / d)` for exact integers `n` and `d`. */
  function RoundRatio(n: int, d: int): (r: int)
    requires d != 0
    ensures IsRoundHalfUp(r, n, d)
  {
    if d > 0 then (2 * n + d) / (2 * d) else (-(2 * n + d)) / (-2 * d)
  }

  /** Only one integer rounds `n / d`. */
  lemma {:induction false} RoundHalfUpUnique(r1: int, r2: int, n: int, d: int)
    requires d != 0 && IsRoundHalfUp(r1, n, d) && IsRoundHalfUp(r2, n, d)
    ensures r1 == r2
  {
    if r1 < r2 {
      var e := if d > 0 then d else -d;
      MulMonotone(r1 + 1, r2, 2 * e);
    } else if r2 < r1 {
      var e := if d > 0 then d else -d;
      MulMonotone(r2 + 1, r1, 2 * e);
    }
  }

  /** A share `part` of a positive `whole` with `0 <= part <= whole` is between 0 and 100 percent. */
  lemma {:induction false} PercentBounds(part: int, whole: int)
    requires 0 <= part <= whole && whole > 0
    ensures 0 <= RoundRatio(100 * part, whole) <= 100
  {
    var r := RoundRatio(100 * part, whole);
    if r > 100 {
      MulMonotone(101, r, 2 * whole);
      MulMonotone(part, whole, 200);
    }
    if r < 0 {
      MulMonotone(r + 1, 0, 2 * whole);
    }
  }
}
