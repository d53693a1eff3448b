/**
 * The numbers `detect()` and `enhancedDetect()` derive from the ranking: the
 * stepped confidence percentage, the clamped enhanced confidence, and the
 * width of each score bar.
 */
module Confidences {

  /** The percentages the stepped table can produce for a positive top score. */
  const Levels: set<int> := {45, 58, 68, 75, 82, 88, 92, 95, 98}

  /** The confidence table of `detect()` over the top score and the gap to the runner-up. */
  function Confidence(topScore: int, gap: int): (c: int)
    ensures c == 0 <==> topScore <= 0
    ensures topScore > 0 ==> c in Levels
  {
    if topScore <= 0 then 0
    else if topScore >= 15 && gap >= 8 then 98
    else if topScore >= 12 && gap >= 6 then 95
    else if topScore >= 10 && gap >= 5 then 92
    else if topScore >= 8 && gap >= 4 then 88
    else if topScore >= 6 && gap >= 3 then 82
    else if topScore >= 5 && gap >= 2 then 75
    else if gap >= 2 then 68
    else if gap >= 1 then 58
    else 45
  }

  /**
   * The table never lowers its answer when the top score or the gap grows:
   * every tier's test is closed upwards and earlier tiers give more.
   */
  lemma ConfidenceMonotone(t1: int, g1: int, t2: int, g2: int)
    requires t1 <= t2 && g1 <= g2
    ensures Confidence(t1, g1) <= Confidence(t2, g2)
  {
  }

  /** A top score of 16 that leads by 9 reaches the highest tier. */
  lemma HighestTier()
    ensures Confidence(16, 9) == 98
  {
  }

  /** A three-way tie at 3 points gets the lowest positive tier. */
  lemma LowestTier()
    ensures Confidence(3, 0) == 45
  {
  }

  /** A tie (gap 0) with a positive top score always gets the lowest positive tier. */
  lemma TieIsLowest(topScore: int)
    requires topScore > 0
    ensures Confidence(topScore, 0) == 45
  {
  }

  /** `Math.min(95, Math.max(60, Math.round(topScore * 3)))` of `enhancedDetect()`; the product is an integer. */
  function EnhancedConfidence(topScore: int): (c: int)
    ensures 60 <= c <= 95
    ensures 60 <= 3 * topScore <= 95 ==> c == 3 * topScore
    ensures 3 * topScore < 60 ==> c == 60
    ensures 3 * topScore > 95 ==> c == 95
  {
    var x := 3 * topScore;
    var lo := if x > 60 then x else 60;
    if lo < 95 then lo else 95
  }

  lemma EnhancedMonotone(t1: int, t2: int)
    requires t1 <= t2
    ensures EnhancedConfidence(t1) <= EnhancedConfidence(t2)
  {
  }

  /** `Math.round(n / d)` for a positive divisor: the nearest integer, halves rounded up. */
  function RoundDiv(n: int, d: int): (q: int)
    requires d > 0
    ensures 2 * n - d < 2 * d * q <= 2 * n + d
  {
    var num, den := 2 * n + d, 2 * d;
    assert num == den * (num / den) + num % den && 0 <= num % den < den;
    num / den
  }

  /**
   * The width of one score bar: 0 for a zero score, otherwise the score as a
   * percentage of the top score, rounded and kept within 6..100.
   */
  function BarWidth(v: int, topScore: int): (w: int)
    ensures v == 0 ==> w == 0
    ensures v != 0 ==> 6 <= w <= 100
  {
    if v == 0 then 0
    else
      var pct := if topScore > 0 then RoundDiv(100 * v, topScore) else 0;
      var capped := if pct < 100 then pct else 100;
      if capped > 6 then capped else 6
  }

  /** The winner's own bar is full. */
  lemma TopBarIsFull(topScore: int)
    requires topScore > 0
    ensures BarWidth(topScore, topScore) == 100
  {
    var d := 2 * topScore;
    assert 2 * (100 * topScore) + topScore == d * 100 + topScore;
    DivUnique(2 * (100 * topScore) + topScore, d, 100, topScore);
  }

  lemma MulNonNegative(a: int, b: int)
    requires a >= 0 && b >= 0
    ensures a * b >= 0
  {
  }

  /** The quotient and remainder of a division by a positive divisor are unique. */
  lemma DivUnique(n: int, d: int, q: int, r: int)
    requires d > 0 && 0 <= r < d && n == d * q + r
    ensures n / d == q
  {
    var k := n / d;
    assert n == d * k + n % d && 0 <= n % d < d;
    if k > q {
      MulNonNegative(d, k - q - 1);
      assert false;
    } else if k < q {
      MulNonNegative(d, q - k - 1);
      assert false;
    }
  }

  /** Under a fixed positive top score, a higher score never gets a narrower bar, once it is non-zero. */
  lemma BarWidthMonotone(v1: int, v2: int, topScore: int)
    requires 0 < v1 <= v2 && topScore > 0
    ensures BarWidth(v1, topScore) <= BarWidth(v2, topScore)
  {
    DivMonotone(2 * (100 * v1) + topScore, 2 * (100 * v2) + topScore, 2 * topScore);
  }

  lemma DivMonotone(a: int, b: int, d: int)
    requires a <= b && d > 0
    ensures a / d <= b / d
  {
    var qa, qb := a / d, b / d;
    assert a == d * qa + a % d && 0 <= a % d < d;
    assert b == d * qb + b % d && 0 <= b % d < d;
    if qa > qb {
      MulNonNegative(d, qa - qb - 1);
      assert false;
    }
  }
}
