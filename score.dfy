/** The arithmetic of `updateScore`: a Java-int sum clamped at zero, and the high-score raise. */
module Score {
  import opened JavaInt

  function Max(a: int, b: int): int {
    if a >= b then a else b
  }

  /**
   * The score after `updateScore(change)`: the Java-int sum when it is not negative, else 0.
   * Without overflow this is `max(0, score + change)`.
   */
  function NextScore(score: int, change: int): (r: int)
    requires IsInt(score) && IsInt(change)
    ensures 0 <= r <= MaxInt
    ensures IsInt(score + change) ==> r == Max(0, score + change)
  {
    var sum := Add(score, change);
    if sum >= 0 then sum else 0
  }

  /** The high score after `updateScore` has set the score to `score`. */
  function NextHigh(high: int, score: int): (r: int)
    ensures r >= high && r >= score
    ensures r == high || r == score
  {
    if score > high then score else high
  }

  /** A score already at the int maximum wraps negative on a gain and is clamped to 0. */
  lemma OverflowResets(change: int)
    requires 0 < change <= MaxInt
    ensures NextScore(MaxInt, change) == 0
  {
  }

  /** Applying a zero change keeps any reachable score. */
  lemma ZeroChange(score: int)
    requires 0 <= score <= MaxInt
    ensures NextScore(score, 0) == score
  {
  }
}
