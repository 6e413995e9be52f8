/** The result screen: the celebratory tier and the message, both chosen by
    bucketing the percentage score / total * 100 at 100, 75 and 50.
    Percentages are compared by cross-multiplying. With 1, 2 or 4
    questions every percentage the sketch computes is exact in binary
    floating point. With 3 questions the values for 1 and 2 correct
    (33.33333333333333 and 66.66666666666666) are not the exact thirds,
    but they lie between the same thresholds 50, 75 and 100 as the exact
    values, so the integer comparison selects the same tier. */
module Results {
  import opened Particles

  /** The four buckets, highest first. */
  datatype Tier = Perfect | Excellent | Good | KeepTrying

  /** `score / total * 100 === 100`. A zero total gives NaN or +Infinity,
      neither of which equals 100. */
  predicate PercentIsHundred(score: nat, total: nat)
  {
    total > 0 && score == total
  }

  /** `score / total * 100 >= bound`. A zero total gives NaN for a zero
      score (every comparison false) and +Infinity otherwise (true). */
  predicate PercentAtLeast(score: nat, total: nat, bound: nat)
  {
    if total == 0 then score > 0 else 100 * score >= bound * total
  }

  /** The tier the threshold chain selects. */
  function TierOf(score: nat, total: nat): Tier
  {
    if PercentIsHundred(score, total) then Perfect
    else if PercentAtLeast(score, total, 75) then Excellent
    else if PercentAtLeast(score, total, 50) then Good
    else KeepTrying
  }

  function Rank(t: Tier): nat
  {
    match t
    case KeepTrying => 0
    case Good => 1
    case Excellent => 2
    case Perfect => 3
  }

  /** The percentage as an exact rational number. */
  function Percentage(score: nat, total: nat): real
    requires total > 0
  {
    (score as real / total as real) * 100.0
  }

  /** The threshold chain read directly on the percentage. */
  function TierOfPercentage(p: real): Tier
  {
    if p == 100.0 then Perfect
    else if p >= 75.0 then Excellent
    else if p >= 50.0 then Good
    else KeepTrying
  }

  /** Cross-multiplying decides every threshold as the percentage does. */
  lemma TierAgreesWithPercentage(score: nat, total: nat)
    requires total > 0
    ensures TierOf(score, total) == TierOfPercentage(Percentage(score, total))
  {
    PercentageCompares(score, total, 100);
    PercentageCompares(score, total, 75);
    PercentageCompares(score, total, 50);
  }

  /** Comparing the percentage with a bound is comparing 100 * score with
      bound * total. */
  lemma PercentageCompares(score: nat, total: nat, bound: nat)
    requires total > 0
    ensures Percentage(score, total) >= bound as real <==> 100 * score >= bound * total
    ensures Percentage(score, total) == bound as real <==> 100 * score == bound * total
  {
    var s, t, b := score as real, total as real, bound as real;
    var p := Percentage(score, total);
    assert p * t == 100.0 * s by {
      assert (s / t) * t == s;
    }
    assert (100 * score) as real == 100.0 * s;
    assert (bound * total) as real == b * t;
    if p >= b {
      assert p * t >= b * t by { assert (p - b) * t >= 0.0; }
    } else {
      assert p * t < b * t by { assert (b - p) * t > 0.0; }
    }
    if p != b {
      assert p * t != b * t by { assert (p - b) * t != 0.0; }
    }
  }

  /** More correct answers never give a lower tier. */
  lemma TierMonotone(s1: nat, s2: nat, total: nat)
    requires s1 <= s2 <= total
    ensures Rank(TierOf(s1, total)) <= Rank(TierOf(s2, total))
  {
  }

  /** With the four questions of a full quiz: 4 is perfect, 3 excellent,
      2 good, 1 and 0 the baseline. The bounds 75 and 50 are inclusive. */
  lemma TiersOutOfFour()
    ensures TierOf(4, 4) == Perfect && TierOf(3, 4) == Excellent && TierOf(2, 4) == Good
    ensures TierOf(1, 4) == KeepTrying && TierOf(0, 4) == KeepTrying
  {
  }

  /** What `setupResultAnimation` spawns for a tier: how many particles and of which kind. */
  function Burst(t: Tier): (b: (nat, Kind))
    ensures b.1 == Default <==> t == KeepTrying
  {
    match t
    case Perfect => (200, Firework)
    case Excellent => (100, Star)
    case Good => (50, Bubble)
    case KeepTrying => (100, Default)
  }

  /** The message belonging to each tier. */
  function TierMessage(t: Tier): string
  {
    match t
    case Perfect => "太完美了，全部答對！"
    case Excellent => "表現得很好！"
    case Good => "還不錯，再接再厲！"
    case KeepTrying => "需要多加練習喔！"
  }

  /** The message `drawResultScreen` shows; it runs its own threshold chain. */
  function ResultMessage(score: nat, total: nat): string
  {
    if PercentIsHundred(score, total) then "太完美了，全部答對！"
    else if PercentAtLeast(score, total, 75) then "表現得很好！"
    else if PercentAtLeast(score, total, 50) then "還不錯，再接再厲！"
    else "需要多加練習喔！"
  }

  /** The message always belongs to the tier whose particles are shown, and
      the four messages are different, so the message tells the tier. */
  lemma MessageMatchesTier(score: nat, total: nat)
    ensures ResultMessage(score, total) == TierMessage(TierOf(score, total))
    ensures forall t :: TierMessage(t) == ResultMessage(score, total) ==> t == TierOf(score, total)
  {
  }
}
