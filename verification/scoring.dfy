/** The per-item score a rating button produces (components/InputSection.tsx,
    `handleSelect`): `Math.round(maxPoints * scorePercent * 100) / 100`, held
    here as an integer number of hundredths of a point. */
module Scoring {
  import opened Types

  /** `Math.round` of the exact rational `num / den`: the nearest integer,
      with halves rounded up. */
  function MathRound(num: int, den: int): (r: int)
    requires 0 < den
    ensures 2 * den * r - den <= 2 * num < 2 * den * r + den
  {
    (2 * num + den) / (2 * den)
  }

  /** Rounding an exact integer changes nothing. */
  lemma MathRoundOfWhole(k: int, den: int)
    requires 0 < den
    ensures MathRound(k * den, den) == k
  {
    var r := MathRound(k * den, den);
    var n := 2 * den;
    assert n * r - den <= n * k < n * r + den;
    if r > k {
      MultiplyMonotone(n, k + 1, r);
    } else if r < k {
      MultiplyMonotone(n, r + 1, k);
    }
  }

  lemma MultiplyMonotone(c: nat, a: int, b: int)
    requires a <= b
    ensures c * a <= c * b
  {
  }

  /** The score, in hundredths, of a level worth `scoreTenths` tenths of an
      item worth `maxPoints`: the rounding is exact because the percentage is
      a multiple of 0.1. */
  function PointsFor(maxPoints: nat, scoreTenths: nat): (hundredths: nat)
    ensures hundredths == maxPoints * scoreTenths * 10
  {
    MathRoundOfWhole(maxPoints * scoreTenths * 10, 10);
    assert maxPoints * scoreTenths * 100 == (maxPoints * scoreTenths * 10) * 10;
    MathRound(maxPoints * scoreTenths * 100, 10)
  }

  /** The score the card hands to `onRate` when `level` is chosen: exactly
      `maxPoints * scorePercent`, with nothing lost to the rounding. */
  function SelectedScore(item: KpiItem, level: RatingLevel): (score: nat)
    ensures score == item.maxPoints * CriterionOf(item, level).scoreTenths * 10
    ensures CriterionOf(item, level).scoreTenths == 10 ==> score == item.maxPoints * 100
  {
    PointsFor(item.maxPoints, CriterionOf(item, level).scoreTenths)
  }

  /** A level worth at most 100% scores between zero and the item's maximum. */
  lemma SelectedScoreBounds(item: KpiItem, level: RatingLevel)
    requires CriterionOf(item, level).scoreTenths <= 10
    ensures 0 <= SelectedScore(item, level) <= item.maxPoints * 100
  {
    MultiplyMonotone(item.maxPoints, CriterionOf(item, level).scoreTenths, 10);
  }

  /** A higher percentage never yields a lower score. */
  lemma SelectedScoreMonotone(item: KpiItem, lower: RatingLevel, higher: RatingLevel)
    requires CriterionOf(item, lower).scoreTenths <= CriterionOf(item, higher).scoreTenths
    ensures SelectedScore(item, lower) <= SelectedScore(item, higher)
  {
    MultiplyMonotone(item.maxPoints, CriterionOf(item, lower).scoreTenths, CriterionOf(item, higher).scoreTenths);
  }

  /** With GOOD at 100%, choosing GOOD awards exactly the item's maximum. */
  lemma GoodGivesFullMarks(item: KpiItem)
    requires item.criteria.good.scoreTenths == 10
    ensures SelectedScore(item, Good) == item.maxPoints * 100
  {
  }
}
