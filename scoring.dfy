/**
 * The score formula of the analyze route. `Math.log10` is a parameter
 * that is only assumed to be monotone on [1, ∞) with log10(1) = 0; the
 * factors 0.3 and 0.7 are exact reals, and `Math.round(x)` is ⌊x + 1/2⌋.
 */
module Scoring {

  /** What the score properties need of `Math.log10`. */
  ghost predicate LogLike(log10: real -> real) {
    && log10(1.0) == 0.0
    && forall x, y :: 1.0 <= x <= y ==> log10(x) <= log10(y)
  }

  /** Competition penalty: HIGH/높음 keeps 30%, MID/중간 keeps 70%, anything else 100%. */
  function CompetitionFactor(comp: string): (f: real)
    ensures 0.0 < f <= 1.0
  {
    if comp == "HIGH" || comp == "높음" then 0.3
    else if comp == "MID" || comp == "중간" then 0.7
    else 1.0
  }

  /** Seed bonus 10 at rank 0, top-suggestion bonus 20 at rank 1, top-tier bonus 5 at ranks up to 3. */
  function RankBonus(rank: int): int {
    (if rank == 0 then 10 else 0) + (if rank == 1 then 20 else 0) + (if rank <= 3 then 5 else 0)
  }

  /** The score before rounding. */
  function RawScore(vol: int, comp: string, rank: int, log10: real -> real): real {
    log10((vol + 1) as real) * 20.0 * CompetitionFactor(comp) + RankBonus(rank) as real
  }

  /** `Math.round`: the nearest integer, halves rounded up. */
  function Round(x: real): (r: int)
    ensures x - 0.5 < r as real <= x + 0.5
  {
    (x + 0.5).Floor
  }

  function Score(vol: int, comp: string, rank: int, log10: real -> real): int {
    Round(RawScore(vol, comp, rank, log10))
  }

  lemma RoundMonotone(x: real, y: real)
    requires x <= y
    ensures Round(x) <= Round(y)
  {
  }

  /** Shifting by a whole number shifts the rounded value by the same amount. */
  lemma RoundShift(x: real, n: int)
    ensures Round(x + n as real) == Round(x) + n
  {
    assert x + n as real + 0.5 == (x + 0.5) + n as real;
  }

  /** The logarithmic part is never negative for a volume of at least 0. */
  lemma VolumePartNonNegative(vol: int, log10: real -> real)
    requires LogLike(log10) && vol >= 0
    ensures log10((vol + 1) as real) >= 0.0
  {
    assert log10(1.0) <= log10((vol + 1) as real);
  }

  /** With volume and rank fixed, LOW ≥ MID ≥ HIGH (each label or its Korean form). */
  lemma ScoreCompetitionOrder(vol: int, rank: int, low: string, mid: string, high: string, log10: real -> real)
    requires LogLike(log10) && vol >= 0
    requires low !in {"HIGH", "높음", "MID", "중간"}
    requires mid in {"MID", "중간"}
    requires high in {"HIGH", "높음"}
    ensures Score(vol, low, rank, log10) >= Score(vol, mid, rank, log10) >= Score(vol, high, rank, log10)
  {
    var l := log10((vol + 1) as real);
    VolumePartNonNegative(vol, log10);
    assert l * 20.0 * 1.0 >= l * 20.0 * 0.7 >= l * 20.0 * 0.3;
    RoundMonotone(RawScore(vol, mid, rank, log10), RawScore(vol, low, rank, log10));
    RoundMonotone(RawScore(vol, high, rank, log10), RawScore(vol, mid, rank, log10));
  }

  /** With competition and rank fixed, a larger volume never lowers the score. */
  lemma ScoreVolumeMonotone(v1: int, v2: int, comp: string, rank: int, log10: real -> real)
    requires LogLike(log10) && 0 <= v1 <= v2
    ensures Score(v1, comp, rank, log10) <= Score(v2, comp, rank, log10)
  {
    var a, b := log10((v1 + 1) as real), log10((v2 + 1) as real);
    assert a <= b;
    var f := CompetitionFactor(comp);
    assert a * 20.0 * f <= b * 20.0 * f;
    RoundMonotone(RawScore(v1, comp, rank, log10), RawScore(v2, comp, rank, log10));
  }

  /** The seed outscores an otherwise identical candidate of rank 4 or more by exactly 15 points. */
  lemma SeedBonus(vol: int, comp: string, rank: int, log10: real -> real)
    requires rank >= 4
    ensures RawScore(vol, comp, 0, log10) == RawScore(vol, comp, rank, log10) + 15.0
    ensures Score(vol, comp, 0, log10) == Score(vol, comp, rank, log10) + 15
  {
    RoundShift(RawScore(vol, comp, rank, log10), 15);
  }

  /** Rank 1 earns the most bonus, then the seed, then ranks 2 and 3, then nothing. */
  lemma RankBonusOrder(rank: int)
    ensures RankBonus(1) == 25 && RankBonus(0) == 15
    ensures 2 <= rank <= 3 ==> RankBonus(rank) == 5
    ensures rank >= 4 ==> RankBonus(rank) == 0
  {
  }

  /** A volume of 0 is scored by its rank bonus alone. */
  lemma ZeroVolumeScore(comp: string, rank: int, log10: real -> real)
    requires LogLike(log10)
    ensures Score(0, comp, rank, log10) == RankBonus(rank)
  {
    RoundShift(0.0, RankBonus(rank));
  }
}
