/** The scoring curve: a rank in a user's list is worth Eurovision-style points. */
module Scoring {

  /** `rankToPoints(rank)`.  Ranks 1 and 2 lose two points per place from 12, ranks 3 to 10
      lose one point per place from 10, anything further down is worth nothing.  Ranks below
      1 are not guarded against and fall into the first branch. */
  function RankToPoints(rank: int): (p: int)
    ensures p >= 0
    ensures p == 0 <==> rank > 10
    ensures 0 < p <= 12 <==> 1 <= rank <= 10
  {
    if rank <= 2 then 12 - (rank - 1) * 2
    else if rank <= 10 then 10 - (rank - 1)
    else 0
  }

  /** The ten scoring places give the televoting scale 12, 10, 8, 7, 6, 5, 4, 3, 2, 1. */
  lemma EurovisionScale(rank: int)
    requires 1 <= rank <= 10
    ensures RankToPoints(rank) == [12, 10, 8, 7, 6, 5, 4, 3, 2, 1][rank - 1]
  {
  }

  /** A better place is always worth strictly more, down to the tenth. */
  lemma StrictlyDecreasing(better: int, worse: int)
    requires 1 <= better < worse <= 10
    ensures RankToPoints(better) > RankToPoints(worse)
  {
  }

  /** Ranks 0 and below are scored by the first formula: 14 for rank 0 and more further down. */
  lemma BelowFirstPlace(rank: int)
    requires rank <= 0
    ensures RankToPoints(rank) >= 14 && RankToPoints(rank) == 14 - 2 * rank
  {
  }

  /** Points handed out by the places `from` to `to`. */
  function PointsOfPlaces(from: int, to: int): int
    decreases to - from
  {
    if from > to then 0 else RankToPoints(from) + PointsOfPlaces(from + 1, to)
  }

  /** One complete top ten is worth 58 points. */
  lemma {:induction false} TopTenTotal()
    ensures PointsOfPlaces(1, 10) == 58
  {
    assert PointsOfPlaces(11, 10) == 0;
    assert PointsOfPlaces(6, 10) == 15;
  }
}
