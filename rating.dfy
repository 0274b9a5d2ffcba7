/** Rating.swift: one leaderboard row and its medal. */
module RatingModel {
  import opened Wrappers

  /** A leaderboard row with the source's defaults (the default `id` is a
      fresh UUID, so the caller supplies it). Neither the rank nor the score
      is checked. */
  datatype Rating = Rating(
    id: string,
    userId: string,
    userName: string,
    userAvatar: Option<string> := None,
    rank: int,
    score: int,
    faculty: Option<string> := None,
    change: Option<int> := None)

  lemma InitDefaults(id: string, userId: string, userName: string, rank: int, score: int)
    ensures var r := Rating(id, userId, userName, rank := rank, score := score);
      r.rank == rank && r.score == score && r.userAvatar == None && r.faculty == None && r.change == None
  {
  }

  const GoldMedal := "\U{1F947}"
  const SilverMedal := "\U{1F948}"
  const BronzeMedal := "\U{1F949}"

  /** `getRankBadge`: a medal for each of the first three ranks, and the
      empty string for every other rank (zero and negative ranks included). */
  function RankBadge(r: Rating): (badge: string)
    ensures badge != "" <==> 1 <= r.rank <= 3
    ensures r.rank == 1 ==> badge == GoldMedal
    ensures r.rank == 2 ==> badge == SilverMedal
    ensures r.rank == 3 ==> badge == BronzeMedal
  {
    match r.rank
    case 1 => GoldMedal
    case 2 => SilverMedal
    case 3 => BronzeMedal
    case _ => ""
  }

  /** Different podium ranks get different medals. */
  lemma MedalsDistinct(r: Rating, s: Rating)
    requires 1 <= r.rank <= 3 && 1 <= s.rank <= 3
    requires RankBadge(r) == RankBadge(s)
    ensures r.rank == s.rank
  {
  }
}
