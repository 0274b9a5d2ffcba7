/** User.swift: the member record, its level name and its progress towards
    the next level. */
module UserModel {
  import opened Wrappers
  import opened Constants
  import Badges

  /** A member. `id` and `joinedDate` default to a fresh UUID and the
      current time in the source, so here the caller supplies them; every
      other default is the source's. Dates are seconds since the epoch. */
  datatype User = User(
    id: string,
    name: string,
    email: string,
    totalESGScore: int := 0,
    badges: seq<Badges.Badge> := [],
    avatar: Option<string> := None,
    studentID: Option<string> := None,
    faculty: Option<string> := None,
    joinedDate: int,
    environmentalScore: int := 0,
    socialScore: int := 0,
    governanceScore: int := 0,
    eventsAttended: int := 0,
    eventsCompleted: int := 0,
    currentStreak: int := 0,
    longestStreak: int := 0)

  /** A user created with only the required arguments starts from nothing. */
  lemma InitDefaults(id: string, name: string, email: string, joined: int)
    ensures var u := User(id, name, email, joinedDate := joined);
      && u.totalESGScore == 0 && u.badges == [] && u.avatar == None
      && u.studentID == None && u.faculty == None
      && u.environmentalScore == 0 && u.socialScore == 0 && u.governanceScore == 0
      && u.eventsAttended == 0 && u.eventsCompleted == 0
      && u.currentStreak == 0 && u.longestStreak == 0
  {
  }

  /** Creating a user checks nothing: the total need not be the sum of the
      three category scores, and scores may be negative. */
  lemma InitDoesNotEnforceScoreSum()
    ensures var u := User("u", "n", "e", totalESGScore := -5, joinedDate := 0, socialScore := 7);
      u.totalESGScore != u.environmentalScore + u.socialScore + u.governanceScore
  {
  }

  /** `getUserLevel`. For a non-negative score it is the name of the band of
      the level table that the score lies in; a negative score matches none
      of the source's ranges and falls through to the last name. */
  function UserLevel(u: User): (name: string)
    ensures name in LevelNames
    ensures u.totalESGScore >= 0 ==> name == LevelNames[LevelIndex(u.totalESGScore)]
    ensures u.totalESGScore < 0 ==> name == "Legend"
  {
    var score := u.totalESGScore;
    if 0 <= score < 100 then "Beginner"
    else if 100 <= score < 300 then "Activist"
    else if 300 <= score < 600 then "Champion"
    else if 600 <= score < 1000 then "Leader"
    else "Legend"
  }

  /** The thresholds `getProgressToNextLevel` iterates over. */
  const ProgressLevels: seq<int> := [0, 100, 300, 600, 1000, 2000]

  /** The value `getProgressToNextLevel` returns, as an exact rational. For
      a score below 2000 it is the fraction of its band of the level table
      already covered (the last band counted as ending at 2000 here, although
      it has no upper end as a level); from 2000 on it is exactly 1; a
      negative score is measured from 0 in the first band and gives a
      negative fraction, which is not clamped. */
  function Progress(score: int): (p: real)
    ensures 0 <= score < 2000 ==>
      var k := LevelIndex(score);
      p == (score - PointsPerLevel[k]) as real / (PointsPerLevel[k + 1] - PointsPerLevel[k]) as real
    ensures 0 <= score < 2000 ==> 0.0 <= p < 1.0
    ensures score >= 2000 ==> p == 1.0
    ensures score < 0 ==> p == score as real / 100.0 && p < 0.0
  {
    if score < 100 then score as real / 100.0
    else if score < 300 then (score - 100) as real / 200.0
    else if score < 600 then (score - 300) as real / 300.0
    else if score < 1000 then (score - 600) as real / 400.0
    else if score < 2000 then (score - 1000) as real / 1000.0
    else 1.0
  }

  /** `getProgressToNextLevel`: the first band whose upper threshold the
      score is below decides the fraction. */
  method ProgressToNextLevel(u: User) returns (p: real)
    ensures p == Progress(u.totalESGScore)
  {
    var levels := ProgressLevels;
    var score := u.totalESGScore;
    for i := 0 to |levels| - 1
      invariant i > 0 ==> score >= levels[i]
    {
      if score < levels[i + 1] {
        var current := score - levels[i];
        var total := levels[i + 1] - levels[i];
        return current as real / total as real;
      }
    }
    return 1.0;
  }

  /** The progress table is the level table of `AppConfig`, and each band's
      lowest score gets that band's name. */
  lemma LevelTablesAgree()
    ensures ProgressLevels == PointsPerLevel
    ensures forall k :: 0 <= k < |LevelNames| ==>
      UserLevel(User("u", "n", "e", totalESGScore := PointsPerLevel[k], joinedDate := 0)) == LevelNames[k]
  {
  }

  /** Scores from 1000 to 1999 already have the top level name while their
      progress is still below 1: the level table ends at 1000, the progress
      table at 2000. */
  lemma LegendBeforeFullProgress(u: User)
    requires 1000 <= u.totalESGScore < 2000
    ensures UserLevel(u) == "Legend" && Progress(u.totalESGScore) < 1.0
  {
  }

  /** The mock user of the authentication service, with 450 points, is a
      Champion half-way to Leader. */
  lemma MockUserScore(u: User)
    requires u.totalESGScore == 450
    ensures UserLevel(u) == "Champion" && Progress(u.totalESGScore) == 0.5
  {
  }
}
