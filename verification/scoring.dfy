/**
 * The scoring engine: a repository's spark score and growth percentage,
 * computed from its star and fork counts, its creation and last-update
 * instants and the current instant `now`.
 *
 * Instants are integer milliseconds since the epoch; the arithmetic is done
 * over exact reals, so the model has no floating-point rounding.
 */
module Scoring {

  /** The owner of a repository. */
  datatype Owner = Owner(login: string, avatarUrl: string)

  /** A repository record as the upstream search returns it. */
  datatype Repo = Repo(
    id: int,
    name: string,
    fullName: string,
    owner: Owner,
    htmlUrl: string,
    description: string,
    stargazersCount: int,
    forksCount: int,
    watchersCount: int,
    language: string,
    createdAt: int,
    updatedAt: int,
    pushedAt: int)

  /** A repository record extended with its two derived scores. */
  datatype SparkRepo = SparkRepo(repo: Repo, sparkScore: real, growthPercentage: int)

  /** Milliseconds in a day. */
  const DayMs: int := 1000 * 60 * 60 * 24

  /** JavaScript's `Math.round`: the nearest integer, halves rounded up. */
  function Round(x: real): (n: int)
    ensures x - 0.5 < n as real <= x + 0.5
  {
    (x + 0.5).Floor
  }

  /** Rounding never reverses the order of two values. */
  lemma RoundMonotone(x: real, y: real)
    requires x <= y
    ensures Round(x) <= Round(y)
  {
  }

  function Max(a: real, b: real): real { if a >= b then a else b }

  /** The number of (fractional) days from instant `from` to instant `to`. */
  function Days(from: int, to: int): real
  {
    (to - from) as real / DayMs as real
  }

  /** Age of the repository in days, never below one. */
  function DaysOld(repo: Repo, now: int): (d: real)
    ensures d >= 1.0
    ensures now - repo.createdAt <= DayMs ==> d == 1.0
    ensures now - repo.createdAt >= DayMs ==> d == Days(repo.createdAt, now)
  {
    Max(1.0, Days(repo.createdAt, now))
  }

  /** Days since the last update, never below zero. */
  function DaysSinceUpdate(repo: Repo, now: int): (d: real)
    ensures d >= 0.0
    ensures now <= repo.updatedAt ==> d == 0.0
    ensures now >= repo.updatedAt ==> d == Days(repo.updatedAt, now)
  {
    Max(0.0, Days(repo.updatedAt, now))
  }

  /** Stars count twice, forks once, spread over the repository's age. */
  function BaseScore(repo: Repo, now: int): real
  {
    (repo.stargazersCount * 2 + repo.forksCount) as real / DaysOld(repo, now)
  }

  /** The inactivity decay: one at zero days, halved after 30 days. */
  function ActivityFactor(daysSinceUpdate: real): (f: real)
    requires daysSinceUpdate >= 0.0
    ensures 0.0 < f <= 1.0
    ensures daysSinceUpdate == 0.0 <==> f == 1.0
    ensures f * (1.0 + daysSinceUpdate / 30.0) == 1.0
  {
    1.0 / (1.0 + daysSinceUpdate / 30.0)
  }

  /** The decay strictly weakens as inactivity grows. */
  lemma ActivityFactorDecreasing(d1: real, d2: real)
    requires 0.0 <= d1 < d2
    ensures ActivityFactor(d2) < ActivityFactor(d1)
  {
    var f1, f2 := ActivityFactor(d1), ActivityFactor(d2);
    var a1, a2 := 1.0 + d1 / 30.0, 1.0 + d2 / 30.0;
    assert f1 * a1 == 1.0 && f2 * a2 == 1.0;
    calc {
      f1 - f2;
      f1 * (f2 * a2) - f2 * (f1 * a1);
      f1 * f2 * (a2 - a1);
    }
    assert f1 * f2 > 0.0;
    assert f1 * f2 * (a2 - a1) > 0.0;
  }

  /** A real that is a whole number of tenths. */
  predicate IsTenth(x: real)
  {
    (x * 10.0).Floor as real == x * 10.0
  }

  /** The unrounded spark score. */
  function ExactSparkScore(repo: Repo, now: int): real
  {
    BaseScore(repo, now) * ActivityFactor(DaysSinceUpdate(repo, now))
  }

  /** The spark score: the exact score rounded to the nearest tenth. */
  function CalculateSparkScore(repo: Repo, now: int): (s: real)
    ensures IsTenth(s)
    ensures ExactSparkScore(repo, now) - 0.05 < s <= ExactSparkScore(repo, now) + 0.05
    ensures repo.stargazersCount >= 0 && repo.forksCount >= 0 ==> s >= 0.0
  {
    ExactSparkScoreSign(repo, now);
    var tenths := Round(ExactSparkScore(repo, now) * 10.0);
    assert tenths as real / 10.0 * 10.0 == tenths as real;
    tenths as real / 10.0
  }

  lemma ExactSparkScoreSign(repo: Repo, now: int)
    ensures repo.stargazersCount >= 0 && repo.forksCount >= 0 ==> ExactSparkScore(repo, now) >= 0.0
  {
    if repo.stargazersCount >= 0 && repo.forksCount >= 0 {
      var b, f := BaseScore(repo, now), ActivityFactor(DaysSinceUpdate(repo, now));
      assert b >= 0.0;
      assert b * f >= 0.0;
    }
  }

  /** A repository that has been inactive longer never scores higher. */
  lemma SparkScoreDecaysWithInactivity(repo: Repo, lastUpdate: int, now: int)
    requires repo.stargazersCount >= 0 && repo.forksCount >= 0
    requires lastUpdate <= repo.updatedAt
    ensures CalculateSparkScore(repo.(updatedAt := lastUpdate), now) <= CalculateSparkScore(repo, now)
  {
    var stale := repo.(updatedAt := lastUpdate);
    var d1, d2 := DaysSinceUpdate(repo, now), DaysSinceUpdate(stale, now);
    assert d1 <= d2;
    if d1 < d2 {
      ActivityFactorDecreasing(d1, d2);
    }
    var b := BaseScore(repo, now);
    assert BaseScore(stale, now) == b;
    assert b >= 0.0;
    assert b * ActivityFactor(d2) <= b * ActivityFactor(d1);
    RoundMonotone(ExactSparkScore(stale, now) * 10.0, ExactSparkScore(repo, now) * 10.0);
  }

  /**
   * Before rounding, the score strictly decreases with inactivity for a
   * repository with any stars or forks; rounding to tenths can merge two
   * such scores, which is why `SparkScoreDecaysWithInactivity` is not strict.
   */
  lemma ExactSparkScoreStrictlyDecays(repo: Repo, lastUpdate: int, now: int)
    requires repo.stargazersCount * 2 + repo.forksCount > 0
    requires lastUpdate < repo.updatedAt <= now
    ensures ExactSparkScore(repo.(updatedAt := lastUpdate), now) < ExactSparkScore(repo, now)
  {
    var stale := repo.(updatedAt := lastUpdate);
    var d1, d2 := DaysSinceUpdate(repo, now), DaysSinceUpdate(stale, now);
    assert d1 < d2;
    ActivityFactorDecreasing(d1, d2);
    var b := BaseScore(repo, now);
    assert BaseScore(stale, now) == b;
    assert b > 0.0;
    assert ExactSparkScore(stale, now) == b * ActivityFactor(d2);
    assert ExactSparkScore(repo, now) == b * ActivityFactor(d1);
  }

  /** Stars per day of age. */
  function Velocity(repo: Repo, now: int): real
  {
    repo.stargazersCount as real / DaysOld(repo, now)
  }

  /** A 20% boost for repositories updated in the last three days. */
  function RecentBoost(daysSinceUpdate: real): (b: real)
    ensures b == 1.2 <==> daysSinceUpdate < 3.0
    ensures b == 1.0 <==> daysSinceUpdate >= 3.0
  {
    if daysSinceUpdate < 3.0 then 1.2 else 1.0
  }

  /** The growth percentage: one star a day is 100%, rounded to an integer. */
  function CalculateGrowth(repo: Repo, now: int): (g: int)
    ensures var exact := Velocity(repo, now) * 100.0 * RecentBoost(DaysSinceUpdate(repo, now));
      exact - 0.5 < g as real <= exact + 0.5
    ensures repo.stargazersCount >= 0 ==> g >= 0
  {
    var exact := Velocity(repo, now) * 100.0 * RecentBoost(DaysSinceUpdate(repo, now));
    assert repo.stargazersCount >= 0 ==> exact >= 0.0;
    Round(exact)
  }

  /** The fields the two scores read. */
  function ScoreInputs(repo: Repo): (int, int, int, int)
  {
    (repo.stargazersCount, repo.forksCount, repo.createdAt, repo.updatedAt)
  }

  /** Both scores are determined by the star and fork counts, the two instants and `now`. */
  lemma ScoresDependOnlyOnInputs(a: Repo, b: Repo, now: int)
    requires ScoreInputs(a) == ScoreInputs(b)
    ensures CalculateSparkScore(a, now) == CalculateSparkScore(b, now)
    ensures CalculateGrowth(a, now) == CalculateGrowth(b, now)
  {
    assert a.stargazersCount == b.stargazersCount && a.forksCount == b.forksCount;
    assert DaysOld(a, now) == DaysOld(b, now);
    assert DaysSinceUpdate(a, now) == DaysSinceUpdate(b, now);
    assert ExactSparkScore(a, now) == ExactSparkScore(b, now);
    assert Velocity(a, now) == Velocity(b, now);
  }

  /**
   * The sample repository: 300 stars and 50 forks, created three days
   * ago and updated a tenth of a day ago.
   */
  lemma SampleScores(repo: Repo, now: int)
    requires repo.stargazersCount == 300 && repo.forksCount == 50
    requires repo.createdAt == now - 3 * DayMs && repo.updatedAt == now - DayMs / 10
    ensures CalculateGrowth(repo, now) == 12000
    ensures CalculateSparkScore(repo, now) == 215.9
  {
    assert DaysOld(repo, now) == 3.0;
    assert DaysSinceUpdate(repo, now) == 0.1;
    assert Velocity(repo, now) == 100.0;
    assert Round(12000.0) == 12000;
    var f := ActivityFactor(0.1);
    assert f == 300.0 / 301.0;
    assert ExactSparkScore(repo, now) * 10.0 == 650000.0 / 301.0;
    assert Round(650000.0 / 301.0) == 2159;
  }

  /** The same repository updated at the current instant: no decay at all. */
  lemma SampleScoresUpdatedNow(repo: Repo, now: int)
    requires repo.stargazersCount == 300 && repo.forksCount == 50
    requires repo.createdAt == now - 3 * DayMs && repo.updatedAt == now
    ensures CalculateGrowth(repo, now) == 12000
    ensures CalculateSparkScore(repo, now) == 216.7
  {
    assert DaysOld(repo, now) == 3.0;
    assert DaysSinceUpdate(repo, now) == 0.0;
    assert Velocity(repo, now) == 100.0;
    assert Round(12000.0) == 12000;
    assert ExactSparkScore(repo, now) * 10.0 == 6500.0 / 3.0;
    assert Round(6500.0 / 3.0) == 2167;
  }
}
