/**
 * The pure part of a fresh fetch: keep the repositories with more than 50
 * stars, attach both scores, and order by spark score, highest first, with a
 * stable sort (equal scores keep their upstream order).
 */
module Ranking {
  import opened Scoring

  /** Repositories with this many stars or fewer are dropped. */
  const MinStars: int := 50

  /** An item as the filter keeps it: alone if it has more than `MinStars` stars, else nothing. */
  function Kept(x: Repo): seq<Repo>
  {
    if x.stargazersCount > MinStars then [x] else []
  }

  /** The upstream items with more than `MinStars` stars, in upstream order. */
  function Qualifying(items: seq<Repo>): (r: seq<Repo>)
    ensures forall i :: 0 <= i < |r| ==> r[i].stargazersCount > MinStars
    ensures forall x :: x in items && x.stargazersCount > MinStars ==> x in r
    ensures multiset(r) <= multiset(items)
  {
    if items == [] then []
    else
      assert items == [items[0]] + items[1..];
      Kept(items[0]) + Qualifying(items[1..])
  }

  /**
   * The filter keeps every copy of a qualifying item: each repository occurs
   * in the result as often as upstream if it has more than `MinStars` stars,
   * and not at all otherwise.
   */
  lemma {:induction false} QualifyingCounts(items: seq<Repo>)
    ensures forall x :: multiset(Qualifying(items))[x] == if x.stargazersCount > MinStars then multiset(items)[x] else 0
  {
    if items != [] {
      var head, tail := items[0], items[1..];
      QualifyingCounts(tail);
      assert multiset(items) == multiset{head} + multiset(tail) by {
        assert items == [head] + tail;
      }
      assert multiset(Qualifying(items)) == multiset(Kept(head)) + multiset(Qualifying(tail));
    }
  }

  lemma ConcatAssoc<T>(x: seq<T>, y: seq<T>, z: seq<T>)
    ensures x + (y + z) == (x + y) + z
  {
  }

  /** Filtering a non-empty sequence followed by another one peels off its head. */
  lemma QualifyingHead(a: seq<Repo>, b: seq<Repo>)
    requires a != []
    ensures Qualifying(a + b) == Kept(a[0]) + Qualifying(a[1..] + b)
  {
    assert (a + b)[0] == a[0];
    assert (a + b)[1..] == a[1..] + b;
  }

  /**
   * The filter keeps upstream order: filtering a concatenation is the
   * concatenation of the filtered parts.
   */
  lemma {:induction false} QualifyingAppend(a: seq<Repo>, b: seq<Repo>)
    ensures Qualifying(a + b) == Qualifying(a) + Qualifying(b)
  {
    if a == [] {
      assert a + b == b;
    } else {
      QualifyingHead(a, b);
      QualifyingAppend(a[1..], b);
      QualifyingHead(a, []);
      assert a + [] == a && a[1..] + [] == a[1..];
      ConcatAssoc(Kept(a[0]), Qualifying(a[1..]), Qualifying(b));
    }
  }

  /** A repository with its two scores attached. */
  function Rank(repo: Repo, now: int): SparkRepo
  {
    SparkRepo(repo, CalculateSparkScore(repo, now), CalculateGrowth(repo, now))
  }

  /** Each repository scored, in the same order. */
  function Scored(repos: seq<Repo>, now: int): seq<SparkRepo>
  {
    seq(|repos|, i requires 0 <= i < |repos| => Rank(repos[i], now))
  }

  /** Non-increasing by spark score. */
  predicate SortedDesc(s: seq<SparkRepo>)
  {
    forall i, j :: 0 <= i < j < |s| ==> s[i].sparkScore >= s[j].sparkScore
  }

  /** The elements of `s` whose spark score is `v`, in the order of `s`. */
  function WithScore(s: seq<SparkRepo>, v: real): seq<SparkRepo>
  {
    if s == [] then []
    else (if s[0].sparkScore == v then [s[0]] else []) + WithScore(s[1..], v)
  }

  /** A sorted sequence stays sorted when an element no lower than its head is put in front. */
  lemma ConsSorted(a: SparkRepo, t: seq<SparkRepo>)
    requires SortedDesc(t)
    requires t == [] || a.sparkScore >= t[0].sparkScore
    ensures SortedDesc([a] + t)
  {
    var r := [a] + t;
    forall i, j | 0 <= i < j < |r| ensures r[i].sparkScore >= r[j].sparkScore {
      if i == 0 && j > 1 {
        assert t[0].sparkScore >= t[j - 1].sparkScore;
      }
    }
  }

  /**
   * Puts `x` into the sorted `s` before the first element whose score is
   * not higher than its own.
   */
  function Insert(x: SparkRepo, s: seq<SparkRepo>): (r: seq<SparkRepo>)
    requires SortedDesc(s)
    ensures |r| == |s| + 1
    ensures r[0] == if s == [] || x.sparkScore >= s[0].sparkScore then x else s[0]
    ensures SortedDesc(r)
  {
    if s == [] || x.sparkScore >= s[0].sparkScore then
      ConsSorted(x, s);
      [x] + s
    else
      var tail := s[1..];
      assert SortedDesc(tail);
      var rest := Insert(x, tail);
      assert rest[0] == x || rest[0] == tail[0];
      ConsSorted(s[0], rest);
      [s[0]] + rest
  }

  /** `Insert` adds `x` and loses nothing. */
  lemma {:induction false} InsertPermutes(x: SparkRepo, s: seq<SparkRepo>)
    requires SortedDesc(s)
    ensures multiset(Insert(x, s)) == multiset(s) + multiset{x}
  {
    if s != [] && x.sparkScore < s[0].sparkScore {
      var tail := s[1..];
      assert SortedDesc(tail);
      var rest := Insert(x, tail);
      calc {
        multiset(Insert(x, s));
        { assert Insert(x, s) == [s[0]] + rest; }
        multiset([s[0]] + rest);
        multiset{s[0]} + multiset(rest);
        { InsertPermutes(x, tail); }
        multiset{s[0]} + multiset(tail) + multiset{x};
        { assert s == [s[0]] + tail; }
        multiset(s) + multiset{x};
      }
    }
  }

  /** Insertion sort, highest spark score first. */
  function SortByScore(s: seq<SparkRepo>): (r: seq<SparkRepo>)
    ensures SortedDesc(r)
    ensures multiset(r) == multiset(s)
  {
    if s == [] then []
    else
      assert s == [s[0]] + s[1..];
      InsertPermutes(s[0], SortByScore(s[1..]));
      Insert(s[0], SortByScore(s[1..]))
  }

  /** `WithScore` of a sequence with a known head. */
  lemma WithScoreCons(a: SparkRepo, t: seq<SparkRepo>, v: real)
    ensures WithScore([a] + t, v) == (if a.sparkScore == v then [a] else []) + WithScore(t, v)
  {
    assert ([a] + t)[1..] == t;
  }

  /** Inserting `x` puts it first among the elements that share its score. */
  lemma {:induction false} InsertWithScore(x: SparkRepo, s: seq<SparkRepo>, v: real)
    requires SortedDesc(s)
    ensures WithScore(Insert(x, s), v) == (if x.sparkScore == v then [x] else []) + WithScore(s, v)
  {
    if s == [] || x.sparkScore >= s[0].sparkScore {
      WithScoreCons(x, s, v);
    } else {
      var tail := s[1..];
      var rest := Insert(x, tail);
      var hx := if x.sparkScore == v then [x] else [];
      var h0 := if s[0].sparkScore == v then [s[0]] else [];
      // `x` scores below `s[0]`, so at most one of the two contributes.
      assert h0 + hx == hx + h0 by {
        assert hx == [] || h0 == [];
      }
      calc {
        WithScore(Insert(x, s), v);
        { assert Insert(x, s) == [s[0]] + rest; WithScoreCons(s[0], rest, v); }
        h0 + WithScore(rest, v);
        { InsertWithScore(x, tail, v); }
        h0 + (hx + WithScore(tail, v));
        (h0 + hx) + WithScore(tail, v);
        hx + (h0 + WithScore(tail, v));
        { assert s == [s[0]] + tail; WithScoreCons(s[0], tail, v); }
        hx + WithScore(s, v);
      }
    }
  }

  /** The sort is stable: for every score, the elements with it keep their order. */
  lemma {:induction false} SortIsStable(s: seq<SparkRepo>, v: real)
    ensures WithScore(SortByScore(s), v) == WithScore(s, v)
  {
    if s != [] {
      SortIsStable(s[1..], v);
      InsertWithScore(s[0], SortByScore(s[1..]), v);
    }
  }

  /** Every element of a scored list is a qualifying repository with its own scores. */
  lemma ScoredMember(repos: seq<Repo>, now: int, y: SparkRepo)
    requires y in Scored(repos, now)
    ensures y.repo in repos && y == Rank(y.repo, now)
  {
    var scored := Scored(repos, now);
    var j :| 0 <= j < |scored| && scored[j] == y;
    assert scored[j] == Rank(repos[j], now);
  }

  /** A permutation of a scored list of qualifying repositories holds only such repositories, each with its own scores. */
  lemma PermutedScored(repos: seq<Repo>, now: int, r: seq<SparkRepo>)
    requires forall i :: 0 <= i < |repos| ==> repos[i].stargazersCount > MinStars
    requires multiset(r) == multiset(Scored(repos, now))
    ensures forall i :: 0 <= i < |r| ==> r[i].repo.stargazersCount > MinStars && r[i] == Rank(r[i].repo, now)
  {
    forall i | 0 <= i < |r|
      ensures r[i].repo.stargazersCount > MinStars && r[i] == Rank(r[i].repo, now)
    {
      assert r[i] in multiset(Scored(repos, now));
      ScoredMember(repos, now, r[i]);
    }
  }

  /**
   * The result list of a fresh fetch, before caching: the qualifying items,
   * scored, sorted by spark score, highest first.
   */
  function RankResults(items: seq<Repo>, now: int): (r: seq<SparkRepo>)
    ensures forall i :: 0 <= i < |r| ==> r[i].repo.stargazersCount > MinStars
    ensures forall i :: 0 <= i < |r| ==> r[i] == Rank(r[i].repo, now)
    ensures multiset(r) == multiset(Scored(Qualifying(items), now))
    ensures SortedDesc(r)
    ensures forall v :: WithScore(r, v) == WithScore(Scored(Qualifying(items), now), v)
  {
    var qualifying := Qualifying(items);
    var scored := Scored(qualifying, now);
    var r := SortByScore(scored);
    PermutedScored(qualifying, now, r);
    forall v ensures WithScore(r, v) == WithScore(scored, v) {
      SortIsStable(scored, v);
    }
    r
  }
}
