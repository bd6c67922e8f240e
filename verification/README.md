# velocityhunt search core, modelled in Dafny

This project models the server-side search pipeline of velocityhunt. The
pipeline finds GitHub repositories that are new and growing fast ("sparks")
for a search topic, scores and ranks them, and serves them through two cache
tiers.

- `scoring.dfy` (module `Scoring`): the repository record, its ranked form
  and the two scores. The spark score is `(2·stars + forks) / daysOld` times
  the inactivity decay `1 / (1 + daysSinceUpdate / 30)`, rounded to a tenth.
  The growth percentage is `stars / daysOld · 100`, times 1.2 when the
  repository was updated less than three days ago, rounded to an integer.
  `lib/github.ts:115-158` is a verbatim copy of `lib/scoring.ts:26-69`; both
  are modelled by the same functions.
- `ranking.dfy` (module `Ranking`): the pure part of a fresh fetch
  (`lib/github.ts:97-104`). It keeps the items with more than 50 stars,
  attaches both scores, and sorts by spark score, highest first. The sort is
  stable, as JavaScript's `Array.prototype.sort` is.
- `cache.dfy` (module `MemCache`): the in-process cache `MemoryCache`. It
  holds at most 100 topics, each for 6 hours, unless its oldest key is `""`
  (see below). The JavaScript `Map` is
  modelled by the key sequence `order` (insertion order) and the map
  `entries`. The pure functions `GetResult`, `AfterGet` and `AfterSet` state
  what `get` and `set` return and leave behind. The class methods are proved
  equal to them.
- `supabase.dfy` (module `PersistentCache`): the
  `repo_cache` table as a map from topic to `(results, updatedAt)`. Topic is
  the table's primary key (`lib/db/schema.ts:5`). `ReadFresh` and
  `WriteRows` state the best-effort read and upsert. The class `Store`
  implements them.
- `github.dfy` (module `GitHub`): `searchRepos` and `fetchAndCacheRepos` as
  methods of the class `Searcher`. They are proved equal to the functions
  `Search` and `Fetch` over a `World`. A `World` holds both caches, the log of
  collaborator calls and the log of scheduled background refreshes. Lemmas
  about `Search` and `Fetch` state the tier order and the write-through rule.
- `wrappers.dfy` (module `Wrappers`): `Option` and `Result`.

Instants are integer milliseconds and `now` is a parameter. The scoring
arithmetic is exact (`real`), and JavaScript's `Math.round(x)` is
`Floor(x + 0.5)`. The collaborators outside the process are parameters:

- how each call into the persistent-store client ends (`Completes`,
  `ReportsError`, `Throws`);
- what the stale lookup yields;
- how the upstream search request ends.

`getStaleCachedRepos` is imported at `lib/github.ts:27` but `lib/supabase.ts`
does not define it. Its outcome is therefore uninterpreted: a hit with a list,
a miss, or an exception. An exception is caught at `lib/github.ts:58-60`. If
the import is undefined at run time, calling it throws, which is the
exception case. No code in the repository gives the stale read a time
window (such as 24 hours), so the model has none.

Behaviours of the code that the contracts make explicit:

- An entry exactly 6 hours old is still served by both tiers. The memory
  tier tests `> ttl` and the persistent tier tests `updatedAt < now − 6h`.
- A `set` into a full cache evicts the oldest key even when the key being
  written is already present. When that key is not the oldest one, and the
  oldest key is not `""`, the size then drops from 100 to 99. Rewriting the
  oldest key itself evicts it and appends it again, so the size stays 100.
- An overwritten key keeps its position in the eviction order, as a
  JavaScript `Map` keeps it (`SetOrder`).
- When the oldest key is `""`, the test `if (firstKey)` skips the eviction,
  and every `set` of a new key grows the cache past 100 (`SetSize`'s last
  clause). The only caller, `app/page.tsx:41`, never searches for
  `""`.
- A read never moves a key in the eviction order.
- The spark score does not strictly decrease with inactivity. The code
  rounds to tenths and clamps the inactivity at zero days, so the rounded
  score only does not increase
  (`SparkScoreDecaysWithInactivity`). The unrounded score strictly decreases
  (`ExactSparkScoreStrictlyDecays`).
- A repository with 300 stars and 50 forks, created 3 days ago and updated
  at `now`, scores 216.7 with no decay (`SampleScoresUpdatedNow`). The sample in
  `scripts/verify-debug.ts:29` was updated a tenth of a day ago, which gives
  215.9 (`SampleScores`). Both give a growth of 12000.

## Model

| member | source | states |
|---|---|---|
| `Scoring.Round` | lib/scoring.ts:44 | `Math.round(x)` is the integer within (x − 0.5, x + 0.5] |
| `Scoring.DaysOld` | lib/scoring.ts:35 | the age in days is at least 1; a repository created less than a day ago, or in the future, is exactly one day old; otherwise it is its real age |
| `Scoring.DaysSinceUpdate` | lib/scoring.ts:36 | days since the update are at least 0; an update at or after `now` counts as 0 days; otherwise it is the real interval |
| `Scoring.ActivityFactor` | lib/scoring.ts:42 | the decay lies in (0, 1], is 1 exactly at 0 days, and is the reciprocal of `1 + d/30` |
| `Scoring.ActivityFactorDecreasing` | lib/scoring.ts:42 | the decay strictly decreases as the days since the update grow |
| `Scoring.CalculateSparkScore` | lib/scoring.ts:26-45 | the score is a whole number of tenths, within 0.05 of the exact decayed score (halves rounded up), and non-negative for non-negative star and fork counts |
| `Scoring.SparkScoreDecaysWithInactivity` | lib/scoring.ts:39-44 | with the other inputs fixed, an earlier last update never gives a higher spark score |
| `Scoring.ExactSparkScoreStrictlyDecays` | lib/scoring.ts:39-42 | before rounding, an earlier last update gives a strictly lower score for a repository with stars or forks |
| `Scoring.RecentBoost` | lib/scoring.ts:63 | the boost is 1.2 exactly when the update is less than 3 days old, and 1.0 from exactly 3 days on |
| `Scoring.CalculateGrowth` | lib/scoring.ts:47-69 | the growth is the integer nearest to `stars/daysOld · 100 · boost` (halves up), and non-negative for non-negative stars |
| `Scoring.ScoresDependOnlyOnInputs` | lib/scoring.ts:26-69 | two repositories with equal stars, forks, creation and update instants get equal scores at the same `now` |
| `Scoring.SampleScores` | scripts/verify-debug.ts:29 | 300 stars, 50 forks, 3 days old, updated 0.1 day ago: growth 12000, spark score 215.9 |
| `Scoring.SampleScoresUpdatedNow` | lib/scoring.ts:26-69 | the same repository updated at `now`: growth 12000, spark score 216.7 |
| `Ranking.Qualifying` | lib/github.ts:98 | every kept item has more than 50 stars, every upstream item with more than 50 stars is kept, and nothing else is added |
| `Ranking.QualifyingCounts` | lib/github.ts:98 | each repository occurs in the filtered list exactly as often as upstream when it has more than 50 stars, and not at all otherwise |
| `Ranking.QualifyingAppend` | lib/github.ts:98 | filtering keeps upstream order: the filter of a concatenation is the concatenation of the filtered parts |
| `Ranking.InsertPermutes` | lib/github.ts:104 | inserting into the sorted prefix adds exactly the one element and loses none |
| `Ranking.SortByScore` | lib/github.ts:104 | the result is ordered by spark score, highest first, and is a permutation of the input |
| `Ranking.SortIsStable` | lib/github.ts:104 | for every score, the repositories with that score keep their input order |
| `Ranking.RankResults` | lib/github.ts:97-104 | every result has more than 50 stars and carries its own two scores; the results are a permutation of the scored qualifying items, sorted highest first, with ties in upstream order |
| `MemCache.GetResult` | lib/cache.ts:13-24 | `get` returns data exactly when the key is present and at most `ttl` old, and then it returns the stored data |
| `MemCache.AfterGet` | lib/cache.ts:14-21 | `get` of an expired entry deletes that key alone and the size drops by one; any other `get` changes nothing, not even the key order |
| `MemCache.AfterSet` | lib/cache.ts:26-37 | after `set`, the key order still lists every cached key exactly once |
| `MemCache.SetWrites` | lib/cache.ts:26-37 | after `set`, the key holds the new data stamped `now`, no other key is added, and every other key keeps its entry unless it was the one evicted |
| `MemCache.SetOrder` | lib/cache.ts:26-37 | after `set`, the key order is the old one, without the oldest key if it was evicted; a key still present keeps its position, and a new or just-evicted key is appended |
| `MemCache.SetSize` | lib/cache.ts:26-37 | the oldest key is evicted when the cache is full and that key is not `""`; the size stays within 100 from below 100 and never grows from a full cache whose oldest key is not `""`; it drops by one when a key other than the oldest is rewritten into such a cache; a new key grows it past 100 when `""` is the oldest key |
| `MemCache.FillInOrder` | lib/cache.ts:26-37 | writing up to 100 distinct keys into an empty cache evicts nothing and leaves them in the order written |
| `MemCache.EvictsFirstWritten` | lib/cache.ts:28-31 | writing 101 distinct keys into an empty cache, the first of them not `""`, evicts exactly the first one written and keeps all the others |
| `MemCache.SetThenGet` | lib/cache.ts:33-36 | a `get` at the instant of a `set` of the same key returns the data just written |
| `MemCache.MemoryCache.constructor` | lib/cache.ts:9 | a new cache is empty |
| `MemCache.MemoryCache.Get` | lib/cache.ts:13-24 | returns `GetResult` of the old contents and leaves `AfterGet` of them |
| `MemCache.MemoryCache.Set` | lib/cache.ts:26-37 | leaves `AfterSet` of the old contents |
| `MemCache.MemoryCache.Clear` | lib/cache.ts:39-41 | leaves the cache empty, so that every later `get` misses |
| `MemCache.MemoryCache.Size` | lib/cache.ts:43-45 | the number of entries equals the number of keys in insertion order |
| `PersistentCache.ReadFresh` | lib/supabase.ts:10-33 | a read returns a list exactly when the client is configured and completes, and the row exists and is at most 6 hours old; the list is the stored one |
| `PersistentCache.WriteRows` | lib/supabase.ts:35-53 | a completed upsert by a configured client replaces the row for the topic (results and instant together) and keeps every other row; any other outcome leaves the table as it was |
| `PersistentCache.ReadYourWrite` | lib/supabase.ts:41-45 | a completed read within 6 hours of a completed write of a topic returns the written list |
| `PersistentCache.Store.constructor` | lib/supabase.ts:7-8 | a new store has the given configuration and no rows |
| `PersistentCache.Store.GetCachedRepos` | lib/supabase.ts:10-33 | returns `ReadFresh` of the table and never changes it |
| `PersistentCache.Store.CacheRepos` | lib/supabase.ts:35-53 | leaves `WriteRows` of the old table |
| `GitHub.FetchResult` | lib/github.ts:84-104 | a non-ok response is the error `GitHub API error: <status text>`; a thrown request error propagates as it is; a body without items gives an empty list; a success is sorted, highest score first, and has only repositories with more than 50 stars; it is a permutation of the upstream items with more than 50 stars, each carrying its own two scores, with equal scores in upstream order |
| `GitHub.MemoryHitConsultsNothing` | lib/github.ts:32-36 | an in-process hit returns the cached list and makes no call and no change |
| `GitHub.FreshHitIsPromoted` | lib/github.ts:39-46 | a fresh persistent hit is returned unchanged and copied into the in-process cache stamped `now` (the cache becomes `AfterSet` of the cache after the missed `get`), the table is unchanged, and only the one store read is made |
| `GitHub.StaleHitSchedulesOneRefresh` | lib/github.ts:49-57 | with `useStale`, a stale hit after a fresh miss is returned as it is, schedules exactly one refresh, and makes only the store read and the stale lookup |
| `GitHub.MissFetches` | lib/github.ts:58-63 | when all tiers miss, or the stale lookup throws, the result is the fresh fetch's and nothing is scheduled; the calls are the store read, the stale lookup only when `useStale` is set, the upstream search, and the store write only for a non-empty list, in that order; a non-empty list leaves the in-process cache as `AfterSet` of the cache after the missed `get` and the table as `WriteRows` of the old one; an empty list or an upstream error reaches the caller and writes to neither tier |
| `GitHub.WrittenIffNonEmpty` | lib/github.ts:106-112 | a fetch writes both tiers exactly when its result is a non-empty list; the written list is then readable from the in-process cache, and the table becomes `WriteRows` of the old one with that list |
| `GitHub.Searcher.FetchAndCacheRepos` | lib/github.ts:66-113 | returns and leaves what `Fetch` gives for the old state |
| `GitHub.Searcher.SearchRepos` | lib/github.ts:30-64 | returns and leaves what `Search` gives for the old state |

## Left out

- The HTTP request itself is not modelled. This covers the token header, the
  query and URL building, and the "six months ago" date filter
  (`lib/github.ts:68-86`). These are network I/O and calendar calls. The
  upstream answer is a parameter.
- ISO-8601 parsing (`new Date(...)`) and `Date.now()` are not modelled.
  Instants are integers and `now` is a parameter. All clock reads within one
  request see the same `now`.
- IEEE-754 floating point and `NaN` from malformed dates are not modelled.
  The arithmetic is exact over `real`.
- The Supabase client, the Drizzle connection and the schema's other
  columns are not modelled (`lib/supabase.ts:1-8`, `lib/db/index.ts`). Only
  the key-value contract is kept. Whether the client could be created is the
  flag `Store.configured`.
- Asynchrony and concurrency are not modelled. The persistent write in a
  fetch is not awaited in the source; here it happens before the fetch
  returns. Racing requests are out of scope.
- The background refresh started on a stale hit is recorded in `scheduled`
  and is not run. Its outcome is unobservable to the caller.
- Logging (`console.log`, `console.error`) is not modelled.
- `getStaleCachedRepos` is not part of this model. Its result is an
  uninterpreted parameter (see above).
- The presentation layer, `app/`, `components/`, `next.config.ts` and
  `scripts/verify-debug.ts` are not part of this model. The script serves
  only as sample inputs.
- `MemCache.AfterGet`: the key order after deleting an expired key is given
  by the helper `Without` (the other keys in their old order). The
  postcondition itself states only the key set, the entries and the size.
