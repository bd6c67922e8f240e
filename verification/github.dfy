/**
 * The fetch orchestrator: the tiered lookup behind `searchRepos` and the
 * fresh fetch `fetchAndCacheRepos`.
 *
 * The collaborators the source reaches over the network are parameters:
 * how each call into the persistent-store client ends (`ClientOutcome`),
 * what the stale lookup yields (`StaleOutcome`) and how the upstream search
 * request ends (`Upstream`). Every invocation of them is appended to `calls`,
 * and a background refresh is appended to `scheduled` instead of being run.
 */
module GitHub {
  import opened Wrappers
  import opened Scoring
  import opened Ranking
  import opened MemCache
  import opened PersistentCache

  /** How the upstream search request ends. */
  datatype Upstream =
    | Response(ok: bool, statusText: string, items: Option<seq<Repo>>)  // `items` absent from the body: None
    | Failure(message: string)  // the request or the body's parsing threw

  /** What the stale lookup of the persistent store yields. */
  datatype StaleOutcome = StaleHit(results: seq<SparkRepo>) | StaleMiss | StaleThrows

  /**
   * An invocation made by the orchestrator: `getCachedRepos` (`StoreRead`),
   * the stale lookup, the upstream search request, or `cacheRepos`
   * (`StoreWrite`). The two store functions are logged whenever they are
   * invoked, even when no client is configured and they return before
   * reaching it.
   */
  datatype Call =
    | StoreRead(topic: string)
    | StaleRead(topic: string)
    | UpstreamSearch(topic: string)
    | StoreWrite(topic: string)

  /** How each collaborator behaves during one request. */
  datatype Collaborators = Collaborators(
    storeRead: ClientOutcome,
    staleRead: StaleOutcome,
    upstream: Upstream,
    storeWrite: ClientOutcome)

  /**
   * Everything a request can change: the in-process cache, the persistent
   * table, the log of collaborator calls and the scheduled refreshes.
   */
  datatype World = World(memory: CacheState, rows: map<string, Row>, calls: seq<Call>, scheduled: seq<string>)

  const ErrorPrefix: string := "GitHub API error: "

  /** What `fetchAndCacheRepos` returns or throws, given how the upstream request ends. */
  function FetchResult(upstream: Upstream, now: int): (r: Result<seq<SparkRepo>>)
    ensures r.Ok? <==> upstream.Response? && upstream.ok
    ensures upstream.Response? && !upstream.ok ==> r == Err(ErrorPrefix + upstream.statusText)
    ensures upstream.Failure? ==> r == Err(upstream.message)
    ensures upstream.Response? && upstream.ok && upstream.items.None? ==> r == Ok([])
    ensures r.Ok? ==> SortedDesc(r.value)
    ensures r.Ok? ==> forall i :: 0 <= i < |r.value| ==> r.value[i].repo.stargazersCount > MinStars
    ensures upstream.Response? && upstream.ok ==>
      var items := if upstream.items.Some? then upstream.items.value else [];
      && multiset(r.value) == multiset(Scored(Qualifying(items), now))
      && (forall i :: 0 <= i < |r.value| ==> r.value[i] == Rank(r.value[i].repo, now))
      && (forall v :: WithScore(r.value, v) == WithScore(Scored(Qualifying(items), now), v))
  {
    match upstream
    case Failure(message) => Err(message)
    case Response(ok, statusText, items) =>
      if !ok then Err(ErrorPrefix + statusText)
      else Ok(RankResults(if items.Some? then items.value else [], now))
  }

  /** Only a non-empty result list is written to the caches. */
  predicate Cacheable(r: Result<seq<SparkRepo>>)
  {
    r.Ok? && |r.value| > 0
  }

  /** The request `fetchAndCacheRepos(topic)`: its result and the world after it. */
  function Fetch(w: World, configured: bool, topic: string, now: int, upstream: Upstream, storeWrite: ClientOutcome)
    : (World, Result<seq<SparkRepo>>)
    requires WellFormed(w.memory)
  {
    var r := FetchResult(upstream, now);
    var w1 := w.(calls := w.calls + [UpstreamSearch(topic)]);
    if Cacheable(r) then
      (w1.(memory := AfterSet(w.memory, topic, r.value, now),
           rows := WriteRows(configured, w.rows, topic, r.value, now, storeWrite),
           calls := w1.calls + [StoreWrite(topic)]),
       r)
    else (w1, r)
  }

  /** The request `searchRepos(topic, useStale)`: its result and the world after it. */
  function Search(w: World, configured: bool, topic: string, useStale: bool, now: int, env: Collaborators)
    : (World, Result<seq<SparkRepo>>)
    requires WellFormed(w.memory)
  {
    var mem := GetResult(w.memory, topic, now);
    if mem.Some? then (w, Ok(mem.value))
    else
      var w1 := w.(memory := AfterGet(w.memory, topic, now), calls := w.calls + [StoreRead(topic)]);
      var hit := ReadFresh(configured, w.rows, topic, now, env.storeRead);
      if hit.Some? then (w1.(memory := AfterSet(w1.memory, topic, hit.value, now)), Ok(hit.value))
      else
        var w2 := if useStale then w1.(calls := w1.calls + [StaleRead(topic)]) else w1;
        if useStale && env.staleRead.StaleHit? then
          (w2.(scheduled := w2.scheduled + [topic]), Ok(env.staleRead.results))
        else Fetch(w2, configured, topic, now, env.upstream, env.storeWrite)
  }

  /** An in-process hit returns the cached list and consults and changes nothing. */
  lemma MemoryHitConsultsNothing(w: World, configured: bool, topic: string, useStale: bool, now: int,
                                 env: Collaborators)
    requires WellFormed(w.memory)
    requires GetResult(w.memory, topic, now).Some?
    ensures Search(w, configured, topic, useStale, now, env) == (w, Ok(w.memory.entries[topic].data))
  {
  }

  /**
   * A fresh persistent hit is returned unchanged and copied into the
   * in-process cache stamped with the current instant; nothing is written
   * to the table and upstream is not called.
   */
  lemma FreshHitIsPromoted(w: World, configured: bool, topic: string, useStale: bool, now: int, env: Collaborators)
    requires WellFormed(w.memory)
    requires GetResult(w.memory, topic, now).None?
    requires ReadFresh(configured, w.rows, topic, now, env.storeRead).Some?
    ensures var (w', r) := Search(w, configured, topic, useStale, now, env);
      && r == Ok(w.rows[topic].results)
      && w'.memory.entries[topic] == CacheEntry(w.rows[topic].results, now)
      && w'.memory == AfterSet(AfterGet(w.memory, topic, now), topic, w.rows[topic].results, now)
      && w'.rows == w.rows
      && w'.calls == w.calls + [StoreRead(topic)]
      && w'.scheduled == w.scheduled
  {
    SetWrites(AfterGet(w.memory, topic, now), topic, w.rows[topic].results, now);
  }

  /**
   * A stale hit is consulted only when `useStale` is set and the fresh read
   * missed; it is returned as it is and schedules exactly one refresh of the
   * topic.
   */
  lemma StaleHitSchedulesOneRefresh(w: World, configured: bool, topic: string, now: int, env: Collaborators)
    requires WellFormed(w.memory)
    requires GetResult(w.memory, topic, now).None?
    requires ReadFresh(configured, w.rows, topic, now, env.storeRead).None?
    requires env.staleRead.StaleHit?
    ensures var (w', r) := Search(w, configured, topic, true, now, env);
      && r == Ok(env.staleRead.results)
      && w'.scheduled == w.scheduled + [topic]
      && w'.calls == w.calls + [StoreRead(topic), StaleRead(topic)]
      && w'.rows == w.rows
  {
  }

  /**
   * When every tier misses, or the stale lookup throws, the request is a
   * fresh fetch: a non-empty list is written through to both tiers, and an
   * empty list or an error reaches the caller and writes nothing.
   */
  lemma MissFetches(w: World, configured: bool, topic: string, useStale: bool, now: int, env: Collaborators)
    requires WellFormed(w.memory)
    requires GetResult(w.memory, topic, now).None?
    requires ReadFresh(configured, w.rows, topic, now, env.storeRead).None?
    requires !(useStale && env.staleRead.StaleHit?)
    ensures var (w', r) := Search(w, configured, topic, useStale, now, env);
      && r == FetchResult(env.upstream, now)
      && w'.calls == w.calls + [StoreRead(topic)] + (if useStale then [StaleRead(topic)] else [])
                     + [UpstreamSearch(topic)] + (if Cacheable(r) then [StoreWrite(topic)] else [])
      && w'.scheduled == w.scheduled
      && (Cacheable(r) ==>
            && w'.memory == AfterSet(AfterGet(w.memory, topic, now), topic, r.value, now)
            && w'.rows == WriteRows(configured, w.rows, topic, r.value, now, env.storeWrite))
      && (!Cacheable(r) ==> w'.rows == w.rows && w'.memory == AfterGet(w.memory, topic, now))
  {
    var w1 := w.(memory := AfterGet(w.memory, topic, now), calls := w.calls + [StoreRead(topic)]);
    var w2 := if useStale then w1.(calls := w1.calls + [StaleRead(topic)]) else w1;
    assert Search(w, configured, topic, useStale, now, env)
        == Fetch(w2, configured, topic, now, env.upstream, env.storeWrite);
    assert w2.calls == w.calls + [StoreRead(topic)] + (if useStale then [StaleRead(topic)] else []);
  }

  /**
   * A fresh fetch writes both tiers if and only if its result is a
   * non-empty list; an empty list is returned but never cached.
   */
  lemma WrittenIffNonEmpty(w: World, configured: bool, topic: string, now: int, upstream: Upstream,
                           storeWrite: ClientOutcome)
    requires WellFormed(w.memory)
    ensures var (w', r) := Fetch(w, configured, topic, now, upstream, storeWrite);
      && w'.calls == w.calls + [UpstreamSearch(topic)] + (if r.Ok? && r.value != [] then [StoreWrite(topic)] else [])
      && (r.Ok? && r.value != [] ==> GetResult(w'.memory, topic, now) == Some(r.value))
      && (r.Ok? && r.value != [] ==> w'.rows == WriteRows(configured, w.rows, topic, r.value, now, storeWrite))
      && (!(r.Ok? && r.value != []) ==> w'.memory == w.memory && w'.rows == w.rows)
  {
  }

  /** The request handler with its two cache tiers. */
  class Searcher {
    const memory: MemoryCache
    const store: Store
    var calls: seq<Call>
    var scheduled: seq<string>

    ghost predicate Valid()
      reads this, memory
    {
      memory.Valid()
    }

    /** The state a request can change. */
    function Snapshot(): World
      reads this, memory, store
    {
      World(memory.State(), store.rows, calls, scheduled)
    }

    constructor (configured: bool)
      ensures Valid() && fresh(memory) && fresh(store)
      ensures Snapshot() == World(Empty(), map[], [], []) && store.configured == configured
    {
      memory := new MemoryCache();
      store := new Store(configured);
      calls := [];
      scheduled := [];
    }

    /**
     * Queries upstream, ranks the items, and writes a non-empty result
     * through to both tiers. An upstream failure is returned as `Err`.
     */
    method FetchAndCacheRepos(topic: string, now: int, upstream: Upstream, storeWrite: ClientOutcome)
      returns (r: Result<seq<SparkRepo>>)
      requires Valid()
      modifies this, memory, store
      ensures Valid()
      ensures (Snapshot(), r) == Fetch(old(Snapshot()), store.configured, topic, now, upstream, storeWrite)
    {
      calls := calls + [UpstreamSearch(topic)];
      var items: seq<Repo>;
      match upstream {
        case Failure(message) =>
          return Err(message);
        case Response(ok, statusText, body) =>
          if !ok {
            return Err(ErrorPrefix + statusText);
          }
          items := if body.Some? then body.value else [];
      }
      var results := RankResults(items, now);
      assert FetchResult(upstream, now) == Ok(results);
      if |results| > 0 {
        memory.Set(topic, results, now);
        calls := calls + [StoreWrite(topic)];
        store.CacheRepos(topic, results, now, storeWrite);
      }
      return Ok(results);
    }

    /**
     * Serves `topic` from the first tier that has it: the in-process cache,
     * then a fresh row of the persistent store, then (only when `useStale`)
     * the stale lookup, whose hit also schedules one background refresh;
     * otherwise a fresh fetch.
     */
    method SearchRepos(topic: string, useStale: bool, now: int, env: Collaborators)
      returns (r: Result<seq<SparkRepo>>)
      requires Valid()
      modifies this, memory, store
      ensures Valid()
      ensures (Snapshot(), r) == Search(old(Snapshot()), store.configured, topic, useStale, now, env)
    {
      var memCached := memory.Get(topic, now);
      if memCached.Some? {
        return Ok(memCached.value);
      }
      calls := calls + [StoreRead(topic)];
      var dbCached := store.GetCachedRepos(topic, now, env.storeRead);
      if dbCached.Some? {
        memory.Set(topic, dbCached.value, now);
        return Ok(dbCached.value);
      }
      if useStale {
        calls := calls + [StaleRead(topic)];
        match env.staleRead {
          case StaleHit(results) =>
            scheduled := scheduled + [topic];
            return Ok(results);
          case StaleMiss =>
          case StaleThrows =>  // caught and logged; falls through to a fresh fetch
        }
      }
      r := FetchAndCacheRepos(topic, now, env.upstream, env.storeWrite);
    }
  }
}
