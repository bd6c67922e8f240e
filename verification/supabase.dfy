/**
 * The persistent cache: the `repo_cache` table, keyed by the search topic
 * (its primary key), each row holding a result list and the instant it was
 * written. It is best-effort: an unconfigured client, an error reported by
 * the client or an exception inside it all read as a miss or leave the
 * table as it was, and neither operation ever throws to its caller.
 */
module PersistentCache {
  import opened Wrappers
  import opened Scoring

  /** How long a row counts as fresh: six hours, in milliseconds. */
  const FreshWindow: int := 6 * 60 * 60 * 1000

  /** One row of the table (its key is the map key). */
  datatype Row = Row(results: seq<SparkRepo>, updatedAt: int)

  /** How one call into the client ends. */
  datatype ClientOutcome =
    | Completes      // the request ran; the answer reflects the table
    | ReportsError   // the client returned an `error` value
    | Throws         // the call raised an exception

  /** A row written at `updatedAt` is stale once it is written before `now` minus six hours. */
  predicate IsStale(updatedAt: int, now: int)
  {
    updatedAt < now - FreshWindow
  }

  /** What `getCachedRepos(topic)` returns at instant `now`. */
  function ReadFresh(configured: bool, rows: map<string, Row>, topic: string, now: int, outcome: ClientOutcome)
    : (r: Option<seq<SparkRepo>>)
    ensures r.Some? <==>
      configured && outcome == Completes && topic in rows && now - rows[topic].updatedAt <= FreshWindow
    ensures r.Some? ==> r.value == rows[topic].results
  {
    if !configured then None
    else match outcome
      case ReportsError => None
      case Throws => None
      case Completes =>
        if topic !in rows then None
        else if IsStale(rows[topic].updatedAt, now) then None
        else Some(rows[topic].results)
  }

  /** The table after `cacheRepos(topic, results)` at instant `now`. */
  function WriteRows(configured: bool, rows: map<string, Row>, topic: string, results: seq<SparkRepo>, now: int,
                     outcome: ClientOutcome): (r: map<string, Row>)
    ensures configured && outcome == Completes ==>
      && r.Keys == rows.Keys + {topic}
      && r[topic] == Row(results, now)
      && forall k :: k in rows && k != topic ==> r[k] == rows[k]
    ensures !(configured && outcome == Completes) ==> r == rows
  {
    if configured && outcome == Completes then rows[topic := Row(results, now)] else rows
  }

  /** A completed write is read back by any completed read within six hours. */
  lemma ReadYourWrite(rows: map<string, Row>, topic: string, results: seq<SparkRepo>, written: int, later: int)
    requires written <= later <= written + FreshWindow
    ensures ReadFresh(true, WriteRows(true, rows, topic, results, written, Completes), topic, later, Completes)
      == Some(results)
  {
  }

  /** The table. `configured` says whether the client could be created at start-up. */
  class Store {
    const configured: bool
    var rows: map<string, Row>

    constructor (configured: bool)
      ensures this.configured == configured && rows == map[]
    {
      this.configured := configured;
      rows := map[];
    }

    /** The fresh result list stored for `topic`, if any; reads never delete a row. */
    method GetCachedRepos(topic: string, now: int, outcome: ClientOutcome) returns (r: Option<seq<SparkRepo>>)
      ensures r == ReadFresh(configured, rows, topic, now, outcome)
    {
      if !configured {
        return None;
      }
      match outcome {
        case ReportsError => return None;
        case Throws => return None;
        case Completes =>
          if topic !in rows {
            return None;
          }
          var row := rows[topic];
          if row.updatedAt < now - FreshWindow {
            return None;
          }
          return Some(row.results);
      }
    }

    /** Upserts the row for `topic`, replacing its results and write instant together. */
    method CacheRepos(topic: string, results: seq<SparkRepo>, now: int, outcome: ClientOutcome)
      modifies this
      ensures rows == WriteRows(configured, old(rows), topic, results, now, outcome)
    {
      if !configured {
        return;
      }
      if outcome == Completes {
        rows := rows[topic := Row(results, now)];
      }
    }
  }
}
