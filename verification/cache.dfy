/**
 * The in-process cache: a bounded map from search topic to result list.
 * At most `MaxSize` entries are kept, each for `Ttl` milliseconds after it
 * was written. When a write finds the cache full, the earliest-inserted key
 * is evicted first (first in, first out); an expired entry is deleted only
 * when it is read.
 *
 * The backing JavaScript `Map` is modelled by `order`, its keys in insertion
 * order, and `entries`, its key-value pairs. Overwriting a key keeps its
 * original position in `order`, as a JavaScript `Map` does.
 */
module MemCache {
  import opened Wrappers
  import opened Scoring

  /** The largest number of entries a write leaves (but see `AfterSet`). */
  const MaxSize: int := 100

  /** How long an entry stays readable: six hours, in milliseconds. */
  const Ttl: int := 6 * 60 * 60 * 1000

  /** A cached result list and the instant it was written. */
  datatype CacheEntry = CacheEntry(data: seq<SparkRepo>, timestamp: int)

  /** The contents of the cache: keys in insertion order, and the entries. */
  datatype CacheState = CacheState(order: seq<string>, entries: map<string, CacheEntry>)

  predicate Distinct(s: seq<string>)
  {
    forall i, j :: 0 <= i < j < |s| ==> s[i] != s[j]
  }

  /** `order` lists every key of `entries` exactly once. */
  ghost predicate WellFormed(st: CacheState)
  {
    && Distinct(st.order)
    && (forall k :: k in st.entries <==> k in st.order)
  }

  /** The empty cache. */
  function Empty(): (st: CacheState)
    ensures WellFormed(st) && |st.entries| == 0
  {
    CacheState([], map[])
  }

  /** `s` without `k`, the other keys in their order. */
  function Without(s: seq<string>, k: string): (r: seq<string>)
    ensures forall x :: x in r <==> x in s && x != k
    ensures Distinct(s) ==> Distinct(r)
    ensures Distinct(s) && k in s ==> |r| == |s| - 1
    ensures k !in s ==> r == s
  {
    if s == [] then []
    else
      assert Distinct(s) ==> Distinct(s[1..]) && s[0] !in s[1..];
      if s[0] == k then Without(s[1..], k)
      else [s[0]] + Without(s[1..], k)
  }

  /** The number of keys in a well-formed state is the length of `order`. */
  lemma {:induction false} KeyCount(order: seq<string>, keys: set<string>)
    requires Distinct(order)
    requires forall k :: k in keys <==> k in order
    ensures |keys| == |order|
  {
    if order != [] {
      var last := order[|order| - 1];
      var init := order[..|order| - 1];
      assert order == init + [last];
      assert Distinct(init);
      assert last !in init;
      KeyCount(init, keys - {last});
      assert keys == (keys - {last}) + {last};
    }
  }

  lemma SizeIsOrderLength(st: CacheState)
    requires WellFormed(st)
    ensures |st.entries| == |st.order|
  {
    KeyCount(st.order, st.entries.Keys);
  }

  /** An entry is expired once it is strictly older than `Ttl`. */
  predicate Expired(e: CacheEntry, now: int)
  {
    now - e.timestamp > Ttl
  }

  /** What `get(key)` at instant `now` returns. */
  function GetResult(st: CacheState, key: string, now: int): (r: Option<seq<SparkRepo>>)
    ensures r.Some? <==> key in st.entries && now - st.entries[key].timestamp <= Ttl
    ensures r.Some? ==> r.value == st.entries[key].data
  {
    if key !in st.entries then None
    else if Expired(st.entries[key], now) then None
    else Some(st.entries[key].data)
  }

  /**
   * The cache after `get(key)` at instant `now`: an expired entry is
   * deleted, and nothing else changes.
   */
  function AfterGet(st: CacheState, key: string, now: int): (r: CacheState)
    requires WellFormed(st)
    ensures WellFormed(r)
    ensures key in st.entries && Expired(st.entries[key], now) ==>
      && key !in r.entries
      && (forall k :: k in r.entries <==> k in st.entries && k != key)
      && (forall k :: k in r.entries ==> r.entries[k] == st.entries[k])
      && |r.entries| == |st.entries| - 1
    ensures !(key in st.entries && Expired(st.entries[key], now)) ==> r == st
  {
    if key in st.entries && Expired(st.entries[key], now) then
      var r := CacheState(Without(st.order, key), st.entries - {key});
      SizeIsOrderLength(st);
      SizeIsOrderLength(r);
      r
    else st
  }

  /** Whether a write to `st` first evicts the earliest-inserted key. */
  predicate Evicts(st: CacheState)
  {
    |st.entries| >= MaxSize && |st.order| > 0 && st.order[0] != ""
  }

  /** The cache without its earliest-inserted key. */
  function DropOldest(st: CacheState): (r: CacheState)
    requires WellFormed(st) && |st.order| > 0
    ensures WellFormed(r)
    ensures r.order == st.order[1..]
    ensures r.entries == st.entries - {st.order[0]}
    ensures |r.entries| == |st.entries| - 1
  {
    var r := CacheState(st.order[1..], st.entries - {st.order[0]});
    assert st.order == [st.order[0]] + st.order[1..];
    assert WellFormed(r);
    SizeIsOrderLength(st);
    SizeIsOrderLength(r);
    r
  }

  /** The cache with `key` written: kept in place if present, appended otherwise. */
  function Write(st: CacheState, key: string, data: seq<SparkRepo>, now: int): (r: CacheState)
    requires WellFormed(st)
    ensures WellFormed(r)
    ensures r.entries == st.entries[key := CacheEntry(data, now)]
    ensures |r.entries| == if key in st.entries then |st.entries| else |st.entries| + 1
  {
    CacheState(
      if key in st.entries then st.order else st.order + [key],
      st.entries[key := CacheEntry(data, now)])
  }

  /**
   * The cache after `set(key, data)` at instant `now`. When the cache holds
   * `MaxSize` or more entries, the earliest-inserted key is deleted first,
   * even when `key` is already present; the JavaScript truthiness test skips
   * the eviction when that key is the empty string. Then `key` is written,
   * keeping its position if it is still present, appended otherwise.
   */
  function AfterSet(st: CacheState, key: string, data: seq<SparkRepo>, now: int): (r: CacheState)
    requires WellFormed(st)
    ensures WellFormed(r)
  {
    Write(if Evicts(st) then DropOldest(st) else st, key, data, now)
  }

  /**
   * After `set`, `key` holds `data` stamped `now`; no other key is added,
   * and every other key keeps its entry unless it is the one evicted.
   */
  lemma SetWrites(st: CacheState, key: string, data: seq<SparkRepo>, now: int)
    requires WellFormed(st)
    ensures var r := AfterSet(st, key, data, now);
      && key in r.entries && r.entries[key] == CacheEntry(data, now)
      && (forall k :: k in r.entries ==> k == key || k in st.entries)
      && (forall k :: k in st.entries && k != key && !(Evicts(st) && k == st.order[0]) ==>
            k in r.entries && r.entries[k] == st.entries[k])
  {
  }

  /**
   * The eviction and the size after `set`: from below `MaxSize` the size
   * stays within it; a full cache whose oldest key is not `""` loses that
   * key (unless it is the key written) and does not grow; rewriting a key
   * other than the oldest into such a cache shrinks it by one; when the
   * oldest key is `""` nothing is evicted and a new key grows the cache past
   * `MaxSize`.
   */
  lemma SetSize(st: CacheState, key: string, data: seq<SparkRepo>, now: int)
    requires WellFormed(st)
    ensures var r := AfterSet(st, key, data, now);
      && (Evicts(st) && key != st.order[0] ==> st.order[0] !in r.entries)
      && (|st.entries| < MaxSize ==> |r.entries| <= MaxSize)
      && (Evicts(st) ==> |r.entries| <= |st.entries|)
      && (Evicts(st) && key in st.entries && key != st.order[0] ==> |r.entries| == |st.entries| - 1)
      && (|st.entries| >= MaxSize && !Evicts(st) && key !in st.entries ==> |r.entries| == |st.entries| + 1)
  {
  }

  /**
   * The key order after `set`: the oldest key is dropped first when it is
   * evicted; then a key still present keeps its position, as a JavaScript
   * `Map` keeps an overwritten key in place, and any other key is appended.
   */
  lemma SetOrder(st: CacheState, key: string, data: seq<SparkRepo>, now: int)
    requires WellFormed(st)
    ensures var r := AfterSet(st, key, data, now);
      var kept := if Evicts(st) then st.order[1..] else st.order;
      && (key in st.entries && !(Evicts(st) && key == st.order[0]) ==> r.order == kept)
      && (key !in st.entries || (Evicts(st) && key == st.order[0]) ==> r.order == kept + [key])
  {
  }

  /** `set` each of `keys` in turn, all with the same data and instant. */
  function SetAll(st: CacheState, keys: seq<string>, data: seq<SparkRepo>, now: int): (r: CacheState)
    requires WellFormed(st)
    ensures WellFormed(r)
    decreases keys
  {
    if keys == [] then st
    else SetAll(AfterSet(st, keys[0], data, now), keys[1..], data, now)
  }

  /** Writing the keys of `a + b` is writing those of `a`, then those of `b`. */
  lemma {:induction false} SetAllAppend(st: CacheState, a: seq<string>, b: seq<string>, data: seq<SparkRepo>, now: int)
    requires WellFormed(st)
    ensures SetAll(st, a + b, data, now) == SetAll(SetAll(st, a, data, now), b, data, now)
    decreases a
  {
    if a == [] {
      assert a + b == b;
    } else {
      var st1 := AfterSet(st, a[0], data, now);
      assert (a + b)[0] == a[0] && (a + b)[1..] == a[1..] + b;
      SetAllAppend(st1, a[1..], b, data, now);
    }
  }

  /** Writing a new key below capacity appends it to the insertion order. */
  lemma AppendBelowCapacity(st: CacheState, key: string, data: seq<SparkRepo>, now: int)
    requires WellFormed(st) && |st.order| < MaxSize && key !in st.order
    ensures AfterSet(st, key, data, now).order == st.order + [key]
  {
    SizeIsOrderLength(st);
  }

  /** Writing a new key at capacity drops the oldest key and appends the new one. */
  lemma AppendAtCapacity(st: CacheState, key: string, data: seq<SparkRepo>, now: int)
    requires WellFormed(st) && Evicts(st) && key !in st.order
    ensures AfterSet(st, key, data, now).order == st.order[1..] + [key]
  {
  }

  /**
   * Writing keys that are new and distinct, without reaching `MaxSize`,
   * appends them to the insertion order and evicts nothing.
   */
  lemma {:induction false} FillFrom(st: CacheState, keys: seq<string>, data: seq<SparkRepo>, now: int)
    requires WellFormed(st) && |st.order| + |keys| <= MaxSize && Distinct(st.order + keys)
    ensures SetAll(st, keys, data, now).order == st.order + keys
    decreases keys
  {
    if keys != [] {
      var all := st.order + keys;
      assert keys[0] !in st.order by {
        assert all[|st.order|] == keys[0];
        assert forall i :: 0 <= i < |st.order| ==> all[i] == st.order[i];
      }
      AppendBelowCapacity(st, keys[0], data, now);
      var st1 := AfterSet(st, keys[0], data, now);
      assert st1.order + keys[1..] == all;
      FillFrom(st1, keys[1..], data, now);
    }
  }

  /** Writing up to `MaxSize` distinct keys into the empty cache evicts nothing. */
  lemma FillInOrder(keys: seq<string>, data: seq<SparkRepo>, now: int)
    requires Distinct(keys) && |keys| <= MaxSize
    ensures SetAll(Empty(), keys, data, now).order == keys
  {
    assert Empty().order + keys == keys;
    FillFrom(Empty(), keys, data, now);
  }

  lemma DropFirstAppendLast(s: seq<string>)
    requires |s| >= 2
    ensures s[..|s| - 1][1..] + [s[|s| - 1]] == s[1..]
  {
  }

  /** Writing a non-empty key sequence ends with the write of its last key. */
  lemma SetAllLast(st: CacheState, keys: seq<string>, data: seq<SparkRepo>, now: int)
    requires WellFormed(st) && keys != []
    ensures SetAll(st, keys, data, now)
         == AfterSet(SetAll(st, keys[..|keys| - 1], data, now), keys[|keys| - 1], data, now)
  {
    var init, last := keys[..|keys| - 1], keys[|keys| - 1];
    assert keys == init + [last];
    SetAllAppend(st, init, [last], data, now);
    assert [last][1..] == [];
  }

  /** A cache whose key order is the tail of distinct `keys` holds all of them but the first. */
  lemma HoldsTail(keys: seq<string>, r: CacheState)
    requires Distinct(keys) && |keys| >= 1 && WellFormed(r) && r.order == keys[1..]
    ensures keys[0] !in r.entries && forall i :: 1 <= i < |keys| ==> keys[i] in r.entries
  {
    assert forall i :: 1 <= i < |keys| ==> keys[i] == r.order[i - 1];
  }

  /**
   * Writing `MaxSize + 1` distinct keys into the empty cache evicts exactly
   * the first one written, provided that one is not `""`.
   */
  lemma EvictsFirstWritten(keys: seq<string>, data: seq<SparkRepo>, now: int)
    requires Distinct(keys) && |keys| == MaxSize + 1
    requires keys[0] != ""
    ensures var st := SetAll(Empty(), keys, data, now);
      keys[0] !in st.entries && forall i :: 1 <= i < |keys| ==> keys[i] in st.entries
  {
    var init, last := keys[..MaxSize], keys[MaxSize];
    var st := SetAll(Empty(), init, data, now);
    assert st.order == init by {
      assert Distinct(init);
      FillInOrder(init, data, now);
    }
    assert Evicts(st) by {
      SizeIsOrderLength(st);
    }
    assert last !in st.order;
    var r := SetAll(Empty(), keys, data, now);
    assert r.order == keys[1..] by {
      SetAllLast(Empty(), keys, data, now);
      AppendAtCapacity(st, last, data, now);
      DropFirstAppendLast(keys);
    }
    HoldsTail(keys, r);
  }

  /** A `set` followed by a `get` of the same key at the same instant returns the data. */
  lemma SetThenGet(st: CacheState, key: string, data: seq<SparkRepo>, now: int)
    requires WellFormed(st)
    ensures GetResult(AfterSet(st, key, data, now), key, now) == Some(data)
  {
  }

  /**
   * The cache itself. `Valid()` is its invariant; every method says what
   * the contents are afterwards in terms of the functions above.
   */
  class MemoryCache {
    var order: seq<string>
    var entries: map<string, CacheEntry>

    function State(): CacheState
      reads this
    {
      CacheState(order, entries)
    }

    ghost predicate Valid()
      reads this
    {
      WellFormed(State())
    }

    constructor ()
      ensures Valid() && State() == Empty()
    {
      order := [];
      entries := map[];
    }

    /** Returns the live entry for `key`; deletes it instead if it has expired. */
    method Get(key: string, now: int) returns (r: Option<seq<SparkRepo>>)
      requires Valid()
      modifies this
      ensures Valid()
      ensures r == GetResult(old(State()), key, now)
      ensures State() == AfterGet(old(State()), key, now)
    {
      if key !in entries {
        return None;
      }
      var entry := entries[key];
      if now - entry.timestamp > Ttl {
        entries := entries - {key};
        order := Without(order, key);
        return None;
      }
      return Some(entry.data);
    }

    /** Writes `data` under `key`, stamped `now`, evicting first when full. */
    method Set(key: string, data: seq<SparkRepo>, now: int)
      requires Valid()
      modifies this
      ensures Valid()
      ensures State() == AfterSet(old(State()), key, data, now)
    {
      ghost var st := State();
      SizeIsOrderLength(st);
      if |entries| >= MaxSize {
        var firstKey := order[0];
        if firstKey != "" {
          entries := entries - {firstKey};
          order := order[1..];
          assert State() == DropOldest(st);
        }
      }
      ghost var mid := if Evicts(st) then DropOldest(st) else st;
      assert State() == mid && WellFormed(mid);
      if key !in entries {
        order := order + [key];
      }
      entries := entries[key := CacheEntry(data, now)];
      assert State() == Write(mid, key, data, now);
    }

    /** Removes every entry. */
    method Clear()
      requires Valid()
      modifies this
      ensures Valid() && State() == Empty()
    {
      order := [];
      entries := map[];
    }

    /** The number of entries, which is the number of keys in insertion order. */
    function Size(): (n: nat)
      reads this
      requires Valid()
      ensures n == |order|
    {
      SizeIsOrderLength(State());
      |entries|
    }
  }
}
