/**
 * A bounded cache whose entries expire a fixed time after they are written,
 * as the cache configuration builds it (maximum size plus expire-after-write).
 * Time is a parameter in milliseconds.
 */
module Cache {
  import opened Wrappers

  /** A cached value with the time it was last written. */
  datatype Entry<V> = Entry(value: V, writtenAt: int)

  /** An entry is visible while less than `ttl` has elapsed since its write. */
  predicate Live<V>(e: Entry<V>, ttl: int, now: int) {
    now - e.writtenAt < ttl
  }

  /** What a read sees: the stored value of a live entry, and a miss otherwise. */
  function Lookup<K, V>(entries: map<K, Entry<V>>, ttl: int, key: K, now: int): (r: Option<V>)
    ensures r.Some? <==> key in entries && Live(entries[key], ttl, now)
    ensures r.Some? ==> r.value == entries[key].value
  {
    if key in entries && Live(entries[key], ttl, now) then Some(entries[key].value) else None
  }

  /**
   * The relation between the entries before and after `put(key, v)` at time
   * `now` in a cache of capacity `maxSize`: the key is (re)written with the
   * current time, no other entry is created or altered, and a single other
   * entry is evicted only when a new key arrives at a full cache.
   */
  ghost predicate PutResult<K, V>(before: map<K, Entry<V>>, after: map<K, Entry<V>>, maxSize: nat, key: K, v: V, now: int) {
    && key in after && after[key] == Entry(v, now)
    && (forall k :: k in after && k != key ==> k in before && after[k] == before[k])
    && (if key in before || |before| < maxSize
        then after.Keys == before.Keys + {key}
        else exists victim :: victim in before && victim != key && after.Keys == before.Keys - {victim} + {key})
  }

  /** The cache object: capacity and time-to-live fixed at construction, entries mutable. */
  class TtlCache<K(==), V> {
    const maxSize: nat
    const ttl: int
    var entries: map<K, Entry<V>>

    /** The capacity bound the cache keeps. */
    ghost predicate Valid()
      reads this
    {
      |entries| <= maxSize
    }

    constructor (maxSize: nat, ttl: int)
      requires maxSize > 0
      ensures this.maxSize == maxSize && this.ttl == ttl
      ensures entries == map[] && Valid()
    {
      this.maxSize := maxSize;
      this.ttl := ttl;
      entries := map[];
    }

    /** `get(key)`: reads only, so it neither extends nor removes any entry. */
    function Get(key: K, now: int): (r: Option<V>)
      reads this
      ensures r == Lookup(entries, ttl, key, now)
    {
      if key in entries && now - entries[key].writtenAt < ttl then Some(entries[key].value) else None
    }

    /** `put(key, v)`: write the entry, evicting an unspecified other entry when a new key meets a full cache. */
    method Put(key: K, v: V, now: int)
      requires Valid() && maxSize > 0
      modifies this
      ensures Valid()
      ensures PutResult(old(entries), entries, maxSize, key, v, now)
    {
      if key !in entries && |entries| >= maxSize {
        assert entries.Keys != {} by {
          assert |entries.Keys| == |entries| > 0;
        }
        var victim :| victim in entries.Keys;
        assert victim != key;
        var rest := entries - {victim};
        assert rest.Keys == entries.Keys - {victim};
        entries := rest[key := Entry(v, now)];
        assert entries.Keys == old(entries).Keys - {victim} + {key};
      } else {
        entries := entries[key := Entry(v, now)];
      }
    }

    /** Evict every entry, whatever its age. */
    method Clear()
      modifies this
      ensures entries == map[] && Valid()
      ensures forall k: K, t: int :: Lookup(entries, ttl, k, t).None?
    {
      entries := map[];
    }
  }

  /** A put never lets the cache grow past its capacity. */
  lemma {:induction false} PutKeepsBound<K, V>(before: map<K, Entry<V>>, after: map<K, Entry<V>>, maxSize: nat, key: K, v: V, now: int)
    requires |before| <= maxSize && maxSize > 0
    requires PutResult(before, after, maxSize, key, v, now)
    ensures |after| <= maxSize
  {
    if key in before {
      assert before.Keys + {key} == before.Keys;
      assert |after.Keys| == |before.Keys|;
    } else if |before| < maxSize {
      assert |after.Keys| == |before.Keys| + 1;
    } else {
      var victim :| victim in before && victim != key && after.Keys == before.Keys - {victim} + {key};
      assert |before.Keys - {victim}| == |before.Keys| - 1;
      assert |after.Keys| == |before.Keys|;
    }
  }

  /** A read within `ttl` after a put returns the value put; from `ttl` onwards it misses. */
  lemma {:induction false} GetAfterPut<K, V>(before: map<K, Entry<V>>, after: map<K, Entry<V>>, maxSize: nat, ttl: int,
                                             key: K, v: V, t: int, now: int)
    requires PutResult(before, after, maxSize, key, v, t)
    ensures now - t < ttl ==> Lookup(after, ttl, key, now) == Some(v)
    ensures now - t >= ttl ==> Lookup(after, ttl, key, now).None?
  {
    assert after[key] == Entry(v, t);
  }

  /**
   * A put of one key leaves every other key reading as before, except a key
   * that had to make room, which then misses.
   */
  lemma {:induction false} PutLeavesOtherKeys<K, V>(before: map<K, Entry<V>>, after: map<K, Entry<V>>, maxSize: nat, ttl: int,
                                                    key: K, v: V, t: int, other: K, now: int)
    requires PutResult(before, after, maxSize, key, v, t) && other != key
    ensures Lookup(after, ttl, other, now) == Lookup(before, ttl, other, now) || Lookup(after, ttl, other, now).None?
    ensures key in before || |before| < maxSize ==> Lookup(after, ttl, other, now) == Lookup(before, ttl, other, now)
  {
    if other in after {
      assert other in before && after[other] == before[other];
    } else if key in before || |before| < maxSize {
      assert other !in before;
    }
  }

  /** Re-writing a key restarts its lifetime: the entry lives for `ttl` from the latest write. */
  lemma {:induction false} RewriteResetsTtl<K, V>(e0: map<K, Entry<V>>, e1: map<K, Entry<V>>, e2: map<K, Entry<V>>, maxSize: nat,
                                                  ttl: int, key: K, v: V, w: V, t1: int, t2: int, now: int)
    requires PutResult(e0, e1, maxSize, key, v, t1) && PutResult(e1, e2, maxSize, key, w, t2)
    requires t2 <= now < t2 + ttl
    ensures Lookup(e2, ttl, key, now) == Some(w)
  {
    assert e2[key] == Entry(w, t2);
  }
}
