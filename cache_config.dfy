/** The two named caches of the application and their scheduled clear. */
module CacheConfig {
  import opened Cache
  import opened PokemonModel

  /** `CACHE_MAX_SIZE`: entries per cache. */
  const CacheMaxSize: nat := 1000
  /** `CACHE_TTL_MINUTES`, in minutes. */
  const CacheTtlMinutes: nat := 10
  /** The expire-after-write duration in milliseconds. */
  const CacheTtlMs: int := CacheTtlMinutes * 60 * 1000

  /** The cache manager with the caches "pokemonByName" and "pokemonById". */
  class CacheManager {
    const pokemonByName: TtlCache<string, Pokemon>
    const pokemonById: TtlCache<int, Pokemon>

    ghost predicate Valid()
      reads this, pokemonByName, pokemonById
    {
      && pokemonByName.Valid() && pokemonById.Valid()
      && pokemonByName.maxSize == CacheMaxSize && pokemonById.maxSize == CacheMaxSize
      && pokemonByName.ttl == CacheTtlMs && pokemonById.ttl == CacheTtlMs
    }

    /** `cacheManager()`: both caches built empty with the same size bound and time-to-live. */
    constructor ()
      ensures Valid() && fresh(pokemonByName) && fresh(pokemonById)
      ensures pokemonByName.entries == map[] && pokemonById.entries == map[]
    {
      pokemonByName := new TtlCache(CacheMaxSize, CacheTtlMs);
      pokemonById := new TtlCache(CacheMaxSize, CacheTtlMs);
    }

    /** A write to the by-name cache; the by-id cache is untouched. */
    method PutByName(key: string, v: Pokemon, now: int)
      requires Valid()
      modifies pokemonByName
      ensures Valid()
      ensures PutResult(old(pokemonByName.entries), pokemonByName.entries, CacheMaxSize, key, v, now)
      ensures pokemonById.entries == old(pokemonById.entries)
    {
      pokemonByName.Put(key, v, now);
    }

    /** A write to the by-id cache; the by-name cache is untouched. */
    method PutById(key: int, v: Pokemon, now: int)
      requires Valid()
      modifies pokemonById
      ensures Valid()
      ensures PutResult(old(pokemonById.entries), pokemonById.entries, CacheMaxSize, key, v, now)
      ensures pokemonByName.entries == old(pokemonByName.entries)
    {
      pokemonById.Put(key, v, now);
    }

    /** `clearCacheScheduled()`: evicts all entries of both caches, whatever their age. */
    method ClearCacheScheduled()
      requires Valid()
      modifies pokemonByName, pokemonById
      ensures Valid()
      ensures pokemonByName.entries == map[] && pokemonById.entries == map[]
      ensures forall k: string, t: int :: pokemonByName.Get(k, t).None?
      ensures forall k: int, t: int :: pokemonById.Get(k, t).None?
    {
      pokemonByName.Clear();
      pokemonById.Clear();
    }
  }
}
