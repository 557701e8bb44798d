/**
 * The use-case service: a cached lookup by name in front of the upstream
 * port, and the six SOAP response builders that go through it.
 */
module PokemonService {
  import opened Wrappers
  import opened JavaText
  import opened Exceptions
  import opened Cache
  import opened CacheConfig
  import opened PokemonModel

  /** What the upstream port answers for a name: a Pokemon, null, or an exception. */
  datatype Fetched = Found(pokemon: Pokemon) | NoResult | Failed(ex: JavaException)

  /** The exception a builder raises when it dereferences a null Pokemon or unboxes a null id. */
  const NullPointer: JavaException := Other("NullPointerException", None)

  /** The cache key of a lookup: the name lowercased. */
  function CacheKey(name: string): (k: string)
    ensures |k| == |name|
  {
    ToLowerCase(name)
  }

  /** Names that differ only in letter case share one cache entry, and no other names do. */
  lemma {:induction false} CacheKeySharedIgnoringCase(a: string, b: string)
    ensures CacheKey(a) == CacheKey(b) <==> EqualsIgnoreCase(a, b)
  {
    EqualsIgnoreCaseIsLowerEquality(a, b);
  }

  /** The port's answer as a call result. */
  function FetchOutcome(f: Fetched): (r: Call<Option<Pokemon>>)
    ensures r.Throws? <==> f.Failed?
    ensures f.Failed? ==> r.ex == f.ex
    ensures f.Found? ==> r == Returns(Some(f.pokemon))
    ensures f.NoResult? ==> r == Returns(None)
  {
    match f
    case Found(p) => Returns(Some(p))
    case NoResult => Returns(None)
    case Failed(e) => Throws(e)
  }

  /** The outcome of the cached lookup: a live cached value wins, otherwise the port decides. */
  function LookupOutcome(hit: Option<Pokemon>, upstream: Fetched): (r: Call<Option<Pokemon>>)
    ensures hit.Some? ==> r == Returns(hit)
    ensures hit.None? ==> r == FetchOutcome(upstream)
  {
    if hit.Some? then Returns(hit) else FetchOutcome(upstream)
  }

  /**
   * The effect of one cached lookup of `name` at `now` on the by-name entries
   * and on the sequence of port calls: a hit changes nothing and calls nothing;
   * a miss calls the port once with the original name and stores its answer
   * under the lowercased key only when that answer is a Pokemon.
   */
  ghost predicate LookedUp(before: map<string, Entry<Pokemon>>, after: map<string, Entry<Pokemon>>,
                           callsBefore: seq<string>, callsAfter: seq<string>,
                           name: string, upstream: Fetched, now: int) {
    var hit := Lookup(before, CacheTtlMs, CacheKey(name), now);
    if hit.Some? then after == before && callsAfter == callsBefore
    else
      && callsAfter == callsBefore + [name]
      && (if upstream.Found? then PutResult(before, after, CacheMaxSize, CacheKey(name), upstream.pokemon, now)
          else after == before)
  }

  /** A lookup result as the builders use it: a null Pokemon becomes a NullPointerException. */
  function Deref(c: Call<Option<Pokemon>>): (r: Call<Pokemon>)
    ensures r.Returns? <==> c.Returns? && c.value.Some?
    ensures r.Returns? ==> r.value == c.value.value
    ensures c.Throws? ==> r == Throws(c.ex)
    ensures c == Returns(None) ==> r == Throws(NullPointer)
  {
    match c
    case Throws(e) => Throws(e)
    case Returns(None) => Throws(NullPointer)
    case Returns(Some(p)) => Returns(p)
  }

  /** `out` holds one SOAP ability per domain ability, in order, with every field copied; none for a null list. */
  ghost predicate CopiedAbilities(src: Option<seq<Ability>>, out: seq<SoapAbility>) {
    match src
    case None => out == []
    case Some(list) =>
      && |out| == |list|
      && forall i :: 0 <= i < |out| ==>
           && out[i].name == list[i].name && out[i].url == list[i].url
           && out[i].isHidden == list[i].isHidden && out[i].slot == list[i].slot
  }

  /** `out` holds one SOAP held item per domain held item, in order, with name and url copied; none for a null list. */
  ghost predicate CopiedHeldItems(src: Option<seq<HeldItem>>, out: seq<SoapHeldItem>) {
    match src
    case None => out == []
    case Some(list) =>
      && |out| == |list|
      && forall i :: 0 <= i < |out| ==> out[i].name == list[i].name && out[i].url == list[i].url
  }

  /** The copy relations determine their output: there is exactly one response list per source list. */
  lemma {:induction false} CopiedAbilitiesUnique(src: Option<seq<Ability>>, a: seq<SoapAbility>, b: seq<SoapAbility>)
    requires CopiedAbilities(src, a) && CopiedAbilities(src, b)
    ensures a == b
  {
    if src.Some? {
      assert |a| == |b|;
      forall i | 0 <= i < |a| ensures a[i] == b[i] {
        assert a[i].name == b[i].name && a[i].url == b[i].url && a[i].isHidden == b[i].isHidden && a[i].slot == b[i].slot;
      }
    }
  }

  lemma {:induction false} CopiedHeldItemsUnique(src: Option<seq<HeldItem>>, a: seq<SoapHeldItem>, b: seq<SoapHeldItem>)
    requires CopiedHeldItems(src, a) && CopiedHeldItems(src, b)
    ensures a == b
  {
    if src.Some? {
      assert |a| == |b|;
      forall i | 0 <= i < |a| ensures a[i] == b[i] {
        assert a[i].name == b[i].name && a[i].url == b[i].url;
      }
    }
  }

  /** The `forEach` over the domain abilities, appending one SOAP ability each. */
  method CopyAbilities(src: Option<seq<Ability>>) returns (out: seq<SoapAbility>)
    ensures CopiedAbilities(src, out)
  {
    out := [];
    if src.Some? {
      var list := src.value;
      var i := 0;
      while i < |list|
        invariant 0 <= i <= |list|
        invariant |out| == i
        invariant forall j :: 0 <= j < i ==>
                    && out[j].name == list[j].name && out[j].url == list[j].url
                    && out[j].isHidden == list[j].isHidden && out[j].slot == list[j].slot
      {
        var a := list[i];
        out := out + [SoapAbility(a.name, a.url, a.isHidden, a.slot)];
        i := i + 1;
      }
    }
  }

  /** The `forEach` over the domain held items, appending one SOAP held item each. */
  method CopyHeldItems(src: Option<seq<HeldItem>>) returns (out: seq<SoapHeldItem>)
    ensures CopiedHeldItems(src, out)
  {
    out := [];
    if src.Some? {
      var list := src.value;
      var i := 0;
      while i < |list|
        invariant 0 <= i <= |list|
        invariant |out| == i
        invariant forall j :: 0 <= j < i ==> out[j].name == list[j].name && out[j].url == list[j].url
      {
        var item := list[i];
        out := out + [SoapHeldItem(item.name, item.url)];
        i := i + 1;
      }
    }
  }

  /**
   * The service. `caches` is the application's cache manager; `fetchCalls`
   * records every name the upstream port was asked for.
   */
  class PokemonService {
    const caches: CacheManager
    ghost var fetchCalls: seq<string>

    ghost predicate Valid()
      reads this, caches, caches.pokemonByName, caches.pokemonById
    {
      caches.Valid()
    }

    constructor (caches: CacheManager)
      requires caches.Valid()
      ensures this.caches == caches && fetchCalls == [] && Valid()
    {
      this.caches := caches;
      fetchCalls := [];
    }

    /** `getPokemonByName`: cacheable under the lowercased name, unless the result is null. */
    method GetPokemonByName(name: string, upstream: Fetched, now: int) returns (r: Call<Option<Pokemon>>)
      requires Valid()
      modifies this, caches.pokemonByName
      ensures Valid()
      ensures r == LookupOutcome(Lookup(old(caches.pokemonByName.entries), CacheTtlMs, CacheKey(name), now), upstream)
      ensures LookedUp(old(caches.pokemonByName.entries), caches.pokemonByName.entries, old(fetchCalls), fetchCalls, name, upstream, now)
      ensures caches.pokemonById.entries == old(caches.pokemonById.entries)
    {
      var key := ToLowerCase(name);
      var hit := caches.pokemonByName.Get(key, now);
      if hit.Some? {
        return Returns(hit);
      }
      fetchCalls := fetchCalls + [name];
      match upstream {
        case Found(p) =>
          caches.PutByName(key, p, now);
          return Returns(Some(p));
        case NoResult =>
          return Returns(None);
        case Failed(e) =>
          return Throws(e);
      }
    }

    /** `getPokemonAbilities`. */
    method GetPokemonAbilities(name: string, upstream: Fetched, now: int) returns (r: Call<AbilitiesResponse>)
      requires Valid()
      modifies this, caches.pokemonByName
      ensures Valid()
      ensures LookedUp(old(caches.pokemonByName.entries), caches.pokemonByName.entries, old(fetchCalls), fetchCalls, name, upstream, now)
      ensures var p := Deref(LookupOutcome(Lookup(old(caches.pokemonByName.entries), CacheTtlMs, CacheKey(name), now), upstream));
        && (r.Throws? <==> p.Throws?) && (r.Throws? ==> r.ex == p.ex)
        && (r.Returns? ==> CopiedAbilities(p.value.abilities, r.value.abilities))
    {
      var looked := GetPokemonByName(name, upstream, now);
      var p := Deref(looked);
      if p.Throws? {
        return Throws(p.ex);
      }
      var out := CopyAbilities(p.value.abilities);
      return Returns(AbilitiesResponse(out));
    }

    /** `getPokemonBaseExperienceResponse`. */
    method GetPokemonBaseExperience(name: string, upstream: Fetched, now: int) returns (r: Call<BaseExperienceResponse>)
      requires Valid()
      modifies this, caches.pokemonByName
      ensures Valid()
      ensures LookedUp(old(caches.pokemonByName.entries), caches.pokemonByName.entries, old(fetchCalls), fetchCalls, name, upstream, now)
      ensures var p := Deref(LookupOutcome(Lookup(old(caches.pokemonByName.entries), CacheTtlMs, CacheKey(name), now), upstream));
        && (r.Throws? <==> p.Throws?) && (r.Throws? ==> r.ex == p.ex)
        && (r.Returns? ==> r.value.baseExperience == p.value.baseExperience)
    {
      var looked := GetPokemonByName(name, upstream, now);
      var p := Deref(looked);
      if p.Throws? {
        return Throws(p.ex);
      }
      return Returns(BaseExperienceResponse(p.value.baseExperience));
    }

    /** `getPokemonHeldItems`. */
    method GetPokemonHeldItems(name: string, upstream: Fetched, now: int) returns (r: Call<HeldItemsResponse>)
      requires Valid()
      modifies this, caches.pokemonByName
      ensures Valid()
      ensures LookedUp(old(caches.pokemonByName.entries), caches.pokemonByName.entries, old(fetchCalls), fetchCalls, name, upstream, now)
      ensures var p := Deref(LookupOutcome(Lookup(old(caches.pokemonByName.entries), CacheTtlMs, CacheKey(name), now), upstream));
        && (r.Throws? <==> p.Throws?) && (r.Throws? ==> r.ex == p.ex)
        && (r.Returns? ==> CopiedHeldItems(p.value.heldItems, r.value.heldItems))
    {
      var looked := GetPokemonByName(name, upstream, now);
      var p := Deref(looked);
      if p.Throws? {
        return Throws(p.ex);
      }
      var out := CopyHeldItems(p.value.heldItems);
      return Returns(HeldItemsResponse(out));
    }

    /** `getPokemonId`. */
    method GetPokemonId(name: string, upstream: Fetched, now: int) returns (r: Call<IdResponse>)
      requires Valid()
      modifies this, caches.pokemonByName
      ensures Valid()
      ensures LookedUp(old(caches.pokemonByName.entries), caches.pokemonByName.entries, old(fetchCalls), fetchCalls, name, upstream, now)
      ensures var p := Deref(LookupOutcome(Lookup(old(caches.pokemonByName.entries), CacheTtlMs, CacheKey(name), now), upstream));
        && (r.Throws? <==> p.Throws? || p.value.id.None?)
        && (r.Throws? ==> r.ex == if p.Throws? then p.ex else NullPointer)
        && (r.Returns? ==> p.value.id == Some(r.value.id))
    {
      var looked := GetPokemonByName(name, upstream, now);
      var p := Deref(looked);
      if p.Throws? {
        return Throws(p.ex);
      }
      if p.value.id.None? {
        // `setId(long)` unboxes the null `Long`.
        return Throws(NullPointer);
      }
      return Returns(IdResponse(p.value.id.value));
    }

    /** `getPokemonName`. */
    method GetPokemonName(name: string, upstream: Fetched, now: int) returns (r: Call<NameResponse>)
      requires Valid()
      modifies this, caches.pokemonByName
      ensures Valid()
      ensures LookedUp(old(caches.pokemonByName.entries), caches.pokemonByName.entries, old(fetchCalls), fetchCalls, name, upstream, now)
      ensures var p := Deref(LookupOutcome(Lookup(old(caches.pokemonByName.entries), CacheTtlMs, CacheKey(name), now), upstream));
        && (r.Throws? <==> p.Throws?) && (r.Throws? ==> r.ex == p.ex)
        && (r.Returns? ==> r.value.name == p.value.name)
    {
      var looked := GetPokemonByName(name, upstream, now);
      var p := Deref(looked);
      if p.Throws? {
        return Throws(p.ex);
      }
      return Returns(NameResponse(p.value.name));
    }

    /** `getPokemonLocationAreaEncounters`. */
    method GetPokemonLocationAreaEncounters(name: string, upstream: Fetched, now: int)
      returns (r: Call<LocationAreaEncountersResponse>)
      requires Valid()
      modifies this, caches.pokemonByName
      ensures Valid()
      ensures LookedUp(old(caches.pokemonByName.entries), caches.pokemonByName.entries, old(fetchCalls), fetchCalls, name, upstream, now)
      ensures var p := Deref(LookupOutcome(Lookup(old(caches.pokemonByName.entries), CacheTtlMs, CacheKey(name), now), upstream));
        && (r.Throws? <==> p.Throws?) && (r.Throws? ==> r.ex == p.ex)
        && (r.Returns? ==> r.value.locationAreaEncounters == p.value.locationAreaEncounters)
    {
      var looked := GetPokemonByName(name, upstream, now);
      var p := Deref(looked);
      if p.Throws? {
        return Throws(p.ex);
      }
      return Returns(LocationAreaEncountersResponse(p.value.locationAreaEncounters));
    }
  }

  /**
   * A second lookup of any case variant of a name, made within the time-to-live
   * of a first lookup whose port answer was a Pokemon, is served from the cache
   * without calling the port.
   */
  lemma {:induction false} SecondLookupHits(e0: map<string, Entry<Pokemon>>, e1: map<string, Entry<Pokemon>>, e2: map<string, Entry<Pokemon>>,
                                            c0: seq<string>, c1: seq<string>, c2: seq<string>,
                                            name: string, other: string, p: Pokemon, up2: Fetched, t1: int, t2: int)
    requires LookedUp(e0, e1, c0, c1, name, Found(p), t1) && LookedUp(e1, e2, c1, c2, other, up2, t2)
    requires Lookup(e0, CacheTtlMs, CacheKey(name), t1).None?
    requires EqualsIgnoreCase(name, other) && t1 <= t2 < t1 + CacheTtlMs
    ensures Lookup(e1, CacheTtlMs, CacheKey(other), t2) == Some(p)
    ensures LookupOutcome(Lookup(e1, CacheTtlMs, CacheKey(other), t2), up2) == Returns(Some(p))
    ensures c2 == c0 + [name] && e2 == e1
  {
    CacheKeySharedIgnoringCase(name, other);
    GetAfterPut(e0, e1, CacheMaxSize, CacheTtlMs, CacheKey(name), p, t1, t2);
  }

  /** A null answer from the port is returned but not stored, so the next lookup asks the port again. */
  lemma {:induction false} NullNotCached(e0: map<string, Entry<Pokemon>>, e1: map<string, Entry<Pokemon>>,
                                         c0: seq<string>, c1: seq<string>, name: string, t: int, now: int)
    requires LookedUp(e0, e1, c0, c1, name, NoResult, t)
    requires Lookup(e0, CacheTtlMs, CacheKey(name), t).None? && t <= now
    ensures e1 == e0
    ensures Lookup(e1, CacheTtlMs, CacheKey(name), now).None?
  {
    assert e1 == e0;
    if CacheKey(name) in e0 {
      assert !Live(e0[CacheKey(name)], CacheTtlMs, t);
    }
  }
}
