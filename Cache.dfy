/**
 * The analysis cache: entries keyed by `prefix:hash`, each stored with an
 * absolute expiry time (milliseconds), looked up only while still fresh,
 * evicted when found stale, and cleared by key prefix or all at once.
 *
 * The clock is a parameter `now` (milliseconds); the digest of a key's
 * payload (SHA-256 of its JSON text, in hex) is a parameter `digest`.
 */
module Cache {
  import opened Wrappers
  import opened Types
  import opened Text

  /** A stored value and the instant after which it is stale. */
  datatype CacheEntry<V> = CacheEntry(value: V, expiry: int)

  /** `generateKey`: the prefix, a colon, the digest of the payload. */
  function GenerateKey<D>(prefix: string, data: D, digest: D -> string): (r: string)
    ensures StartsWith(r, prefix + ":")
    ensures r[|prefix| + 1..] == digest(data)
  {
    prefix + ":" + digest(data)
  }

  /** Two keys coincide only for the same prefix and the same digest, when prefixes hold no colon. */
  lemma GenerateKeyInjective<D>(p1: string, d1: D, p2: string, d2: D, digest: D -> string)
    requires ':' !in p1 && ':' !in p2
    requires GenerateKey(p1, d1, digest) == GenerateKey(p2, d2, digest)
    ensures p1 == p2 && digest(d1) == digest(d2)
  {
    var k := GenerateKey(p1, d1, digest);
    assert k[|p1|] == ':' && k[|p2|] == ':';
    assert p1 == k[..|p1|] && p2 == k[..|p2|];
  }

  /** What a lookup at time `now` finds: a present entry that has not yet expired. */
  function Lookup<V>(m: map<string, CacheEntry<V>>, key: string, now: int): (r: Option<V>)
    ensures r.Some? <==> key in m && m[key].expiry > now
  {
    if key in m && m[key].expiry > now then Some(m[key].value) else None
  }

  /** The store after writing `value` at time `now` with a time-to-live of `ttl` seconds. */
  function Store<V>(m: map<string, CacheEntry<V>>, key: string, value: V, now: int, ttl: int): (r: map<string, CacheEntry<V>>)
    ensures r.Keys == m.Keys + {key}
  {
    m[key := CacheEntry(value, now + ttl * 1000)]
  }

  /** Storing under a key overwrites whatever was there: removing it first makes no difference. */
  lemma StoreAfterRemove<V>(m: map<string, CacheEntry<V>>, key: string, value: V, now: int, ttl: int)
    ensures Store(m - {key}, key, value, now, ttl) == Store(m, key, value, now, ttl)
  {
    assert Store(m - {key}, key, value, now, ttl).Keys == Store(m, key, value, now, ttl).Keys;
  }

  /**
   * A value written at `now` is found until `ttl` seconds have passed, and
   * not afterwards; the other keys are not affected.
   */
  lemma StoreLookup<V>(m: map<string, CacheEntry<V>>, key: string, value: V, now: int, ttl: int, later: int, other: string)
    requires other != key
    ensures Lookup(Store(m, key, value, now, ttl), key, later) == (if later < now + ttl * 1000 then Some(value) else None)
    ensures Lookup(Store(m, key, value, now, ttl), other, later) == Lookup(m, other, later)
  {
  }

  /** The keys that survive a clear with `prefix`: those not starting with it. */
  function Evict<V>(m: map<string, CacheEntry<V>>, prefix: string): (r: map<string, CacheEntry<V>>)
    ensures forall k :: k in r <==> k in m && !StartsWith(k, prefix)
    ensures forall k :: k in r ==> r[k] == m[k]
  {
    map k | k in m && !StartsWith(k, prefix) :: m[k]
  }

  /**
   * The prefix `clear(pattern)` compares against: the pattern with its first
   * `*` removed; `None` for an absent or empty pattern, which clears everything.
   */
  function ClearPrefix(pattern: Option<string>): Option<string>
  {
    match pattern
    case Some(p) => if p == "" then None else Some(ReplaceFirst(p, '*', ""))
    case None => None
  }

  /** Clearing `prefix:*` evicts every key made with that prefix, whatever its payload. */
  lemma ClearEvictsGenerated<V, D>(m: map<string, CacheEntry<V>>, prefix: string, data: D, digest: D -> string)
    requires '*' !in prefix
    ensures ClearPrefix(Some(prefix + ":*")) == Some(prefix + ":")
    ensures GenerateKey(prefix, data, digest) !in Evict(m, prefix + ":")
  {
    var p := prefix + ":*";
    var i :| 0 <= i < |p| && p[i] == '*' && '*' !in p[..i] && ReplaceFirst(p, '*', "") == p[..i] + "" + p[i + 1..];
    assert i == |prefix| + 1;
    assert p[..i] == prefix + ":" && p[i + 1..] == [];
    assert ReplaceFirst(p, '*', "") == prefix + ":";
  }

  class CacheManager<V> {
    const config: CacheConfig
    var memoryCache: map<string, CacheEntry<V>>

    constructor (config: CacheConfig)
      ensures this.config == config
      ensures memoryCache == map[]
    {
      this.config := config;
      memoryCache := map[];
    }

    /**
     * `get`: the fresh value stored under `key`; a stale or missing entry is
     * deleted. A disabled cache answers `None` and changes nothing.
     */
    method Get(key: string, now: int) returns (r: Option<V>)
      modifies this
      ensures r == (if config.enabled then Lookup(old(memoryCache), key, now) else None)
      ensures memoryCache ==
                if config.enabled && r.None? then old(memoryCache) - {key} else old(memoryCache)
    {
      if !config.enabled {
        return None;
      }
      if key in memoryCache && memoryCache[key].expiry > now {
        return Some(memoryCache[key].value);
      }
      memoryCache := memoryCache - {key};
      return None;
    }

    /** `set`: store `value` until `ttl` seconds from `now`; a disabled cache ignores it. */
    method Set(key: string, value: V, now: int)
      modifies this
      ensures memoryCache ==
                if config.enabled then Store(old(memoryCache), key, value, now, config.ttl) else old(memoryCache)
    {
      if !config.enabled {
        return;
      }
      memoryCache := memoryCache[key := CacheEntry(value, now + config.ttl * 1000)];
    }

    /**
     * `clear`: with a non-empty pattern, delete the keys starting with it
     * (first `*` removed), one key at a time; otherwise delete everything.
     * Unlike `get` and `set`, it runs whether or not the cache is enabled.
     */
    method Clear(pattern: Option<string>)
      modifies this
      ensures memoryCache ==
                match ClearPrefix(pattern)
                case Some(prefix) => Evict(old(memoryCache), prefix)
                case None => map[]
    {
      match ClearPrefix(pattern)
      case None =>
        memoryCache := map[];
      case Some(prefix) =>
        var keys := memoryCache.Keys;
        while keys != {}
          invariant keys <= old(memoryCache).Keys
          invariant forall k :: k in memoryCache <==>
                      k in old(memoryCache) && (k in keys || !StartsWith(k, prefix))
          invariant forall k :: k in memoryCache ==> memoryCache[k] == old(memoryCache)[k]
          decreases |keys|
        {
          var key :| key in keys;
          if StartsWith(key, prefix) {
            memoryCache := memoryCache - {key};
          }
          keys := keys - {key};
        }
    }
  }
}
