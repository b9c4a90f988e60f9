/** The Redis cache layer: the cache-key builder and the module-global client
    with its `get_cache` / `set_cache` operations. The Redis server is part of
    the state (its keyspace and its clock); network failures are parameters.
    Neither endpoint calls into this module. */
module RedisClient {
  import opened Wrappers
  import opened Text
  import opened Tracks

  /** `CACHE_TTL`: the default expiry of a write, in seconds
      (`CACHE_TTL_SECONDS` unset). */
  const CACHE_TTL: int := 60

  // ---------------------------------------------------------------------
  // Cache keys
  // ---------------------------------------------------------------------

  /** The filter as it shows in a key: absent for `None` and `""`, otherwise
      lower-cased. */
  function NormalisedFilter(nameFilter: Option<string>): Option<string>
  {
    if FilterGiven(nameFilter) then Some(Lower(nameFilter.value)) else None
  }

  /** `generate_cache_key`: `<prefix>:all` without a filter,
      `<prefix>:name=<lower-cased filter>` with one. */
  function GenerateCacheKey(prefix: string, nameFilter: Option<string>): (key: string)
    ensures |key| > |prefix| && key[..|prefix|] == prefix && key[|prefix|] == ':'
    ensures NormalisedFilter(nameFilter) == None ==> key[|prefix| + 1..] == "all"
    ensures NormalisedFilter(nameFilter).Some? ==>
              key[|prefix| + 1..] == "name=" + NormalisedFilter(nameFilter).value
  {
    var filterPart := if FilterGiven(nameFilter) then "name=" + Lower(nameFilter.value) else "all";
    prefix + ":" + filterPart
  }

  /** `None` and `""` give the same key, `<prefix>:all`. */
  lemma KeyWithoutFilter(prefix: string)
    ensures GenerateCacheKey(prefix, None) == GenerateCacheKey(prefix, Some("")) == prefix + ":all"
  {
  }

  /** Filters that are equal after lower-casing give the same key. */
  lemma KeyCaseInsensitive(prefix: string, f1: string, f2: string)
    requires Lower(f1) == Lower(f2)
    ensures GenerateCacheKey(prefix, Some(f1)) == GenerateCacheKey(prefix, Some(f2))
  {
    assert |f1| == |Lower(f1)| == |Lower(f2)| == |f2|;
  }

  /** Position of the first `:` in `k` (or `|k|` when there is none). */
  function ColonIndex(k: string): (i: nat)
    ensures i <= |k|
  {
    if k == [] || k[0] == ':' then 0 else 1 + ColonIndex(k[1..])
  }

  lemma {:induction false} ColonIndexAfterPrefix(p: string, s: string)
    requires ':' !in p
    ensures ColonIndex(p + ":" + s) == |p|
  {
    if p != [] {
      assert (p + ":" + s)[1..] == p[1..] + ":" + s;
      ColonIndexAfterPrefix(p[1..], s);
    }
  }

  /** With colon-free prefixes, `p + ":" + s` determines `p` and `s`. */
  lemma SplitAtFirstColon(p1: string, s1: string, p2: string, s2: string)
    requires ':' !in p1 && ':' !in p2
    requires p1 + ":" + s1 == p2 + ":" + s2
    ensures p1 == p2 && s1 == s2
  {
    var k := p1 + ":" + s1;
    ColonIndexAfterPrefix(p1, s1);
    ColonIndexAfterPrefix(p2, s2);
    assert p1 == k[..|p1|] == p2;
    assert s1 == k[|p1| + 1..] == s2;
  }

  /** Keys do not collide: for prefixes without `:`, equal keys mean equal
      prefixes and equal normalised filters. */
  lemma KeyInjective(p1: string, f1: Option<string>, p2: string, f2: Option<string>)
    requires ':' !in p1 && ':' !in p2
    requires GenerateCacheKey(p1, f1) == GenerateCacheKey(p2, f2)
    ensures p1 == p2 && NormalisedFilter(f1) == NormalisedFilter(f2)
  {
    var k := GenerateCacheKey(p1, f1);
    var s1 := k[|p1| + 1..];
    var s2 := k[|p2| + 1..];
    assert k == p1 + ":" + s1;
    assert k == p2 + ":" + s2;
    SplitAtFirstColon(p1, s1, p2, s2);
    var n1, n2 := NormalisedFilter(f1), NormalisedFilter(f2);
    if n1.Some? && n2.Some? {
      assert ("name=" + n1.value)[5..] == n1.value;
      assert ("name=" + n2.value)[5..] == n2.value;
    }
  }

  /** Distinct prefixes with the same filter always give distinct keys,
      whatever characters the prefixes hold. */
  lemma KeyPrefixInjective(p1: string, p2: string, nameFilter: Option<string>)
    requires GenerateCacheKey(p1, nameFilter) == GenerateCacheKey(p2, nameFilter)
    ensures p1 == p2
  {
    var k := GenerateCacheKey(p1, nameFilter);
    assert |p1| == |p2|;
    assert p1 == k[..|p1|];
  }

  /** Under one prefix, equal keys mean equal normalised filters. */
  lemma SamePrefixFilterDetermined(p: string, f1: Option<string>, f2: Option<string>)
    requires GenerateCacheKey(p, f1) == GenerateCacheKey(p, f2)
    ensures NormalisedFilter(f1) == NormalisedFilter(f2)
  {
    var n1, n2 := NormalisedFilter(f1), NormalisedFilter(f2);
    if n1.Some? && n2.Some? {
      assert ("name=" + n1.value)[5..] == n1.value;
      assert ("name=" + n2.value)[5..] == n2.value;
    }
  }

  /** Without the colon-free condition keys can collide when both the prefix
      and the filter differ: a prefix may itself look like a prefix plus a
      filter part. */
  lemma KeyCollisionWithColonPrefix()
    ensures GenerateCacheKey("t:name=x", None) == GenerateCacheKey("t", Some("x:all"))
  {
    assert Lower("x:all") == "x:all";
  }

  // ---------------------------------------------------------------------
  // Stored values and the server's keyspace
  // ---------------------------------------------------------------------

  /** A string held by Redis, classified by what `json.loads` makes of it:
      the JSON text of a list of records (what `set_cache` writes), the empty
      string, or text that fails to decode. */
  datatype Stored = Records(tracks: seq<Track>) | Blank | Corrupt

  /** A key's value and the server time (seconds) at which it expires. */
  datatype Entry = Entry(value: Stored, expiresAt: int)

  /** Redis `GET`: the value of a key that exists and has not expired. */
  function ServerGet(store: map<string, Entry>, now: int, key: string): (r: Option<Stored>)
    ensures r.Some? <==> key in store && now < store[key].expiresAt
    ensures r.Some? ==> r.value == store[key].value
  {
    if key in store && now < store[key].expiresAt then Some(store[key].value) else None
  }

  /** `json.dumps` of a list of records. */
  function Dumps(data: seq<Track>): (s: Stored)
    ensures s != Blank && s != Corrupt
  {
    Records(data)
  }

  /** `json.loads`: fails on text that is not JSON (and on the empty string). */
  function Loads(s: Stored): (r: Result<seq<Track>, string>)
    ensures r.Success? <==> s.Records?
  {
    match s
    case Records(tracks) => Success(tracks)
    case Blank => Failure("Expecting value")
    case Corrupt => Failure("Expecting value")
  }

  /** Decoding inverts encoding. */
  lemma LoadsDumps(data: seq<Track>)
    ensures Loads(Dumps(data)) == Success(data)
  {
  }

  /** What `get_cache` returns when the backend answers: the decoded records
      of a live, non-empty, decodable value, else nothing. */
  function CachedValue(store: map<string, Entry>, now: int, key: string): (r: Option<seq<Track>>)
  {
    match ServerGet(store, now, key)
    case None => None
    case Some(Blank) => None
    case Some(s) => match Loads(s) { case Success(v) => Some(v) case Failure(_) => None }
  }

  /** The keyspace after `SET key <data> EX ttl` at time `now`. */
  function StoreAfterSet(store: map<string, Entry>, now: int, key: string, data: seq<Track>, ttl: int): map<string, Entry>
  {
    store[key := Entry(Dumps(data), now + ttl)]
  }

  /** A value written with expiry `ttl` is read back until `ttl` seconds have passed. */
  lemma CachedAfterSet(store: map<string, Entry>, now: int, key: string, data: seq<Track>, ttl: int, later: int)
    requires now <= later < now + ttl
    ensures CachedValue(StoreAfterSet(store, now, key, data, ttl), later, key) == Some(data)
  {
  }

  /** ...and is gone once they have. */
  lemma ExpiredAfterTtl(store: map<string, Entry>, now: int, key: string, data: seq<Track>, ttl: int, later: int)
    requires later >= now + ttl
    ensures CachedValue(StoreAfterSet(store, now, key, data, ttl), later, key) == None
  {
  }

  /** A write touches only its own key. */
  lemma SetLeavesOtherKeys(store: map<string, Entry>, now: int, key: string, data: seq<Track>, ttl: int, other: string, later: int)
    requires other != key
    ensures CachedValue(StoreAfterSet(store, now, key, data, ttl), later, other) == CachedValue(store, later, other)
  {
  }

  // ---------------------------------------------------------------------
  // The module-global client
  // ---------------------------------------------------------------------

  /** A `redis.Redis` client object; `open` is false once `close()` has
      completed on it. `get_cache` and `set_cache` do not look at it: a closed
      `redis.asyncio` client reconnects on its next command. */
  datatype Connection = Connection(open: bool)

  /** The module state of `redis_client.py` together with the Redis server it
      talks to. */
  class RedisCache {
    /** The module-global `redis_client`: `None` until a successful
        `init_redis_pool`, and after a failed one (degraded mode). */
    var client: Option<Connection>
    /** The server's keyspace. */
    var store: map<string, Entry>
    /** The server's clock, in seconds. */
    var now: int

    /** Module import: no client yet; the server already holds `serverStore`. */
    constructor (serverStore: map<string, Entry>, clock: int)
      ensures client == None && store == serverStore && now == clock
    {
      client := None;
      store := serverStore;
      now := clock;
    }

    /** `init_redis_pool`: build a client and ping the server; on any failure
        of either the handle is set back to `None`. */
    method InitRedisPool(connectFails: bool)
      modifies this`client
      ensures client == if connectFails then None else Some(Connection(true))
    {
      client := Some(Connection(true));
      if connectFails {
        client := None;
      }
    }

    /** `close_redis_pool`: closes an existing client and leaves the handle
        set; with no client it does nothing. `close()` is awaited outside any
        `try`, so its failure (`closeFails`) raises to the caller (`raised`),
        and the handle stays as it was. */
    method CloseRedisPool(closeFails: bool) returns (raised: bool)
      modifies this`client
      ensures raised <==> old(client).Some? && closeFails
      ensures old(client) == None ==> client == None
      ensures old(client).Some? && closeFails ==> client == old(client)
      ensures old(client).Some? && !closeFails ==> client == Some(Connection(false))
    {
      raised := false;
      if client.Some? {
        if closeFails {
          raised := true;
          return;
        }
        client := Some(Connection(false));
      }
    }

    /** `get_redis_client`: the current handle. */
    function GetRedisClient(): (c: Option<Connection>)
      reads this
      ensures c == client
    {
      client
    }

    /** `get_cache`: never fails; without a client, on a backend error, on a
        missing, expired or empty value and on a decoding error it returns
        `None`, otherwise the decoded records. Reads nothing else and changes
        nothing. */
    method GetCache(key: string, backendFails: bool) returns (r: Option<seq<Track>>)
      ensures r.Some? <==>
                && client.Some? && !backendFails
                && key in store && now < store[key].expiresAt && store[key].value.Records?
      ensures r.Some? ==> r.value == store[key].value.tracks
      ensures client.Some? && !backendFails ==> r == CachedValue(store, now, key)
    {
      var c := GetRedisClient();
      if c.None? {
        return None;
      }
      if backendFails {
        return None;
      }
      var cachedData := ServerGet(store, now, key);
      if cachedData.Some? && cachedData.value != Blank {
        match Loads(cachedData.value)
        case Success(v) => r := Some(v);
        case Failure(_) => r := None;
      } else {
        r := None;
      }
    }

    /** `set_cache`: without a client nothing happens; otherwise the records
        are written under `key` alone, expiring `ttl` seconds from now. A
        backend error, and a `ttl` the server rejects (not positive), leave
        the keyspace as it was. */
    method SetCache(key: string, data: seq<Track>, backendFails: bool, ttl: int := CACHE_TTL)
      modifies this`store
      ensures client == None || backendFails || ttl <= 0 ==> store == old(store)
      ensures client.Some? && !backendFails && ttl > 0 ==>
                store == StoreAfterSet(old(store), now, key, data, ttl)
      ensures forall k :: k != key ==> (k in store <==> k in old(store))
      ensures forall k :: k != key && k in store ==> store[k] == old(store)[k]
    {
      var c := GetRedisClient();
      if c.None? {
        return;
      }
      var serializedData := Dumps(data);
      if backendFails || ttl <= 0 {
        return;
      }
      store := store[key := Entry(serializedData, now + ttl)];
    }

    /** Time passes on the server. */
    method AdvanceClock(seconds: nat)
      modifies this`now
      ensures now == old(now) + seconds
    {
      now := now + seconds;
    }
  }

  // ---------------------------------------------------------------------
  // Call sequences
  // ---------------------------------------------------------------------

  /** Connected, no failures: a value set with the default expiry is read
      back for the next `CACHE_TTL` seconds. */
  method SetThenGet(serverStore: map<string, Entry>, clock: int, key: string, data: seq<Track>, elapsed: nat)
    returns (r: Option<seq<Track>>)
    requires elapsed < CACHE_TTL
    ensures r == Some(data)
  {
    var cache := new RedisCache(serverStore, clock);
    cache.InitRedisPool(false);
    cache.SetCache(key, data, false);
    cache.AdvanceClock(elapsed);
    r := cache.GetCache(key, false);
  }

  /** After `CACHE_TTL` seconds the value is gone. */
  method SetThenGetExpired(serverStore: map<string, Entry>, clock: int, key: string, data: seq<Track>, elapsed: nat)
    returns (r: Option<seq<Track>>)
    requires elapsed >= CACHE_TTL
    ensures r == None
  {
    var cache := new RedisCache(serverStore, clock);
    cache.InitRedisPool(false);
    cache.SetCache(key, data, false);
    cache.AdvanceClock(elapsed);
    r := cache.GetCache(key, false);
  }

  /** A failed connect leaves the cache degraded: every later read misses,
      whatever the server holds, and writes change nothing. */
  method DegradedAfterFailedInit(serverStore: map<string, Entry>, clock: int, key: string, data: seq<Track>, ttl: int)
    returns (r: Option<seq<Track>>, finalStore: map<string, Entry>)
    ensures r == None
    ensures finalStore == serverStore
  {
    var cache := new RedisCache(serverStore, clock);
    cache.InitRedisPool(true);
    cache.SetCache(key, data, false, ttl);
    finalStore := cache.store;
    r := cache.GetCache(key, false);
  }

  /** Closing keeps the handle, so a closed client still reads and writes
      (a closed `redis.asyncio` client reconnects on its next command). */
  method GetAfterClose(serverStore: map<string, Entry>, clock: int, key: string, data: seq<Track>)
    returns (handle: Option<Connection>, r: Option<seq<Track>>)
    ensures handle == Some(Connection(false))
    ensures r == Some(data)
  {
    var cache := new RedisCache(serverStore, clock);
    cache.InitRedisPool(false);
    var raised := cache.CloseRedisPool(false);
    handle := cache.GetRedisClient();
    cache.SetCache(key, data, false);
    r := cache.GetCache(key, false);
  }

  /** Records cached under the key for filter "Love" are found under the key
      for "LOVE": both are `tracks:name=love`. */
  method CaseInsensitiveHit(serverStore: map<string, Entry>, clock: int, data: seq<Track>)
    returns (key: string, r: Option<seq<Track>>)
    ensures key == "tracks:name=love"
    ensures r == Some(data)
  {
    var cache := new RedisCache(serverStore, clock);
    cache.InitRedisPool(false);
    key := GenerateCacheKey("tracks", Some("Love"));
    assert Lower("Love") == "love";
    cache.SetCache(key, data, false);
    var lookupKey := GenerateCacheKey("tracks", Some("LOVE"));
    KeyCaseInsensitive("tracks", "Love", "LOVE");
    r := cache.GetCache(lookupKey, false);
  }
}
