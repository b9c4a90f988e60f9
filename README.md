# music-store-backend: track listing and Redis cache, modelled in Dafny

The backend serves a list of music tracks, two ways:

- a REST endpoint `GET /api/tracks/?name=…` (`read_tracks` in `main.py`);
- a GraphQL query `tracks(nameFilter: …)` (`get_tracks_resolver` in `graphql_schema.py`).

Each returns one record per row of the Track ⋈ Album ⋈ Artist ⋈ Genre join.
A record has five string fields: `name, album, artist, duration, genre`.
When a filter is given, only tracks whose name contains it (ignoring case) are returned.
The duration is whole seconds: the millisecond count floor-divided by 1000.

Beside them, `redis_client.py` is a stand-alone Redis cache layer. It has:

- a cache-key builder;
- a module-global client, connected by `init_redis_pool` (which nothing in the shown code calls), or left `None` when connecting fails;
- `get_cache`, which never raises and answers `None` on any problem;
- `set_cache`, a best-effort write with a time-to-live (default 60 s) that swallows errors.

No endpoint calls the cache layer, so the model keeps it on its own.

Files and modules:

- `wrappers.dfy` (`Wrappers`): `Option` for Python's `None`, and `Result` for an exception, caught or not.
- `text.dfy` (`Text`): the string helpers. These are ASCII lower-casing, literal substring search (the meaning of `LIKE '%x%'`), and `str(int)` with a parser that inverts it.
- `tracks.dfy` (`Tracks`): the output record, the joined row, and the name filter shared by both endpoints.
- `graphql_schema.dfy` (`GraphqlSchema`): the resolver. It is a method with the source's loop, proved against the function `ResolvedTracks`.
- `tracks_api.dfy` (`TracksApi`): `read_tracks`, a pure function over the joined rows.
- `redis_client.dfy` (`RedisClient`): the key builder, plus the class `RedisCache`. The class holds the global handle, the server's keyspace and the server's clock.

Facts about the code that shape the model:

- There is no read-through function (get, fetch on a miss, set). Only `get_cache` and `set_cache` exist, and no endpoint calls them.
- Keys for the same filter never collide, whatever the prefixes (`KeyPrefixInjective`). Under the same prefix, equal keys mean equal normalised filters (`SamePrefixFilterDetermined`). The normalised filter is `None` for `None` and `""`, and the lower-cased filter otherwise. So keys can collide only when both the prefix and the filter differ, and a prefix contains `:` (`KeyCollisionWithColonPrefix`). For prefixes without `:`, distinct (prefix, normalised filter) pairs never share a key (`KeyInjective`).
- Only the GraphQL resolver turns a NULL duration into "0". `read_tracks` divides `None` by 1000 and the request fails (`NullDurationDiverges`).
- `close_redis_pool` keeps the handle. A failing `close()` raises to its caller, because it is not inside a `try`.

## Model

| member | source | states |
|---|---|---|
| `Text.Lower` | redis_client.py:73 | lower-casing keeps the length and maps each ASCII capital to its small letter, leaving all else |
| `Text.ContainsIff` | graphql_schema.py:34 | the substring test behind `LIKE '%f%'` holds exactly when the pattern occurs at some position of the name |
| `Text.ParseIntToString` | main.py:49 | the decimal rendering `str(n)` reads back as `n`, for negative `n` too |
| `Text.IntToStringInjective` | graphql_schema.py:41 | distinct second counts render as distinct duration strings |
| `Tracks.FilterByName` | graphql_schema.py:34 | the filtered result is no longer than the join, and every row in it comes from the join and matches the name |
| `Tracks.SelectByName` | graphql_schema.py:33-34 | `None` and `""` return every joined row; a non-empty filter keeps each row whose lower-cased name contains the lower-cased filter, as often as the join holds it, and no other row |
| `Tracks.FilterByNameCount` | graphql_schema.py:34 | each matching row is kept exactly as many times as the join holds it; every other row is dropped |
| `Tracks.FilterByNameKeeps` | main.py:39 | no row whose name contains the filter (ignoring case) is lost |
| `Tracks.FilterByNameAllMatch` | main.py:38-39 | when every row matches, the filter returns the join in its original order |
| `Tracks.FilterByNameCaseInsensitive` | main.py:39 | filters that agree after lower-casing select the same rows in the same order |
| `Tracks.NameMatchesOwnName` | main.py:39 | a filter that equals a track's name up to case selects that track |
| `GraphqlSchema.DurationSeconds` | graphql_schema.py:41 | the duration is a canonical decimal string; for a non-zero `ms` it reads back as `d` with `d*1000 <= ms < (d+1)*1000` (Python's `//`); a NULL or zero duration reads back as 0 |
| `GraphqlSchema.GetTracksResolver` | graphql_schema.py:17-51 | one `TrackType` per selected row, in row order; name, album, artist and genre are copied; the duration is `DurationSeconds` of the row |
| `GraphqlSchema.QueryTracks` | graphql_schema.py:57-59 | `Query.tracks` returns what the resolver returns for the same `nameFilter` |
| `GraphqlSchema.NoFilterReturnsAll` | graphql_schema.py:33 | with `None` or `""`, every joined row yields a track, in order |
| `GraphqlSchema.FilteredNamesMatch` | graphql_schema.py:33-34 | with a filter, each returned track's lower-cased name contains the lower-cased filter |
| `GraphqlSchema.ResolvedCaseInsensitive` | graphql_schema.py:34 | filters equal after lower-casing return the same list |
| `TracksApi.ReadTracks` | main.py:25-53 | succeeds exactly when no selected row has a NULL `Milliseconds`; then one `Track` per selected row, in order, names copied, duration `str(Milliseconds // 1000)`; otherwise fails at the first selected NULL row |
| `TracksApi.TracksOf` | main.py:44-53 | when no row has a NULL `Milliseconds`, one `Track` per row in order, with the four names copied and `str(Milliseconds // 1000)`; otherwise a failure at the first NULL row |
| `TracksApi.ReadTracksDurationFloor` | main.py:49 | each returned duration reads back as whole seconds rounded down |
| `TracksApi.ReadTracksNullOutsideFilter` | main.py:38-49 | NULL durations in rows the filter drops do not make the request fail |
| `TracksApi.ReadTracksAgreesWithResolver` | main.py:44-53 | when `read_tracks` succeeds, it returns exactly what the GraphQL resolver returns for the same filter |
| `TracksApi.NullDurationDiverges` | main.py:49 | on a selected row with NULL duration, GraphQL reports "0" while `read_tracks` fails at or before that row |
| `RedisClient.GenerateCacheKey` | redis_client.py:71-74 | the key is the prefix, then `:`, then `all` without a filter or `name=` and the lower-cased filter with one |
| `RedisClient.KeyWithoutFilter` | redis_client.py:73 | `None` and `""` both give `<prefix>:all` |
| `RedisClient.KeyCaseInsensitive` | redis_client.py:73 | filters equal after lower-casing give the same key |
| `RedisClient.KeyInjective` | redis_client.py:73-74 | for prefixes without `:`, equal keys imply equal prefixes and equal normalised filters |
| `RedisClient.SamePrefixFilterDetermined` | redis_client.py:73 | under one prefix, equal keys imply equal normalised filters (`None` for no or empty filter, else the lower-cased filter) |
| `RedisClient.KeyPrefixInjective` | redis_client.py:74 | two prefixes with the same filter give the same key only if they are equal |
| `RedisClient.KeyCollisionWithColonPrefix` | redis_client.py:74 | with a `:` in the prefix, two pairs differing in both prefix and filter can give one key |
| `RedisClient.ServerGet` | redis_client.py:52 | Redis `GET` answers the stored value exactly for a present key that has not expired |
| `RedisClient.Dumps` | redis_client.py:66 | serialising records never gives the empty or an undecodable string |
| `RedisClient.Loads` | redis_client.py:54 | decoding succeeds exactly on serialised records |
| `RedisClient.LoadsDumps` | redis_client.py:54 | decoding what `set_cache` serialised gives back the records |
| `RedisClient.CachedAfterSet` | redis_client.py:67 | a value written with expiry `ttl` is read back at every time before `ttl` seconds pass |
| `RedisClient.ExpiredAfterTtl` | redis_client.py:67 | once `ttl` seconds have passed, the written value reads as a miss |
| `RedisClient.SetLeavesOtherKeys` | redis_client.py:67 | a write does not change what any other key reads |
| `RedisClient.RedisCache.constructor` | redis_client.py:16 | at import there is no client; the server keeps whatever it already holds |
| `RedisClient.RedisCache.InitRedisPool` | redis_client.py:18-33 | after a failed construction or ping the handle is `None`, otherwise an open client; the keyspace is untouched |
| `RedisClient.RedisCache.CloseRedisPool` | redis_client.py:35-39 | closes an existing client without clearing the handle; with no client it does nothing; a failing `close()` raises to the caller and leaves the handle as it was |
| `RedisClient.RedisCache.GetRedisClient` | redis_client.py:41-43 | returns the current module-global handle |
| `RedisClient.RedisCache.GetCache` | redis_client.py:46-58 | returns records exactly when a client exists, the backend answers, and the key holds a live, decodable value; `None` in every other case; changes nothing |
| `RedisClient.RedisCache.SetCache` | redis_client.py:60-69 | without a client, on a backend error or with a non-positive `ttl`, the keyspace is unchanged; otherwise only `key` is written, expiring `ttl` (default 60) seconds from now |
| `RedisClient.SetThenGet` | redis_client.py:60-67 | connected and without failures, a value set with the default TTL is read back for the next 60 seconds |
| `RedisClient.SetThenGetExpired` | redis_client.py:14 | 60 or more seconds after a default-TTL write, the read misses |
| `RedisClient.DegradedAfterFailedInit` | redis_client.py:29-33 | after a failed connect, a write leaves the keyspace exactly as it was and a read misses |
| `RedisClient.GetAfterClose` | redis_client.py:37-38 | the handle survives `close_redis_pool` (it holds a closed client), and a later write and read still reach the server |
| `RedisClient.CaseInsensitiveHit` | redis_client.py:73 | records cached for filter "Love" (key `tracks:name=love`) are found when looking up "LOVE" |

## Left out

- The SQL join and its execution (`database.py`, `models.py`, the `select`/`join` calls): a query result is given as a sequence of joined rows.
- Row order: the queries have no `ORDER BY`, so SQL promises no order. The model assumes the filtered result lists the matching rows in the order of the unfiltered join. `FilterByNameAllMatch`, `FilterByNameCaseInsensitive` and `ResolvedCaseInsensitive` state equal sequences under this assumption; without it they hold only as equal multisets of rows.
- The GraphQL resolver names lower-case ORM attributes (`Track.name`, `album_id`, …) that `models.py` does not declare. The model keeps the mapping logic and ignores attribute resolution.
- NULL values in the string columns (track, album, artist and genre names) are not modelled. Only `Milliseconds` is nullable in the model.
- `LIKE`/`ILIKE` wildcards: a `%` or `_` inside the filter is read as a literal character.
- Lower-casing covers ASCII only. SQLite's built-in `lower()` also folds ASCII only, but Python's `str.lower` folds other Unicode letters too. Non-ASCII letters in a filter or cache key are therefore not modelled.
- Redis network I/O, connection pooling and `async` suspension: every backend call is a map operation. The exceptions of client construction and ping, of `get`, of `set` and of `close` are each a boolean parameter.
- After `close_redis_pool`, the model assumes a closed `redis.asyncio` client serves later commands by reconnecting. That is the library's behaviour and does not show in `redis_client.py`. So `get_cache` and `set_cache` ignore whether the client was closed (`Connection.open`). Key expiry is driven by an explicit server clock (`AdvanceClock`). Eviction under memory pressure is not modelled.
- JSON encoding internals: a stored string is classified as serialised records, the empty string, or undecodable text. Stored JSON that decodes to something other than a list of records is not modelled, and neither is `set_cache` with data other than a list of records.
- Configuration from the environment (`REDIS_HOST`, `REDIS_PORT`, `REDIS_DB`, `REDIS_PASSWORD`, `CACHE_TTL_SECONDS`): `CACHE_TTL` is the default 60.
- Logging via `print` in the cache layer.
- `auth.py` (bcrypt, JWT) and the HTTP/GraphQL framework wiring (CORS, routing, the `strawberry` schema, pydantic config) are not part of this model.
- `test_main.py` checks `/token` and 401 behaviour that `main.py` does not have, so no property is taken from it.
- Concurrent requests sharing the Redis handle: the model covers single-threaded call sequences only.
