# URL shortener engine: a Dafny model of redis.go

This project models the shortlink engine of a small Go URL-shortening
service. The engine is `RedisCli` in `redis.go`. It has three operations:

- `Shorten(url, exp)` fingerprints the URL with SHA-1 and probes the dedup
  entry `urlhash:<sha1>:url`. On a hit it returns the stored code. On a miss
  it increments the global counter `next.url.id`, reads it back, encodes it
  in base 62 as the new code, and then makes three SET calls:
  `shortlink:<code>:url` gets the URL, `urlhash:<sha1>:url` gets the code,
  and `shortlink:<code>:detail` gets the JSON detail `{url, created_at,
  expiration_in_minutes}`. It returns that JSON.
- `Unshorten(code)` reads `shortlink:<code>:url`.
- `ShortlinkInfo(code)` reads `shortlink:<code>:detail`.

A missing key in either lookup is a 404 status error. Any other Redis
error is passed through unchanged. Shorten stops at its first failing
Redis call, and nothing written before that call is undone.

Two details of the code are modelled as written:

- The two success paths return different things. A dedup hit returns the
  stored code (redis.go:53). A miss returns the marshalled detail
  (redis.go:86), not the new code.
- A dedup entry whose value is `{}` counts as a miss (redis.go:50-51),
  although the engine never writes that value. `PlaceholderIsNoCode` shows
  that no code the engine writes can be `{}`.

## How the model is built

- `keys.dfy`, module `Keys`: the four keys of redis.go:13-18. Each key
  family is proved injective, and the families are proved pairwise
  disjoint and distinct from the counter key.
- `redis.dfy`, module `Redis`:
  - Redis is the class `RedisCli` with two fields. `data` holds the string
    keys. `nextUrlId` holds the integer under `next.url.id`, with 0 while
    that key is absent. Because the key families are disjoint, the counter
    can live apart from the map, and `Consistent` keeps `next.url.id` out
    of `data`.
  - `Shorten` is an imperative method that follows the Go code step by
    step, with the same early returns.
  - `Unshorten` and `ShortlinkInfo` are `reads this` functions, so they
    cannot change the store.
  - The invariant `Consistent` holds in every state Shorten can leave
    behind, including a partial triple. It says that every code with a
    record was issued by the counter, and that every dedup entry other
    than `{}` names a URL record whose URL has that fingerprint.
- `scenarios.dfy`, module `Scenarios`: a caller that shortens the same URL
  twice. It shows what the contracts promise across calls.

Three library helpers are fields of the `Library` datatype: the SHA-1
fingerprint, `base62.Encode` and `json.Marshal` of a detail. The model
assumes only what `Library.Assumed` states:

- `toSha1` is injective on all strings. No 20-byte digest is; this
  idealises SHA-1 collisions as negligible;
- distinct positive ids encode to distinct codes;
- codes use only the base-62 alphabet.

Failing Redis calls are an input. The `faults` parameter of Shorten names
the calls that fail, and the lookups take a `failing` flag. INCR also fails
when the counter is at the largest 64-bit integer, as Redis refuses that
increment.

## Model

| member | source | states |
|---|---|---|
| `Keys.ShortLinkKeyInjective` | redis.go:15 | two codes share a `shortlink:%s:url` key exactly when they are equal |
| `Keys.UrlHashKeyInjective` | redis.go:16 | two fingerprints share a `urlhash:%s:url` key exactly when they are equal |
| `Keys.ShortlinkDetailKeyInjective` | redis.go:17 | two codes share a `shortlink:%s:detail` key exactly when they are equal |
| `Keys.KeyFamiliesDisjoint` | redis.go:13-18 | no URL key, dedup key and detail key coincide, and none of them is `next.url.id` |
| `Redis.DedupLookup` | redis.go:43-55 | the probe fails exactly when the GET fails; it hits exactly when the entry exists and is not `{}`, and the hit carries the stored value; an absent entry or `{}` is a miss, not an error |
| `Redis.SetsBeforeFailure` | redis.go:66-85 | the number of SET calls that take effect is the position of the first failing SET (3 when none fails) |
| `Redis.SetAllElsewhere` | redis.go:66-85 | a sequence of SET calls leaves every other key as it was |
| `Redis.TripleTouchesOnlyItsKeys` | redis.go:66-85 | whatever prefix of the three SET calls lands, no key besides the URL, dedup and detail keys of the new code changes |
| `Redis.TripleEffect` | redis.go:66-86 | after all three SET calls the URL key holds the URL, the detail key holds the marshalled detail with this URL, creation time and expiry, and a new probe for the URL hits the new code |
| `Redis.PlaceholderIsNoCode` | redis.go:50-53 | no base-62 code equals `{}`, so a dedup entry the engine wrote is never read as a miss |
| `Redis.NextCodeIsFresh` | redis.go:57-65 | in a consistent store the code of the next id was never issued, and neither its URL key nor its detail key exists |
| `Redis.IncrKeepsConsistent` | redis.go:57-60 | raising the counter by one keeps the store invariant |
| `Redis.SetUrlKeepsConsistent` | redis.go:66-69 | writing the URL record of a fresh, issued code keeps the store invariant |
| `Redis.SetHashKeepsConsistent` | redis.go:70-73 | writing the dedup entry after the code's URL record holds the URL keeps the store invariant |
| `Redis.SetDetailKeepsConsistent` | redis.go:82-85 | writing the detail record of an issued code keeps the store invariant |
| `Redis.TripleKeepsConsistent` | redis.go:57-85 | after the increment, every prefix of the three SET calls keeps the store invariant, so an aborted Shorten leaves a consistent partial triple |
| `Redis.HitResolvesToUrl` | redis.go:43-53 | in a consistent store a dedup hit names a code whose URL record holds exactly the URL being shortened |
| `Redis.UnissuedCodeHasNoRecords` | redis.go:88-107 | a code the counter never issued has no URL record and no detail record, so both lookups report it as not found |
| `Redis.RedisCli.constructor` | redis.go:30-40 | a client over a store that satisfies the invariant |
| `Redis.RedisCli.Shorten` | redis.go:42-87 | a failed probe or a hit returns the error or the stored code and changes nothing; a failed INCR changes nothing; a successful INCR raises the counter by exactly one; a failed read-back writes nothing; otherwise the SET calls before the first failing one take effect; success returns the detail only when all three land; the invariant is kept; on success the dedup entry resolves to the URL, and a miss issues a never-issued code whose detail is the returned string |
| `Redis.RedisCli.Unshorten` | redis.go:98-106 | succeeds exactly when the GET works and the code's URL key exists, and returns its value; a missing key is a 404 carrying Redis's nil error; a failing GET passes the store error through |
| `Redis.RedisCli.ShortlinkInfo` | redis.go:88-97 | succeeds exactly when the GET works and the code's detail key exists, and returns its value; a missing key is a 404 "Unknown short URL"; a failing GET passes the store error through |
| `Scenarios.ShortenTwice` | redis.go:42-86 | after a successful Shorten, a second Shorten of the same URL returns the code and changes nothing: the final store is either the initial one (a hit) or the initial one with the counter one higher and the first call's three records written (a miss); the code resolves to the URL; when the first call was a miss, the counter rose by one and the stored detail is the first call's, whatever expiry the second asks for |

## Left out

- Expiry: the TTL passed to the three SET calls (redis.go:66, 70, 82) is
  not modelled, so records never expire. The requested expiry is kept only
  as a field of the detail. The `time.Minute * exp` product and its
  possible overflow go with it.
- `Consistent`'s dedup clause, `HitResolvesToUrl` and the hit-path
  round trip in `Shorten` ("the dedup entry resolves to the URL") hold only
  because nothing expires in the model. The source does not keep them: the
  dedup key is SET at redis.go:70, after the URL key at redis.go:66, with
  the same TTL. So the dedup key outlives the URL key by the gap between
  the two calls. In that window a Shorten hit returns a code whose URL
  record has expired, and Unshorten on that code gives a 404.
- A failing Redis call is taken to have had no effect. A call whose reply
  is lost after Redis ran it (a read time-out or a connection reset) is not
  modelled. In the source, such a lost INCR (redis.go:57) leaves the
  counter one higher, and a lost SET (redis.go:66, 70, 82) leaves its key
  written, while Shorten still returns the error. So `Shorten`'s clauses
  "a failed INCR changes nothing" and "the SET calls before the first
  failing one take effect" do not cover that case. The states it reaches
  stay consistent: `IncrKeepsConsistent` covers the raised counter, and
  `TripleKeepsConsistent` covers a triple prefix one write longer.
- `time.Now().String()` (redis.go:76) is the parameter `now` of Shorten.
- `json.Marshal` (redis.go:74-78) is `Library.marshal`. Its error return
  (redis.go:79-81) is not modelled, because marshalling two strings and an
  integer cannot fail.
- The SHA-1 digest (redis.go:109-113) and `base62.Encode` (redis.go:65)
  are foreign library code. They are `Library` fields with the assumptions
  listed above.
- `NewReidsCli` (redis.go:30-40): the connection setup and the panic on a
  failed ping are network I/O. The constructor only takes the store state.
- Concurrency: calls are sequential. The INCR and the GET that reads the
  counter back (redis.go:57-61) are consecutive steps, so the read-back
  returns the incremented value. The race between two concurrent misses
  for one URL is not modelled.
- Redis error texts: a failing Redis call is identified by the call that
  failed (`StoreError`), not by Redis's message.
- app.go (HTTP routing, request decoding and validation, responses and
  redirects) is not part of this model. Of the request checks it makes
  before calling Shorten, only the expiry check (at least 0, app.go:21)
  takes effect. The URL's tag at app.go:20 is malformed (`validate"nonzero"`
  has no colon), so an empty URL reaches Shorten. No check is a
  precondition here: Shorten accepts any URL and any expiry, as redis.go
  does.
