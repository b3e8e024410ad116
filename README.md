# TTL cache and user service

A Dafny model of the two in-memory key/value services of the sample
project:

- `cache_service.dfy`, module `CacheService`: the generic cache of
  `CacheService.js`. A `Cache<K, V>` object holds the `entries` map (key to
  value, absolute expiry `exp` and creation time `created`, all in
  milliseconds) and the `hits`/`misses` counters that the source keeps in a
  module-level `Map` and object. Lookup, insertion with a TTL, the expiry
  test, the statistics snapshot and the two-pass sweep of expired entries are
  modelled, with the specification functions `ExpiryFor`, `ExpiredKeys` and
  `Swept` and lemmas about them.
- `user_service.dfy`, module `UserService`: the user store of
  `UserService.js` (`UserStore<P>`, the module-level `userCache` map, with
  `cacheUser` and `clearUserCache` as state-changing methods and the two
  lookups as functions reading it), session validation and display-name
  formatting.
- `wrappers.dfy`, module `Wrappers`: `Option` (for `undefined`) and `Result`
  (for a thrown exception).

The clock (`Date.now()`) is an explicit integer parameter `now`, in
milliseconds. `setCacheItem` reads the clock twice; the model uses one `now`
for both reads. JavaScript truthiness is written out: an omitted argument or
field is `None`, an empty string is treated like a missing one, a zero TTL
or expiry is falsy.

The model follows the code as written:

- Expiry is strict: an entry counts as expired only when `exp < now`, so an
  entry whose expiry equals `now` is still valid and survives a sweep.
- A negative TTL is accepted and gives an expiry before the time of storing
  (`NegativeTtlExpires`, `StoredLiveIff`). It is not rejected or clamped.
- `getCacheItem` returns a stored value even when it has expired.
- A lookup of a missing user in `getUserProfile` fails with a TypeError. The
  model returns `Err(TypeError)`.
- `formatDisplayName` with a first name but no last name renders
  `"John undefined"`, as the template literal does.

## Model

| member | source | states |
|---|---|---|
| CacheService.ExpiryFor | sample-project/src/services/CacheService.js:28 | an omitted or zero TTL gives `now + 3600000`; any other TTL gives `now + ttl*1000` |
| CacheService.ExpiredKeys | sample-project/src/services/CacheService.js:58-63 | the keys a sweep selects are exactly the stored keys whose expiry is strictly before `now` |
| CacheService.Swept | sample-project/src/services/CacheService.js:56-66 | the entries left after a sweep are the stored keys minus the expired ones, each with its value unchanged and an expiry not before `now` |
| CacheService.SweptSize | sample-project/src/services/CacheService.js:56-67 | entries kept plus keys removed equals the number of entries before the sweep |
| CacheService.SweptIdempotent | sample-project/src/services/CacheService.js:56-67 | after a sweep no expired key is left, and a second sweep at the same time changes nothing |
| CacheService.StoredLiveIff | sample-project/src/services/CacheService.js:27-43 | an entry just stored survives a sweep at the time of storing, with its value, exactly when its TTL is omitted or non-negative |
| CacheService.NegativeTtlExpires | sample-project/src/services/CacheService.js:28 | with a negative TTL the stored expiry is at least 1000 ms before the time of storing, so the entry is expired at once and a sweep then removes it |
| CacheService.Cache.constructor | sample-project/src/services/CacheService.js:6-7 | a new cache is empty with both counters at zero |
| CacheService.Cache.Get | sample-project/src/services/CacheService.js:13-21 | a present key yields its stored value, expired or not, and one more hit; an absent key yields `None` and one more miss; never fails; entries untouched; `hits + misses` grows by one |
| CacheService.Cache.Set | sample-project/src/services/CacheService.js:27-30 | the entry for `k` becomes `(v, ExpiryFor(ttl, now), now)`, replacing any old one; every other key and both counters are unchanged |
| CacheService.Cache.IsNotExpired | sample-project/src/services/CacheService.js:36-43 | true exactly when the key is stored and `now <= exp`, which is exactly when a sweep at `now` keeps it; reads only |
| CacheService.Cache.GetStats | sample-project/src/services/CacheService.js:48-50 | the snapshot carries the current hits, misses and the number of stored keys; reads only |
| CacheService.Cache.CollectExpired | sample-project/src/services/CacheService.js:57-63 | the first pass lists every expired key, each once, and nothing else |
| CacheService.Cache.DeleteAll | sample-project/src/services/CacheService.js:64-66 | the second pass removes exactly the listed keys and keeps the other entries as they were |
| CacheService.Cache.ClearExpiredItems | sample-project/src/services/CacheService.js:56-68 | the new entries are `Swept(old entries, now)` and the result is the number of expired keys, which is the number of entries removed |
| CacheService.SetThenGet | sample-project/src/services/CacheService.js:13-43 | after storing with a non-negative or default TTL, the key is valid at the same time and the lookup returns the value as a hit |
| CacheService.SweepTwice | sample-project/src/services/CacheService.js:56-68 | a second sweep at the same time returns 0 and the store equals the once-swept store |
| CacheService.ExpiryScenario | sample-project/src/services/CacheService.js:13-68 | an entry with a one-second TTL is invalid 1001 ms later, still returned by a lookup, removed by the sweep (count 1), and then missed; final stats are 1 hit, 1 miss, size 0 |
| CacheService.DefaultTtlScenario | sample-project/src/services/CacheService.js:27-43 | with no TTL the entry is valid exactly one hour after storing and expired one millisecond later |
| UserService.PrefixBefore | sample-project/src/services/UserService.js:57 | the result is a prefix of the email with no `'@'` in it, followed in the email by `'@'` unless it is the whole string |
| UserService.PrefixBeforeUnique | sample-project/src/services/UserService.js:57 | those three properties determine the part before the first `'@'` uniquely |
| UserService.ValidateSession | sample-project/src/services/UserService.js:39-50 | true exactly when the expiry is set and non-zero and after `now`, the creation time is set, and `now - created < t*1000` |
| UserService.ValidEarlier | sample-project/src/services/UserService.js:39-50 | a session valid at some time was valid at every earlier time |
| UserService.ValidWithinWindows | sample-project/src/services/UserService.js:39-50 | a valid session's expiry is after `now` and its creation time after `now - t*1000`; with `t <= 0` it was created after `now` |
| UserService.FormatDisplayName | sample-project/src/services/UserService.js:56-58 | a non-empty nickname wins; else a non-empty first name gives `"first last"`; else a non-empty email gives its part before the first `'@'`; else `"Anonymous"` |
| UserService.DisplayNameEmpty | sample-project/src/services/UserService.js:56-58 | the display name is empty exactly when it falls through to an email that starts with `'@'` |
| UserService.DisplayNameExamples | sample-project/tests/UserService.test.js:43-62 | the four display-name cases of the tests: `CoolUser`, `John Doe`, `john`, `Anonymous` |
| UserService.UserStore.constructor | sample-project/src/services/UserService.js:6 | a new user store is empty |
| UserService.UserStore.GetUserProfile | sample-project/src/services/UserService.js:12-15 | for a cached user, the record's profile field; for any other id, `Err(TypeError)` |
| UserService.UserStore.GetUserPermissions | sample-project/src/services/UserService.js:21-33 | the entry for the resource when the user is cached, active, has a permission table and a truthy entry for it; the empty list otherwise; the result is always truthy |
| UserService.UserStore.CacheUser | sample-project/src/services/UserService.js:63-65 | the record is stored under the id, replacing any old one, and the profile lookup of that id then succeeds with its profile; other ids unchanged |
| UserService.UserStore.ClearUserCache | sample-project/src/services/UserService.js:70-72 | the id is removed if present, other ids unchanged, and a profile lookup of it then fails |
| UserService.CacheUserIsolated | sample-project/src/services/UserService.js:63-65 | caching one user leaves the profile and permission lookups of every other user as they were |
| UserService.ClearTwice | sample-project/tests/UserService.test.js:18-21 | clearing an id twice, present or not, leaves the store as clearing it once does |
| UserService.ProfileExamples | sample-project/tests/UserService.test.js:23-40 | the profile tests: a cached user's profile is returned, a missing user gives `Err(TypeError)` |

## Left out

- The entry script `sample-project/src/index.js`: it seeds one user and logs to the console, with no logic of its own.
- The system clock: every `Date.now()` is the parameter `now`.
- Floating point: TTLs, timestamps and `ttl*1000` are unbounded integers. Fractional TTLs, `NaN` and the rounding of IEEE doubles are not modelled.
- UserService.ValidateSession: the session is always a record. A `null` or `undefined` session, for which the source throws a TypeError when it reads `s.e`, is not modelled.
- UserService.ValidateSession: the TTL `t` is an integer. An `undefined` TTL, which makes the source return false through `NaN`, is not modelled.
- Values of any JavaScript type: cache keys and values are type parameters; a user record is always an object, so the source's `if (user)` and `if (item)` tests always hold for a stored record. Storing `undefined` or `null` as a user record is not modelled.
- UserService.UserStore.GetUserPermissions: permission values are booleans or arrays (`Grant`). Other value types, and names inherited from `Object.prototype` that a plain object answers for, are not modelled.
- UserService.FormatDisplayName: a `null` last name (which would render as `"null"`) is not distinguished from a missing one.
- Map iteration order: the sweep visits keys in an unspecified order, where the source visits them in insertion order. The order does not affect the result.
- Module singletons: each store is one object. Sharing it between importers and module loading are not modelled.
