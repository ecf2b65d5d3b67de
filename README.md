# Fixed-window rate limiter over a TTL key-value store

This project models the decision logic of the `ratelimit` package: a `RateLimit`
object that counts the actions of an identifier in a Redis key
`<prefix>:<identifier>:usage`. It admits an action while the count is below `rate`.
Once the count reaches `rate`, it denies with a `FloodWait` carrying a retry delay and
can place a restriction marker `<prefix>:<identifier>:restrict` for `retry_after`
seconds.

Modules:

- `Wrappers` (wrappers.dfy): `Option` and `Reply` (a store reply or the error the store raises).
- `Errors` (flood_wait.dfy): the `FloodWait` record and `to_dict`. The `"rate"` field is built with Python's `str(int)`, modelled in decimal, and a parser recovers every field from the record.
- `Store` (store.dfy): the store as a map from key to `Entry(value, ttl)`. The commands GET, INCR, SETEX, EXPIRE, TTL and DEL follow Redis's semantics, first as functions on the map and then as methods of a `Redis` class that update its `data` field. Time passing is a `Tick` that lowers every TTL by one second and drops the keys whose TTL reaches zero. TTL answers are -2 for a missing key and -1 for a key with no expiry. INCR keeps the TTL and fails at the signed 64-bit maximum. SETEX refuses a non-positive expiry. EXPIRE with a non-positive timeout deletes the key.
- `Limiter` (limiter.dfy): the key namespace, `getUsage`, `getRemaining`, `restrict` and `acquire` as functions of the store's contents, plus the lemmas about them.
- `RateLimiter` (rate_limit.dfy): the `RateLimit` class. Its policy fields are `const`, so they cannot change after construction. Its methods call the `Redis` object step by step, as the source does, and each is proved equal to its `Limiter` function.

The exception is modelled as the `Denied(FloodWait)` result of `Outcome`. A store error that the source lets propagate becomes `Failed(message)`.

The admit/deny boundary follows the code's `usage >= self.rate` (ratelimit/__init__.py:134). From a fresh identifier, calls 1 to `rate` are admitted and call `rate + 1` is denied. A `usage > rate` test would admit `rate + 1` calls; the code does not do that, and neither does the model.

## Model

| member | source | states |
|---|---|---|
| `Errors.ToDict` | ratelimit/__init__.py:29-35 | the record has exactly the keys `message`, `rate` and `retry_after` |
| `Errors.ToDictRoundTrip` | ratelimit/__init__.py:29-35 | the record loses nothing: message, rate, period and retry delay are all recovered from it |
| `Errors.RateTextRoundTrip` | ratelimit/__init__.py:33 | the `"{rate}/{period}"` text splits back into the same rate and period, negatives included |
| `Errors.IntDecimalRoundTrip` | ratelimit/__init__.py:33 | `str(i)` of any integer parses back to `i` |
| `Errors.NatDecimalRoundTrip` | ratelimit/__init__.py:33 | the digits of a non-negative integer have that integer as their value |
| `Errors.NatToDecimal` | ratelimit/__init__.py:33 | `str(n)` is a non-empty string of digits; it starts with `0` only when it is exactly `"0"` for `n == 0` |
| `Errors.IntToDecimal` | ratelimit/__init__.py:33 | `str(i)` is non-empty and contains no `/`, so the rate text has exactly one separator |
| `Errors.SplitAtSlashFirst` | ratelimit/__init__.py:33 | a text without `/`, a `/` and any rest split back at that `/` |
| `Store.GetValue` | ratelimit/__init__.py:82 | GET answers a value exactly when the key is present, and that value is the stored one |
| `Store.TtlOf` | ratelimit/__init__.py:95 | TTL answers -2 exactly for a missing key, -1 exactly for a key without expiry, and the positive seconds left otherwise |
| `Store.ElapseForAt` | ratelimit/__init__.py:108-110 | after `t` seconds a key with more than `t` seconds left has `t` fewer, one with at most `t` is gone, a persistent key is unchanged and no key appears |
| `Store.Redis.Get` | ratelimit/__init__.py:82 | GET reads the stored value, if any, without changing the store |
| `Store.Redis.Ttl` | ratelimit/__init__.py:95 | TTL reads the key's TTL answer without changing the store |
| `Store.Redis.Incr` | ratelimit/__init__.py:147 | INCR adds one to the value (a missing key becomes 1 with no expiry) and keeps the TTL; on overflow it fails and changes nothing |
| `Store.Redis.SetEx` | ratelimit/__init__.py:108-110 | SETEX replaces value and TTL; a non-positive expiry fails and changes nothing |
| `Store.Redis.Expire` | ratelimit/__init__.py:149 | EXPIRE sets the TTL of an existing key, deletes it on a non-positive timeout, and leaves a missing key missing |
| `Store.Redis.Delete` | ratelimit/__init__.py:135 | DEL removes the key and reports whether it was there |
| `Store.Redis.Tick` | ratelimit/__init__.py:147-149 | one second passes: every TTL drops by one and keys reaching zero disappear |
| `Limiter.KeyOf` | ratelimit/__init__.py:151-152 | `_get_key`; no ensures of its own: `KeyInjective`, `UsageRestrictDistinct` and `KeysSeparate` state its properties |
| `Limiter.DefaultRetryAfter` | ratelimit/__init__.py:66 | the `retry_after` default; no ensures of its own: the `RateLimit.constructor` contract states it |
| `Limiter.UsageOf` | ratelimit/__init__.py:82 | `getUsage` on the store's contents; no ensures of its own: `RateLimit.GetUsage` states its meaning |
| `Limiter.RemainingOf` | ratelimit/__init__.py:94-98 | `getRemaining` on the store's contents; no ensures of its own: `Clamp`, `RateLimit.GetRemaining` and `RestrictionCountdown` state its meaning |
| `Limiter.RestrictSpec` | ratelimit/__init__.py:108-110 | `restrict` on the store's contents; no ensures of its own: `RestrictOverwrites` and `RestrictPreservesBounded` state its properties |
| `Limiter.AcquireSpec` | ratelimit/__init__.py:125-149 | `acquire` on the store's contents; no ensures of its own: the `Acquire*` branch, frame, isolation and invariant lemmas and the `Run` lemmas state its properties |
| `Limiter.KeyInjective` | ratelimit/__init__.py:151-152 | under one prefix and suffix, equal keys mean equal identifiers |
| `Limiter.UsageRestrictDistinct` | ratelimit/__init__.py:151-152 | a `...:usage` key never equals a `...:restrict` key, for any two identifiers |
| `Limiter.KeysSeparate` | ratelimit/__init__.py:63 | for one prefix, the usage and restrict keys of one identifier differ, and distinct identifiers share no key |
| `Limiter.Clamp` | ratelimit/__init__.py:98 | a negative TTL answer becomes 0 and a non-negative one is kept as it is |
| `Limiter.RestrictOverwrites` | ratelimit/__init__.py:108-110 | `restrict` sets the marker to 1 with TTL exactly `retry_after`, replacing any earlier marker, and changes no other key; a non-positive `retry_after` is the SETEX error |
| `Limiter.AcquireWhileRestricted` | ratelimit/__init__.py:125-128 | with a positive remaining time, `acquire` denies with `retry_after` equal to that time and the store, usage counter included, is unchanged |
| `Limiter.AcquireOverLimit` | ratelimit/__init__.py:131-145 | with no active restriction and usage at least `rate`: the counter is deleted; if `retry_after > 0`, the marker has TTL `retry_after` after the call exactly when `restrict` was set, and otherwise it is untouched; the denial carries the configured `retry_after`; a failing SETEX surfaces as its error |
| `Limiter.AcquireUnderLimit` | ratelimit/__init__.py:146-149 | with no active restriction and usage below `rate`: admitted; usage grows by exactly one; a counter without TTL gets TTL `period` and a positive TTL is kept; only the usage key changes; at the 64-bit ceiling INCR fails and nothing changes |
| `Limiter.AcquireFrame` | ratelimit/__init__.py:125-149 | whatever branch runs, only the identifier's usage and restrict keys can change |
| `Limiter.AcquireIsolation` | ratelimit/__init__.py:132 | `acquire` for one identifier leaves every other identifier's usage, TTLs and remaining time unchanged |
| `Limiter.AcquirePreservesBounded` | ratelimit/__init__.py:134-149 | `acquire` keeps the identifier's counter TTL set and at most `period`, and its marker TTL at most `retry_after` (other identifiers: `AcquireIsolation`) |
| `Limiter.RestrictPreservesBounded` | ratelimit/__init__.py:108-110 | a successful `restrict` keeps those bounds for the identifier: the marker's TTL is exactly `retry_after` |
| `Limiter.ElapsePreservesBounded` | ratelimit/__init__.py:147-149 | the passing of time keeps those TTL bounds |
| `Limiter.MarkedNeverAdmitted` | ratelimit/__init__.py:125-128 | under those bounds an identifier with a marker is always denied, with the marker's TTL as delay, and its store is left alone |
| `Limiter.FreshCounting` | ratelimit/__init__.py:131-149 | from a fresh identifier the first `k <= rate` calls are admitted and leave the counter at `k` with TTL `period`, every other key as before |
| `Limiter.FixedWindowBoundary` | ratelimit/__init__.py:131-145 | from a fresh identifier calls 1..`rate` are admitted and call `rate + 1` is denied with the configured delay; the counter is then gone and the remaining time is `retry_after` with `restrict` and 0 without |
| `Limiter.DenialWithoutRestrictionStartsOver` | ratelimit/__init__.py:134-149 | with `restrict` false, the call after the denial is admitted and usage is back to 1 |
| `Limiter.RestrictionCountdown` | ratelimit/__init__.py:94-98 | a marker with `s` seconds left: after `t < s` seconds `acquire` denies with `s - t` and changes nothing; after `s` seconds nothing is restricted |
| `Limiter.WindowExpiry` | ratelimit/__init__.py:147-149 | a counter left alone for its TTL is gone and usage reads 0 |
| `Limiter.NewWindowAfterExpiry` | ratelimit/__init__.py:146-149 | after `period` quiet seconds the next call is admitted as the first of a new window, usage 1 |
| `Limiter.RestrictedUntilExpiry` | ratelimit/__init__.py:125-149 | after a restricting denial, calls are refused with the seconds still left until `retry_after` has passed, and the next call is then admitted with usage 1 |
| `RateLimiter.RateLimit.constructor` | ratelimit/__init__.py:59-67 | stores the client, the prefix with one `:` appended, `rate`, `period`, and `retry_after` equal to `period` when none is given (the parameter defaults to `None`) and to the given value otherwise; all are constants |
| `RateLimiter.RateLimit.GetUsage` | ratelimit/__init__.py:72-82 | 0 when the usage key is absent, the stored integer otherwise; the store is not changed |
| `RateLimiter.RateLimit.GetRemaining` | ratelimit/__init__.py:84-98 | never negative; 0 when the marker is absent or has no expiry, its TTL otherwise; the store is not changed |
| `RateLimiter.RateLimit.Restrict` | ratelimit/__init__.py:100-110 | the store becomes exactly what `RestrictSpec` gives, or stays the same on the SETEX error |
| `RateLimiter.RateLimit.Acquire` | ratelimit/__init__.py:112-149 | `restrict` defaults to true; the step-by-step calls on the store produce exactly the outcome and store of `AcquireSpec`, so every `Limiter` lemma about `acquire` holds of the method |
| `RateLimiter.BoundaryExample` | ratelimit/__init__.py:131-145 | a client using both defaults: with rate 2 and period 10 on an empty store, two calls are admitted and the third is denied with delay 10 |

## Left out

- The `asyncio.Lock` and any interleaving of tasks or processes: `acquire` is one atomic sequential step. What several concurrent callers would be admitted is not modelled.
- The `redis.asyncio.Redis` client, the network and `await`: the in-memory `Redis` class stands in for them, and the store failures modelled are the two that the store's own semantics produce here (INCR overflow, SETEX with a non-positive expiry).
- Other store failures: connection loss, timeouts, a non-integer value under the usage key (the model stores only integers), and an expiry too large for the store's clock.
- Redis's millisecond clock and the rounding of TTL answers to whole seconds: time advances in whole seconds through `Tick`.
- GET's answer is bytes that the source converts with `int(...)`: the model stores the integer directly.
- Identifiers are strings: the source's `str.format` would also accept other objects.
- The `isinstance(redis_client, Redis)` check and its `TypeError`: it depends on a foreign class hierarchy.
- `FloodWait`'s `Exception` base class and `super().__init__(message)`: `FloodWait` is a datatype carried by `Denied`.
- Module metadata `__version__` and `__copyright__`, and setup.py (packaging only).
