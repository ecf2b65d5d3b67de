/**
 * The `RateLimit` object: its policy fields, fixed at construction, and the
 * methods that query and update the shared store step by step. Each method
 * is proved against the functions of module Limiter, whose properties are
 * proved there.
 */
module RateLimiter {
  import opened Wrappers
  import opened Store
  import opened Errors
  import opened Limiter

  class RateLimit {
    const redis: Redis
    /** The caller's prefix with one `:` appended. */
    const prefix: string
    const rate: int
    const period: int
    const retryAfter: int

    constructor (redis: Redis, prefix: string, rate: int, period: int, retryAfter: Option<int> := None)
      ensures this.redis == redis
      ensures this.prefix == prefix + ":"
      ensures this.rate == rate && this.period == period
      ensures retryAfter.None? ==> this.retryAfter == period
      ensures retryAfter.Some? ==> this.retryAfter == retryAfter.value
    {
      this.redis := redis;
      this.prefix := prefix + ":";
      this.rate := rate;
      this.period := period;
      this.retryAfter := DefaultRetryAfter(period, retryAfter);
    }

    /** The policy this limiter applies. */
    function Policy(): Config
    {
      Config(prefix, rate, period, retryAfter)
    }

    /** `getUsage`: the stored counter, or 0 when the usage key is absent; the store is not changed. */
    method GetUsage(identifier: string) returns (usage: int)
      ensures var uKey := KeyOf(prefix, identifier, USAGE);
        (uKey !in redis.data ==> usage == 0)
        && (uKey in redis.data ==> usage == redis.data[uKey].value)
      ensures usage == UsageOf(Policy(), redis.data, identifier)
    {
      var stored := redis.Get(KeyOf(prefix, identifier, USAGE));
      usage := if stored.Some? then stored.value else 0;
    }

    /**
     * `getRemaining`: never negative; 0 when the marker is absent or has no
     * expiry, its TTL otherwise; the store is not changed.
     */
    method GetRemaining(identifier: string) returns (remaining: int)
      ensures remaining >= 0
      ensures var rKey := KeyOf(prefix, identifier, RESTRICT);
        (rKey !in redis.data || redis.data[rKey].ttl.None? ==> remaining == 0)
        && (rKey in redis.data && redis.data[rKey].ttl.Some? ==> remaining == redis.data[rKey].ttl.value)
      ensures remaining == RemainingOf(Policy(), redis.data, identifier)
    {
      var ttl := redis.Ttl(KeyOf(prefix, identifier, RESTRICT));
      remaining := if ttl < 0 then 0 else ttl;
    }

    /** `restrict`: the marker becomes 1 with TTL `retryAfter`, replacing any earlier one; no other key changes. */
    method Restrict(identifier: string) returns (r: Reply<bool>)
      modifies redis
      ensures match RestrictSpec(Policy(), old(redis.data), identifier)
        case Ok(db) => r == Ok(true) && redis.data == db
        case Err(m) => r == Err(m) && redis.data == old(redis.data)
    {
      r := redis.SetEx(KeyOf(prefix, identifier, RESTRICT), retryAfter, 1);
    }

    /** `acquire`: admits or denies one action of `identifier`, updating the counter and the marker. */
    method Acquire(identifier: string, restrict: bool := true) returns (outcome: Outcome)
      modifies redis
      ensures (outcome, redis.data) == AcquireSpec(Policy(), old(redis.data), identifier, restrict)
    {
      var remaining := GetRemaining(identifier);
      if remaining != 0 {
        return Denied(FloodWait(LIMIT_MESSAGE, rate, period, remaining));
      }
      var usage := GetUsage(identifier);
      var uKey := KeyOf(prefix, identifier, USAGE);
      if usage >= rate {
        var _ := redis.Delete(uKey);
        if restrict {
          var marked := Restrict(identifier);
          if marked.Err? {
            return Failed(marked.message);
          }
        }
        return Denied(FloodWait(LIMIT_MESSAGE, rate, period, retryAfter));
      } else {
        var counted := redis.Incr(uKey);
        if counted.Err? {
          return Failed(counted.message);
        }
        var ttl := redis.Ttl(uKey);
        if ttl < 0 {
          var _ := redis.Expire(uKey, period);
        }
        return Admitted;
      }
    }
  }

  /**
   * A client of the class, using the default `retry_after` and `restrict`:
   * with rate 2 and no time passing, a fresh identifier is admitted twice
   * and denied on the third call.
   */
  method BoundaryExample(redis: Redis) returns (first: Outcome, second: Outcome, third: Outcome)
    requires redis.data == map[]
    modifies redis
    ensures first == Admitted && second == Admitted
    ensures third == Denied(FloodWait(LIMIT_MESSAGE, 2, 10, 10))
  {
    var limiter := new RateLimit(redis, "api", 2, 10);
    first := limiter.Acquire("user");
    second := limiter.Acquire("user");
    third := limiter.Acquire("user");
  }
}
