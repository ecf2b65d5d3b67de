/**
 * The decision logic of the fixed-window rate limiter, as functions of the
 * store's contents: the key namespace, the usage and remaining-restriction
 * queries, `restrict`, and `acquire` with its three branches (restricted,
 * over the limit, under the limit). The lemmas state which keys each branch
 * touches, the admit/deny boundary, and how the state evolves over calls
 * and over time.
 */
module Limiter {
  import opened Wrappers
  import opened Store
  import opened Errors

  const USAGE: string := "usage"
  const RESTRICT: string := "restrict"
  const LIMIT_MESSAGE: string := "Rate limit exceeded"

  /** One limiter's policy: key prefix (ending in its `:`), rate, period and retry delay, fixed at construction. */
  datatype Config = Config(prefix: string, rate: int, period: int, retryAfter: int)

  /** What `acquire` ends in: admission, a `FloodWait` denial, or a store error passed through. */
  datatype Outcome = Admitted | Denied(wait: FloodWait) | Failed(error: string)

  /** The retry delay: the one given, or the period when none is given. */
  function DefaultRetryAfter(period: int, retryAfter: Option<int>): int
  {
    match retryAfter
    case None => period
    case Some(seconds) => seconds
  }

  /** `_get_key`: the stored prefix (which ends in `:`), the identifier, `:`, and the suffix. */
  function KeyOf(prefix: string, identifier: string, suffix: string): string
  {
    prefix + identifier + ":" + suffix
  }

  /** Under one prefix and suffix, different identifiers get different keys. */
  lemma KeyInjective(prefix: string, id1: string, id2: string, suffix: string)
    requires KeyOf(prefix, id1, suffix) == KeyOf(prefix, id2, suffix)
    ensures id1 == id2
  {
    var k1, k2 := KeyOf(prefix, id1, suffix), KeyOf(prefix, id2, suffix);
    assert |id1| == |id2|;
    assert k1[|prefix|..|prefix| + |id1|] == id1;
    assert k2[|prefix|..|prefix| + |id2|] == id2;
  }

  /** A usage key never equals a restrict key, whatever the two identifiers. */
  lemma UsageRestrictDistinct(prefix: string, id1: string, id2: string)
    ensures KeyOf(prefix, id1, USAGE) != KeyOf(prefix, id2, RESTRICT)
  {
    var k1, k2 := KeyOf(prefix, id1, USAGE), KeyOf(prefix, id2, RESTRICT);
    assert k1[|k1| - 1] == 'e';
    assert k2[|k2| - 1] == 't';
  }

  function UsageKey(cfg: Config, identifier: string): string
  {
    KeyOf(cfg.prefix, identifier, USAGE)
  }

  function RestrictKey(cfg: Config, identifier: string): string
  {
    KeyOf(cfg.prefix, identifier, RESTRICT)
  }

  /** The keys of different identifiers, and the two keys of one identifier, never collide. */
  lemma KeysSeparate(cfg: Config, id: string, other: string)
    ensures UsageKey(cfg, id) != RestrictKey(cfg, other)
    ensures RestrictKey(cfg, id) != UsageKey(cfg, other)
    ensures id != other ==> UsageKey(cfg, id) != UsageKey(cfg, other)
    ensures id != other ==> RestrictKey(cfg, id) != RestrictKey(cfg, other)
  {
    UsageRestrictDistinct(cfg.prefix, id, other);
    UsageRestrictDistinct(cfg.prefix, other, id);
    if UsageKey(cfg, id) == UsageKey(cfg, other) {
      KeyInjective(cfg.prefix, id, other, USAGE);
    }
    if RestrictKey(cfg, id) == RestrictKey(cfg, other) {
      KeyInjective(cfg.prefix, id, other, RESTRICT);
    }
  }

  /** `getUsage`: the stored counter, or 0 when there is none. */
  function UsageOf(cfg: Config, db: Db, identifier: string): int
  {
    match GetValue(db, UsageKey(cfg, identifier))
    case Some(v) => v
    case None => 0
  }

  /** The clamp of `getRemaining`: a negative TTL answer (missing key, no expiry) reads as 0. */
  function Clamp(ttl: int): (r: nat)
    ensures ttl >= 0 ==> r == ttl
    ensures ttl < 0 ==> r == 0
  {
    if ttl < 0 then 0 else ttl
  }

  /** `getRemaining`: seconds left on the restriction marker, 0 when none is active. */
  function RemainingOf(cfg: Config, db: Db, identifier: string): nat
  {
    Clamp(TtlOf(db, RestrictKey(cfg, identifier)))
  }

  /** `restrict`: SETEX of the marker to 1 for `retryAfter` seconds. */
  function RestrictSpec(cfg: Config, db: Db, identifier: string): Reply<Db>
  {
    SetWithExpiry(db, RestrictKey(cfg, identifier), cfg.retryAfter, 1)
  }

  /** `acquire`: the outcome and the store afterwards, following the source step by step. */
  function AcquireSpec(cfg: Config, db: Db, identifier: string, restrict: bool): (Outcome, Db)
  {
    var remaining := RemainingOf(cfg, db, identifier);
    if remaining != 0 then
      (Denied(FloodWait(LIMIT_MESSAGE, cfg.rate, cfg.period, remaining)), db)
    else
      var usage := UsageOf(cfg, db, identifier);
      var uKey := UsageKey(cfg, identifier);
      if usage >= cfg.rate then
        var cleared := Remove(db, uKey);
        var denial := Denied(FloodWait(LIMIT_MESSAGE, cfg.rate, cfg.period, cfg.retryAfter));
        if !restrict then (denial, cleared)
        else
          match RestrictSpec(cfg, cleared, identifier)
          case Err(m) => (Failed(m), cleared)
          case Ok(marked) => (denial, marked)
      else
        match Increment(db, uKey)
        case Err(m) => (Failed(m), db)
        case Ok((_, counted)) =>
          if TtlOf(counted, uKey) < 0 then (Admitted, SetExpiry(counted, uKey, cfg.period).1)
          else (Admitted, counted)
  }

  /** `db'` holds exactly what `db` holds under every key outside `keys`. */
  ghost predicate AgreeExcept(db: Db, db': Db, keys: set<string>)
  {
    forall k :: k !in keys ==> (k in db <==> k in db') && (k in db ==> db[k] == db'[k])
  }

  /** `restrict` sets the marker to 1 with TTL exactly `retryAfter`, replacing any earlier one, and nothing else. */
  lemma RestrictOverwrites(cfg: Config, db: Db, identifier: string)
    ensures match RestrictSpec(cfg, db, identifier)
      case Ok(db') =>
        cfg.retryAfter > 0 && RestrictKey(cfg, identifier) in db'
        && db'[RestrictKey(cfg, identifier)] == Entry(1, Some(cfg.retryAfter))
        && TtlOf(db', RestrictKey(cfg, identifier)) == cfg.retryAfter
        && AgreeExcept(db, db', {RestrictKey(cfg, identifier)})
      case Err(m) => cfg.retryAfter <= 0 && m == SETEX_ERROR
  {
  }

  /** While a restriction is active, `acquire` denies with the live remaining time and changes nothing. */
  lemma AcquireWhileRestricted(cfg: Config, db: Db, identifier: string, restrict: bool)
    requires RemainingOf(cfg, db, identifier) > 0
    ensures AcquireSpec(cfg, db, identifier, restrict)
      == (Denied(FloodWait(LIMIT_MESSAGE, cfg.rate, cfg.period, RemainingOf(cfg, db, identifier))), db)
    ensures UsageOf(cfg, AcquireSpec(cfg, db, identifier, restrict).1, identifier) == UsageOf(cfg, db, identifier)
  {
  }

  /**
   * Over the limit, `acquire` deletes the counter, sets the marker for
   * `retryAfter` seconds exactly when asked to, and denies with the
   * configured delay; only the identifier's two keys can change.
   */
  lemma AcquireOverLimit(cfg: Config, db: Db, identifier: string, restrict: bool)
    requires RemainingOf(cfg, db, identifier) == 0
    requires UsageOf(cfg, db, identifier) >= cfg.rate
    ensures var (outcome, db') := AcquireSpec(cfg, db, identifier, restrict);
      var uKey, rKey := UsageKey(cfg, identifier), RestrictKey(cfg, identifier);
      uKey !in db'
      && UsageOf(cfg, db', identifier) == 0
      && AgreeExcept(db, db', {uKey, rKey})
      && (restrict && cfg.retryAfter <= 0 ==> outcome == Failed(SETEX_ERROR))
      && (!restrict || cfg.retryAfter > 0 ==>
            outcome == Denied(FloodWait(LIMIT_MESSAGE, cfg.rate, cfg.period, cfg.retryAfter)))
      && (restrict && cfg.retryAfter > 0 ==> rKey in db' && db'[rKey] == Entry(1, Some(cfg.retryAfter)))
      && (!restrict || cfg.retryAfter <= 0 ==> AgreeExcept(db, db', {uKey}))
      && (cfg.retryAfter > 0 ==> (TtlOf(db', rKey) == cfg.retryAfter <==> restrict))
  {
  }

  /**
   * Under the limit, `acquire` admits, adds exactly one to the counter, gives
   * a counter without expiry the period as its TTL (EXPIRE deletes it if the
   * period is not positive) and keeps a set TTL; the marker and every other
   * key are untouched. At the 64-bit ceiling INCR fails and nothing changes.
   */
  lemma AcquireUnderLimit(cfg: Config, db: Db, identifier: string, restrict: bool)
    requires RemainingOf(cfg, db, identifier) == 0
    requires UsageOf(cfg, db, identifier) < cfg.rate
    ensures var (outcome, db') := AcquireSpec(cfg, db, identifier, restrict);
      var uKey := UsageKey(cfg, identifier);
      var usage, ttl := UsageOf(cfg, db, identifier), TtlOf(db, uKey);
      AgreeExcept(db, db', {uKey})
      && (usage >= INT64_MAX ==> outcome == Failed(OVERFLOW_ERROR) && db' == db)
      && (usage < INT64_MAX ==> outcome == Admitted)
      && (usage < INT64_MAX && ttl > 0 ==>
            UsageOf(cfg, db', identifier) == usage + 1 && TtlOf(db', uKey) == ttl)
      && (usage < INT64_MAX && ttl < 0 && cfg.period > 0 ==>
            UsageOf(cfg, db', identifier) == usage + 1 && TtlOf(db', uKey) == cfg.period)
      && (usage < INT64_MAX && ttl < 0 && cfg.period <= 0 ==> uKey !in db')
  {
  }

  /** Whatever branch it takes, `acquire` changes only the identifier's usage and restrict keys. */
  lemma AcquireFrame(cfg: Config, db: Db, identifier: string, restrict: bool)
    ensures AgreeExcept(db, AcquireSpec(cfg, db, identifier, restrict).1,
                        {UsageKey(cfg, identifier), RestrictKey(cfg, identifier)})
  {
  }

  /** `acquire` for one identifier leaves every other identifier's usage, TTLs and restriction as they were. */
  lemma AcquireIsolation(cfg: Config, db: Db, identifier: string, other: string, restrict: bool)
    requires other != identifier
    ensures var db' := AcquireSpec(cfg, db, identifier, restrict).1;
      UsageOf(cfg, db', other) == UsageOf(cfg, db, other)
      && TtlOf(db', UsageKey(cfg, other)) == TtlOf(db, UsageKey(cfg, other))
      && TtlOf(db', RestrictKey(cfg, other)) == TtlOf(db, RestrictKey(cfg, other))
      && RemainingOf(cfg, db', other) == RemainingOf(cfg, db, other)
  {
    AcquireFrame(cfg, db, identifier, restrict);
    KeysSeparate(cfg, identifier, other);
    var db' := AcquireSpec(cfg, db, identifier, restrict).1;
    var uo, ro := UsageKey(cfg, other), RestrictKey(cfg, other);
    assert uo !in {UsageKey(cfg, identifier), RestrictKey(cfg, identifier)};
    assert ro !in {UsageKey(cfg, identifier), RestrictKey(cfg, identifier)};
    assert (uo in db <==> uo in db') && (uo in db ==> db[uo] == db'[uo]);
    assert (ro in db <==> ro in db') && (ro in db ==> db[ro] == db'[ro]);
  }

  /**
   * The expiry discipline of one identifier's keys: a counter always has a
   * TTL of at most `period`, a marker one of at most `retryAfter`.
   */
  ghost predicate Bounded(cfg: Config, db: Db, identifier: string)
  {
    var uKey, rKey := UsageKey(cfg, identifier), RestrictKey(cfg, identifier);
    (uKey in db ==> db[uKey].ttl.Some? && db[uKey].ttl.value <= cfg.period)
    && (rKey in db ==> db[rKey].ttl.Some? && db[rKey].ttl.value <= cfg.retryAfter)
  }

  /** `acquire` keeps the expiry discipline. */
  lemma AcquirePreservesBounded(cfg: Config, db: Db, identifier: string, restrict: bool)
    requires Bounded(cfg, db, identifier)
    ensures Bounded(cfg, AcquireSpec(cfg, db, identifier, restrict).1, identifier)
  {
  }

  /** `restrict` keeps the expiry discipline: the marker it sets has TTL exactly `retryAfter`. */
  lemma RestrictPreservesBounded(cfg: Config, db: Db, identifier: string)
    requires Bounded(cfg, db, identifier)
    ensures RestrictSpec(cfg, db, identifier).Ok? ==> Bounded(cfg, RestrictSpec(cfg, db, identifier).value, identifier)
  {
    KeysSeparate(cfg, identifier, identifier);
  }

  /** The passing of time keeps the expiry discipline. */
  lemma {:induction false} ElapsePreservesBounded(cfg: Config, db: Db, identifier: string, t: nat)
    requires Bounded(cfg, db, identifier)
    ensures Bounded(cfg, ElapseFor(db, t), identifier)
  {
    ElapseForAt(db, t, UsageKey(cfg, identifier));
    ElapseForAt(db, t, RestrictKey(cfg, identifier));
  }

  /** Under the expiry discipline, an identifier with a marker is never admitted, and its store is left alone. */
  lemma MarkedNeverAdmitted(cfg: Config, db: Db, identifier: string, restrict: bool)
    requires Bounded(cfg, db, identifier)
    requires RestrictKey(cfg, identifier) in db
    ensures AcquireSpec(cfg, db, identifier, restrict).0.Denied?
    ensures AcquireSpec(cfg, db, identifier, restrict).0.wait.retryAfter
         == db[RestrictKey(cfg, identifier)].ttl.value
    ensures AcquireSpec(cfg, db, identifier, restrict).1 == db
  {
  }

  /** `n` consecutive calls of `acquire` with no time passing: their outcomes and the final store. */
  function Run(cfg: Config, db: Db, identifier: string, restrict: bool, n: nat): (r: (seq<Outcome>, Db))
    ensures |r.0| == n
  {
    if n == 0 then ([], db)
    else
      var (outcomes, before) := Run(cfg, db, identifier, restrict, n - 1);
      var (outcome, after) := AcquireSpec(cfg, before, identifier, restrict);
      (outcomes + [outcome], after)
  }

  /** An identifier with no counter and no active restriction. */
  ghost predicate Fresh(cfg: Config, db: Db, identifier: string)
  {
    UsageKey(cfg, identifier) !in db && RemainingOf(cfg, db, identifier) == 0
  }

  /** From a fresh identifier, the first `k <= rate` calls are all admitted and leave the counter at `k` with TTL `period`. */
  lemma {:induction false} FreshCounting(cfg: Config, db: Db, identifier: string, restrict: bool, k: nat)
    requires Fresh(cfg, db, identifier)
    requires cfg.period > 0 && k <= cfg.rate <= INT64_MAX
    ensures var (outcomes, db') := Run(cfg, db, identifier, restrict, k);
      (forall i :: 0 <= i < k ==> outcomes[i] == Admitted)
      && db' == (if k == 0 then db else db[UsageKey(cfg, identifier) := Entry(k, Some(cfg.period))])
  {
    if k > 0 {
      FreshCounting(cfg, db, identifier, restrict, k - 1);
      KeysSeparate(cfg, identifier, identifier);
      var before := Run(cfg, db, identifier, restrict, k - 1).1;
      assert RestrictKey(cfg, identifier) in before <==> RestrictKey(cfg, identifier) in db;
      assert RemainingOf(cfg, before, identifier) == 0;
      assert UsageOf(cfg, before, identifier) == k - 1;
      AcquireUnderLimit(cfg, before, identifier, restrict);
      var after := Run(cfg, db, identifier, restrict, k).1;
      assert after == AcquireSpec(cfg, before, identifier, restrict).1;
      var uKey := UsageKey(cfg, identifier);
      assert after == db[uKey := Entry(k, Some(cfg.period))] by {
        assert AgreeExcept(before, after, {uKey});
        assert uKey in after && after[uKey] == Entry(k, Some(cfg.period));
        forall key | key in after ensures key in db[uKey := Entry(k, Some(cfg.period))] {
          if key != uKey { assert key in before; }
        }
      }
    }
  }

  /**
   * The admit/deny boundary of `usage >= rate`: from a fresh identifier,
   * calls 1..rate are admitted and call rate+1 is denied with the configured
   * delay; the counter is then gone and the marker is active for exactly
   * `retryAfter` seconds if and only if `restrict` was asked for.
   */
  lemma FixedWindowBoundary(cfg: Config, db: Db, identifier: string, restrict: bool)
    requires Fresh(cfg, db, identifier)
    requires cfg.period > 0 && 0 <= cfg.rate <= INT64_MAX
    requires restrict ==> cfg.retryAfter > 0
    ensures var (outcomes, db') := Run(cfg, db, identifier, restrict, cfg.rate + 1);
      (forall i :: 0 <= i < cfg.rate ==> outcomes[i] == Admitted)
      && outcomes[cfg.rate] == Denied(FloodWait(LIMIT_MESSAGE, cfg.rate, cfg.period, cfg.retryAfter))
      && UsageKey(cfg, identifier) !in db'
      && RemainingOf(cfg, db', identifier) == (if restrict then cfg.retryAfter else 0)
  {
    FreshCounting(cfg, db, identifier, restrict, cfg.rate);
    KeysSeparate(cfg, identifier, identifier);
    var before := Run(cfg, db, identifier, restrict, cfg.rate).1;
    assert RemainingOf(cfg, before, identifier) == 0;
    assert UsageOf(cfg, before, identifier) == cfg.rate;
    AcquireOverLimit(cfg, before, identifier, restrict);
    var after := Run(cfg, db, identifier, restrict, cfg.rate + 1).1;
    var rKey := RestrictKey(cfg, identifier);
    if !restrict {
      assert rKey in after <==> rKey in db;
      assert rKey in db ==> after[rKey] == db[rKey];
    }
  }

  /** Without `restrict`, the call after the denial starts a new window: it is admitted and the counter is 1. */
  lemma DenialWithoutRestrictionStartsOver(cfg: Config, db: Db, identifier: string)
    requires Fresh(cfg, db, identifier)
    requires cfg.period > 0 && 1 <= cfg.rate <= INT64_MAX
    ensures var (outcomes, db') := Run(cfg, db, identifier, false, cfg.rate + 2);
      outcomes[cfg.rate + 1] == Admitted && UsageOf(cfg, db', identifier) == 1
  {
    FixedWindowBoundary(cfg, db, identifier, false);
    var before := Run(cfg, db, identifier, false, cfg.rate + 1).1;
    assert UsageOf(cfg, before, identifier) == 0;
    AcquireUnderLimit(cfg, before, identifier, false);
  }

  /**
   * A marker counts down: with `s` seconds set, after `t < s` seconds every
   * `acquire` is denied with `s - t` and changes nothing; after `s` seconds
   * the restriction is over.
   */
  lemma RestrictionCountdown(cfg: Config, db: Db, identifier: string, restrict: bool, t: nat)
    requires RestrictKey(cfg, identifier) in db && db[RestrictKey(cfg, identifier)].ttl.Some?
    ensures var s, later := db[RestrictKey(cfg, identifier)].ttl.value, ElapseFor(db, t);
      (t < s ==> AcquireSpec(cfg, later, identifier, restrict)
                   == (Denied(FloodWait(LIMIT_MESSAGE, cfg.rate, cfg.period, s - t)), later))
      && (t >= s ==> RemainingOf(cfg, later, identifier) == 0)
  {
    ElapseForAt(db, t, RestrictKey(cfg, identifier));
  }

  /** A counter left alone for its TTL expires: usage reads 0 again. */
  lemma WindowExpiry(cfg: Config, db: Db, identifier: string, t: nat)
    requires UsageKey(cfg, identifier) in db && db[UsageKey(cfg, identifier)].ttl.Some?
    requires t >= db[UsageKey(cfg, identifier)].ttl.value
    ensures UsageKey(cfg, identifier) !in ElapseFor(db, t)
    ensures UsageOf(cfg, ElapseFor(db, t), identifier) == 0
  {
    ElapseForAt(db, t, UsageKey(cfg, identifier));
  }

  /**
   * After `k` admitted calls from a fresh identifier, waiting `period`
   * seconds starts a new window: the next call is admitted and usage is 1.
   */
  lemma NewWindowAfterExpiry(cfg: Config, db: Db, identifier: string, restrict: bool, k: nat, t: nat)
    requires Fresh(cfg, db, identifier)
    requires cfg.period > 0 && 1 <= k <= cfg.rate <= INT64_MAX
    requires t >= cfg.period
    ensures var later := ElapseFor(Run(cfg, db, identifier, restrict, k).1, t);
      var (outcome, db') := AcquireSpec(cfg, later, identifier, restrict);
      outcome == Admitted && UsageOf(cfg, db', identifier) == 1
  {
    FreshCounting(cfg, db, identifier, restrict, k);
    KeysSeparate(cfg, identifier, identifier);
    var counted := Run(cfg, db, identifier, restrict, k).1;
    var later := ElapseFor(counted, t);
    WindowExpiry(cfg, counted, identifier, t);
    var rKey := RestrictKey(cfg, identifier);
    ElapseForAt(counted, t, rKey);
    assert rKey in counted <==> rKey in db;
    assert rKey in db ==> counted[rKey] == db[rKey] && db[rKey].ttl.None?;
    assert RemainingOf(cfg, later, identifier) == 0;
    AcquireUnderLimit(cfg, later, identifier, restrict);
  }

  /**
   * After the denial that set a marker, the identifier is refused for
   * `retryAfter` seconds with the seconds still left, and once they have
   * passed the next call is admitted as the first of a new window.
   */
  lemma RestrictedUntilExpiry(cfg: Config, db: Db, identifier: string, t: nat)
    requires Fresh(cfg, db, identifier)
    requires cfg.period > 0 && 1 <= cfg.rate <= INT64_MAX && cfg.retryAfter > 0
    ensures var later := ElapseFor(Run(cfg, db, identifier, true, cfg.rate + 1).1, t);
      var (outcome, db') := AcquireSpec(cfg, later, identifier, true);
      (t < cfg.retryAfter ==>
         outcome == Denied(FloodWait(LIMIT_MESSAGE, cfg.rate, cfg.period, cfg.retryAfter - t)) && db' == later)
      && (t >= cfg.retryAfter ==> outcome == Admitted && UsageOf(cfg, db', identifier) == 1)
  {
    FixedWindowBoundary(cfg, db, identifier, true);
    var denied := Run(cfg, db, identifier, true, cfg.rate + 1).1;
    var later := ElapseFor(denied, t);
    var rKey := RestrictKey(cfg, identifier);
    assert rKey in denied && denied[rKey].ttl == Some(cfg.retryAfter);
    RestrictionCountdown(cfg, denied, identifier, true, t);
    if t >= cfg.retryAfter {
      ElapseForAt(denied, t, UsageKey(cfg, identifier));
      AcquireUnderLimit(cfg, later, identifier, true);
    }
  }
}
