/**
 * An in-memory model of the part of Redis the rate limiter uses: integer
 * values under string keys, each with an optional time-to-live in whole
 * seconds, and the commands GET, INCR, SETEX, EXPIRE, TTL and DEL with
 * Redis's semantics. Time is a discrete `Tick` that lowers every TTL by one
 * second and drops the keys whose TTL reaches zero.
 */
module Store {
  import opened Wrappers

  /** A remaining time-to-live: Redis keeps an expiry only while it is positive. */
  type Seconds = s: int | s > 0 witness 1

  /** A stored value and its expiry (`None`: the key never expires). */
  datatype Entry = Entry(value: int, ttl: Option<Seconds>)

  type Db = map<string, Entry>

  /** What TTL answers for a missing key and for a key without expiry. */
  const TTL_MISSING: int := -2
  const TTL_PERSISTENT: int := -1

  /** Redis integers are signed 64-bit; INCR refuses to pass the largest. */
  const INT64_MAX: int := 0x7FFF_FFFF_FFFF_FFFF

  const OVERFLOW_ERROR: string := "ERR increment or decrement would overflow"
  const SETEX_ERROR: string := "ERR invalid expire time in 'setex' command"

  /** GET: the value under `key`, if any. */
  function GetValue(db: Db, key: string): (r: Option<int>)
    ensures r.Some? <==> key in db
    ensures r.Some? ==> r.value == db[key].value
  {
    if key in db then Some(db[key].value) else None
  }

  /** TTL: -2 for a missing key, -1 for a key without expiry, the seconds left otherwise. */
  function TtlOf(db: Db, key: string): (r: int)
    ensures r == TTL_MISSING <==> key !in db
    ensures r == TTL_PERSISTENT <==> key in db && db[key].ttl.None?
    ensures r > 0 <==> key in db && db[key].ttl.Some?
    ensures r > 0 ==> r == db[key].ttl.value
  {
    if key !in db then TTL_MISSING
    else match db[key].ttl
      case None => TTL_PERSISTENT
      case Some(s) => s
  }

  /**
   * INCR: adds one to the value (a missing key counts as 0 and is created
   * without expiry), keeps the expiry, and answers the new value; fails on
   * 64-bit overflow and then changes nothing.
   */
  function Increment(db: Db, key: string): Reply<(int, Db)>
  {
    if key !in db then Ok((1, db[key := Entry(1, None)]))
    else if db[key].value >= INT64_MAX then Err(OVERFLOW_ERROR)
    else
      var n := db[key].value + 1;
      Ok((n, db[key := Entry(n, db[key].ttl)]))
  }

  /** SETEX: stores `value` with expiry `seconds`, replacing any earlier value and expiry; refuses a non-positive expiry. */
  function SetWithExpiry(db: Db, key: string, seconds: int, value: int): Reply<Db>
  {
    if seconds <= 0 then Err(SETEX_ERROR)
    else Ok(db[key := Entry(value, Some(seconds))])
  }

  /**
   * EXPIRE: sets the expiry of an existing key and answers whether the key
   * existed; a non-positive timeout deletes the key instead.
   */
  function SetExpiry(db: Db, key: string, seconds: int): (bool, Db)
  {
    if key !in db then (false, db)
    else if seconds <= 0 then (true, db - {key})
    else (true, db[key := Entry(db[key].value, Some(seconds))])
  }

  /** DEL: removes the key, if present. */
  function Remove(db: Db, key: string): Db
  {
    db - {key}
  }

  /** One second older: an expiry of more than one second drops by one. */
  function Age(e: Entry): Entry
  {
    match e.ttl
    case Some(s) => if s > 1 then Entry(e.value, Some(s - 1)) else e
    case None => e
  }

  /** One second passes: keys with one second left expire, the others age. */
  function Elapse(db: Db): Db
  {
    map k | k in db && db[k].ttl != Some(1) :: Age(db[k])
  }

  /** `t` seconds pass. */
  function ElapseFor(db: Db, t: nat): Db
  {
    if t == 0 then db else Elapse(ElapseFor(db, t - 1))
  }

  /**
   * After `t` seconds a persistent key is unchanged, a key with more than `t`
   * seconds left has `t` fewer, a key with at most `t` seconds left is gone,
   * and no key appears.
   */
  lemma {:induction false} ElapseForAt(db: Db, t: nat, key: string)
    ensures key !in db ==> key !in ElapseFor(db, t)
    ensures key in db && db[key].ttl.None? ==>
      key in ElapseFor(db, t) && ElapseFor(db, t)[key] == db[key]
    ensures key in db && db[key].ttl.Some? && db[key].ttl.value > t ==>
      key in ElapseFor(db, t) && ElapseFor(db, t)[key] == Entry(db[key].value, Some(db[key].ttl.value - t))
    ensures key in db && db[key].ttl.Some? && db[key].ttl.value <= t ==> key !in ElapseFor(db, t)
  {
    if t > 0 {
      ElapseForAt(db, t - 1, key);
    }
  }

  /** The shared store: a key-value map that the commands update in place. */
  class Redis {
    var data: Db

    constructor (initial: Db)
      ensures data == initial
    {
      data := initial;
    }

    method Get(key: string) returns (value: Option<int>)
      ensures value.Some? <==> key in data
      ensures value.Some? ==> value.value == data[key].value
    {
      value := if key in data then Some(data[key].value) else None;
    }

    method Ttl(key: string) returns (ttl: int)
      ensures ttl == TtlOf(data, key)
    {
      if key !in data {
        ttl := TTL_MISSING;
      } else if data[key].ttl.None? {
        ttl := TTL_PERSISTENT;
      } else {
        ttl := data[key].ttl.value;
      }
    }

    method Incr(key: string) returns (r: Reply<int>)
      modifies this
      ensures match Increment(old(data), key)
        case Ok((n, db)) => r == Ok(n) && data == db
        case Err(m) => r == Err(m) && data == old(data)
    {
      if key !in data {
        data := data[key := Entry(1, None)];
        r := Ok(1);
      } else if data[key].value >= INT64_MAX {
        r := Err(OVERFLOW_ERROR);
      } else {
        var n := data[key].value + 1;
        data := data[key := Entry(n, data[key].ttl)];
        r := Ok(n);
      }
    }

    method SetEx(key: string, seconds: int, value: int) returns (r: Reply<bool>)
      modifies this
      ensures match SetWithExpiry(old(data), key, seconds, value)
        case Ok(db) => r == Ok(true) && data == db
        case Err(m) => r == Err(m) && data == old(data)
    {
      if seconds <= 0 {
        r := Err(SETEX_ERROR);
      } else {
        data := data[key := Entry(value, Some(seconds))];
        r := Ok(true);
      }
    }

    method Expire(key: string, seconds: int) returns (existed: bool)
      modifies this
      ensures (existed, data) == SetExpiry(old(data), key, seconds)
    {
      existed := key in data;
      if existed {
        if seconds <= 0 {
          data := data - {key};
        } else {
          data := data[key := Entry(data[key].value, Some(seconds))];
        }
      }
    }

    method Delete(key: string) returns (removed: nat)
      modifies this
      ensures removed == (if key in old(data) then 1 else 0)
      ensures data == Remove(old(data), key)
    {
      removed := if key in data then 1 else 0;
      data := data - {key};
    }

    /** One second of wall-clock time passing inside the store. */
    method Tick()
      modifies this
      ensures data == Elapse(old(data))
    {
      data := Elapse(data);
    }
  }
}
