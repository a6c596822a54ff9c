/** The part of Redis that the rate limiters use: counters with an optional time to live. */
module RedisCounters {

  datatype Expiry = Never | At(time: real)

  datatype Entry = Entry(count: nat, expiry: Expiry)

  type Store = map<string, Entry>

  /** What becomes of one pipeline: executed, not executed, or executed with its reply lost. */
  datatype Reply = Ok | Down | Lost

  /** A key is gone once the clock is past its expiry. */
  predicate Live(s: Store, key: string, now: real) {
    key in s && (s[key].expiry.At? ==> now <= s[key].expiry.time)
  }

  function Count(s: Store, key: string, now: real): nat {
    if Live(s, key, now) then s[key].count else 0
  }

  function Incr(s: Store, key: string, now: real): Store {
    s[key := Entry(Count(s, key, now) + 1, if Live(s, key, now) then s[key].expiry else Never)]
  }

  /** EXPIRE: a time to live that is not positive deletes the key. */
  function Expire(s: Store, key: string, seconds: int, now: real): Store {
    if !Live(s, key, now) then s
    else if seconds <= 0 then s - {key}
    else s[key := s[key].(expiry := At(now + seconds as real))]
  }

  /** EXPIRE NX: only for a key without a time to live. */
  function ExpireNx(s: Store, key: string, seconds: int, now: real): Store {
    if Live(s, key, now) && s[key].expiry.Never? then Expire(s, key, seconds, now) else s
  }

  /** TTL, rounded to the nearest second; negative when there is none. */
  function Ttl(s: Store, key: string, now: real): int {
    if !Live(s, key, now) then -2
    else if s[key].expiry.Never? then -1
    else (s[key].expiry.time - now + 0.5).Floor
  }
}
