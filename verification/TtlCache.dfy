/** The time-to-live cache that evicts an expired entry only when somebody reads it. */
module TtlCache {
  import opened Basics

  /** A key tuple. */
  type Key = seq<string>

  datatype Entry<V> = Entry(expiresAt: real, value: V)

  // ---------------------------------------------------------------- specification

  function Lookup<V>(store: map<Key, Entry<V>>, key: Key, now: real): Option<V> {
    if key in store && now <= store[key].expiresAt then Some(store[key].value) else None
  }

  /** Reading evicts an expired entry. */
  function Read<V>(store: map<Key, Entry<V>>, key: Key, now: real): map<Key, Entry<V>> {
    if key in store && store[key].expiresAt < now then store - {key} else store
  }

  function WithoutPrefix<V>(store: map<Key, Entry<V>>, prefix: Key): map<Key, Entry<V>> {
    map key | key in store && !(prefix <= key) :: store[key]
  }

  // ---------------------------------------------------------------- the cache itself

  class BaseCache<V> {
    const ttl: int
    var store: map<Key, Entry<V>>

    constructor (ttl: int)
      ensures this.ttl == ttl && store == map[]
    {
      this.ttl := ttl;
      store := map[];
    }

    /** Null stands for the ValueError of a time to live that is not positive. */
    static method Create(ttl: int) returns (cache: BaseCache?<V>)
      ensures cache == null <==> ttl <= 0
      ensures cache != null ==> fresh(cache) && cache.ttl == ttl && cache.store == map[]
    {
      if ttl <= 0 { return null; }
      cache := new BaseCache(ttl);
    }

    method Put(key: Key, value: V, now: real)
      modifies this`store
      ensures store == old(store)[key := Entry(now + ttl as real, value)]
    {
      store := store[key := Entry(now + ttl as real, value)];
    }

    method Get(key: Key, now: real) returns (value: Option<V>)
      modifies this`store
      ensures value == Lookup(old(store), key, now)
      ensures store == Read(old(store), key, now)
    {
      if key !in store { return None; }
      var entry := store[key];
      if entry.expiresAt < now {
        store := store - {key};
        return None;
      }
      value := Some(entry.value);
    }

    method InvalidatePrefix(prefix: Key) returns (removed: nat)
      modifies this`store
      ensures store == WithoutPrefix(old(store), prefix)
      ensures removed == |old(store)| - |store|
    {
      var keys := set key | key in store && prefix <= key;
      removed := |keys|;
      while keys != {}
        invariant keys == set key | key in store && prefix <= key
        invariant WithoutPrefix(store, prefix) == WithoutPrefix(old(store), prefix)
        invariant |store| - |keys| == |old(store)| - removed
      {
        var key :| key in keys;
        keys := keys - {key};
        assert store.Keys == (store - {key}).Keys + {key};
        assert |(store - {key}).Keys| == |store.Keys| - 1;
        store := store - {key};
      }
      assert forall key :: key in store && prefix <= key ==> key in keys;
      assert WithoutPrefix(store, prefix) == store;
    }

    method InvalidateAll() returns (removed: nat)
      modifies this`store
      ensures store == map[] && removed == |old(store)|
    {
      removed := |store|;
      store := map[];
    }

    method Size() returns (n: nat)
      ensures n == |store|
    {
      n := |store|;
    }
  }

  // ---------------------------------------------------------------- runs

  datatype Op<V> =
    | Put(key: Key, value: V, now: real)
    | Get(key: Key, now: real)
    | InvalidatePrefix(prefix: Key, now: real)
    | InvalidateAll(now: real)

  function Apply<V>(ttl: int, store: map<Key, Entry<V>>, op: Op<V>): map<Key, Entry<V>> {
    match op
    case Put(key, value, now) => store[key := Entry(now + ttl as real, value)]
    case Get(key, now) => Read(store, key, now)
    case InvalidatePrefix(prefix, _) => WithoutPrefix(store, prefix)
    case InvalidateAll(_) => map[]
  }

  function After<V>(ttl: int, ops: seq<Op<V>>): map<Key, Entry<V>> {
    if ops == [] then map[] else Apply(ttl, After(ttl, ops[..|ops| - 1]), ops[|ops| - 1])
  }

  /** The clock is monotonic. */
  ghost predicate InOrder<V>(ops: seq<Op<V>>, now: real) {
    && (forall i, j :: 0 <= i <= j < |ops| ==> ops[i].now <= ops[j].now)
    && (forall i :: 0 <= i < |ops| ==> ops[i].now <= now)
  }

  /** A value and when it was put. */
  datatype Made<V> = Made(value: V, at: real)

  /** The latest put of a key that no later invalidation covers. Reads play no part in it. */
  function Latest<V>(ops: seq<Op<V>>, key: Key): Option<Made<V>> {
    if ops == [] then None
    else
      var before := Latest(ops[..|ops| - 1], key);
      match ops[|ops| - 1]
      case Put(k, value, now) => if k == key then Some(Made(value, now)) else before
      case Get(_, _) => before
      case InvalidatePrefix(prefix, _) => if prefix <= key then None else before
      case InvalidateAll(_) => None
  }

  /** What `get` should answer: the latest uncovered put, if its age is at most the time to live. */
  function Ideal<V>(ttl: int, ops: seq<Op<V>>, key: Key, now: real): Option<V> {
    match Latest(ops, key)
    case None => None
    case Some(made) => if now - made.at <= ttl as real then Some(made.value) else None
  }

  /** The store holds the latest put, or has evicted it after it expired. */
  ghost predicate HoldsLatest<V>(store: map<Key, Entry<V>>, ttl: int, latest: Option<Made<V>>, key: Key, clock: real) {
    if key in store then latest.Some? && store[key] == Entry(latest.value.at + ttl as real, latest.value.value)
    else latest.None? || latest.value.at + ttl as real < clock
  }

  lemma {:induction false} StoreHoldsLatest<V>(ttl: int, ops: seq<Op<V>>, key: Key, now: real)
    requires InOrder(ops, now)
    ensures HoldsLatest(After(ttl, ops), ttl, Latest(ops, key), key, now)
  {
    if ops != [] {
      var n := |ops| - 1;
      assert InOrder(ops[..n], ops[n].now) by {
        assert forall i :: 0 <= i < n ==> ops[..n][i] == ops[i];
      }
      StoreHoldsLatest(ttl, ops[..n], key, ops[n].now);
    }
  }

  /**
   * Lazy eviction is invisible to `get`: in every run on a monotonic clock it answers the latest
   * put of the key since the last covering invalidation, exactly while its age is at most the
   * time to live.
   */
  lemma {:induction false} GetIsLatest<V>(ttl: int, ops: seq<Op<V>>, key: Key, now: real)
    requires InOrder(ops, now)
    ensures Lookup(After(ttl, ops), key, now) == Ideal(ttl, ops, key, now)
  {
    StoreHoldsLatest(ttl, ops, key, now);
  }

  // ---------------------------------------------------------------- indistinguishable stores

  /** All reads from `now` on agree. */
  ghost predicate Alike<V>(a: map<Key, Entry<V>>, b: map<Key, Entry<V>>, now: real) {
    forall key, t :: now <= t ==> Lookup(a, key, t) == Lookup(b, key, t)
  }

  function Answers<V>(ttl: int, store: map<Key, Entry<V>>, ops: seq<Op<V>>): seq<Option<V>>
    decreases ops
  {
    if ops == [] then []
    else (if ops[0].Get? then [Lookup(store, ops[0].key, ops[0].now)] else [])
         + Answers(ttl, Apply(ttl, store, ops[0]), ops[1..])
  }

  lemma ApplyAlike<V>(ttl: int, a: map<Key, Entry<V>>, b: map<Key, Entry<V>>, op: Op<V>)
    requires Alike(a, b, op.now)
    ensures Alike(Apply(ttl, a, op), Apply(ttl, b, op), op.now)
  {
    forall key, t | op.now <= t
      ensures Lookup(Apply(ttl, a, op), key, t) == Lookup(Apply(ttl, b, op), key, t)
    {
      assert Lookup(a, key, t) == Lookup(b, key, t);
    }
  }

  /** Stores that agree on unexpired entries give the same answers in every later run. */
  lemma {:induction false} AlikeForever<V>(ttl: int, a: map<Key, Entry<V>>, b: map<Key, Entry<V>>, now: real,
                                           ops: seq<Op<V>>, end: real)
    requires Alike(a, b, now) && InOrder(ops, end)
    requires ops != [] ==> now <= ops[0].now
    ensures Answers(ttl, a, ops) == Answers(ttl, b, ops)
    decreases ops
  {
    if ops != [] {
      var op, rest := ops[0], ops[1..];
      assert Alike(a, b, op.now);
      ApplyAlike(ttl, a, b, op);
      assert forall i :: 0 <= i < |rest| ==> rest[i] == ops[i + 1];
      AlikeForever(ttl, Apply(ttl, a, op), Apply(ttl, b, op), op.now, rest, end);
    }
  }
}
