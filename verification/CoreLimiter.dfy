/**
 * The in-process sliding-window limiter: one deque of admission times per
 * (scope, identity), trimmed on every call, and a global prune shared by all keys.
 */
module CoreLimiter {
  import opened Basics
  import opened Windows

  type Key = (string, string)

  /** The arguments of one limiter: at most `max` calls in `window` seconds. */
  datatype Limit = Limit(max: int, window: int)

  datatype Verdict = Admitted | Refused(retryAfter: int)

  /** Every key has one limit, because buckets are keyed by (scope, identity) alone. */
  type Policy = Key -> Limit

  datatype Call = Call(key: Key, now: real)

  const PRUNE_INTERVAL: real := 600.0
  const PRUNE_AGE: real := 3600.0

  function Max(x: int, y: int): int { if x < y then y else x }

  /** What is left of a deque after popping heads older than the cutoff. */
  function Trim(hits: seq<real>, cutoff: real): seq<real> {
    if hits != [] && hits[0] < cutoff then Trim(hits[1..], cutoff) else hits
  }

  /** The Retry-After of a refusal that left `hits` in the bucket. */
  function RetryAfter(hits: seq<real>, window: int, now: real): int {
    if hits == [] then 0 else Max(1, Trunc(window as real - (now - hits[0])))
  }

  // ---------------------------------------------------------------- specification

  datatype Memory = Memory(buckets: map<Key, seq<real>>, lastPrune: real)

  /** The times kept for a key, in the buckets of the limiter or in a whole history. */
  function Hits(buckets: map<Key, seq<real>>, k: Key): seq<real> {
    if k in buckets then buckets[k] else []
  }

  /** All buckets without hits older than an hour, and without the buckets this empties. */
  function Pruned(buckets: map<Key, seq<real>>, now: real): map<Key, seq<real>> {
    map k | k in buckets && Trim(buckets[k], now - PRUNE_AGE) != [] :: Trim(buckets[k], now - PRUNE_AGE)
  }

  function Maintained(m: Memory, now: real): Memory {
    if now - m.lastPrune > PRUNE_INTERVAL then Memory(Pruned(m.buckets, now), now) else m
  }

  function Step(m: Memory, k: Key, limit: Limit, now: real): (Memory, Verdict) {
    var m1 := Maintained(m, now);
    var hits := Trim(Hits(m1.buckets, k), now - limit.window as real);
    if |hits| >= limit.max
    then (m1.(buckets := m1.buckets[k := hits]), Refused(RetryAfter(hits, limit.window, now)))
    else (m1.(buckets := m1.buckets[k := hits + [now]]), Admitted)
  }

  // ---------------------------------------------------------------- the limiter itself

  class MemoryLimiter {
    var buckets: map<Key, seq<real>>
    var lastPrune: real

    ghost function State(): Memory
      reads this
    {
      Memory(buckets, lastPrune)
    }

    constructor (start: real)
      ensures State() == Memory(map[], start)
    {
      buckets, lastPrune := map[], start;
    }

    method PopOlder(k: Key, cutoff: real)
      requires k in buckets
      modifies this`buckets
      ensures buckets == old(buckets)[k := Trim(old(buckets)[k], cutoff)]
    {
      while buckets[k] != [] && buckets[k][0] < cutoff
        invariant k in buckets
        invariant Trim(buckets[k], cutoff) == Trim(old(buckets)[k], cutoff)
        invariant buckets == old(buckets)[k := buckets[k]]
        decreases |buckets[k]|
      {
        buckets := buckets[k := buckets[k][1..]];
      }
    }

    method PruneStale(now: real)
      modifies this`buckets
      ensures buckets == Pruned(old(buckets), now)
    {
      var keys := buckets.Keys;
      while keys != {}
        invariant keys <= buckets.Keys
        invariant buckets.Keys <= old(buckets).Keys
        invariant forall k :: k in keys ==> buckets[k] == old(buckets)[k]
        invariant forall k :: k !in keys ==> (k in buckets <==> k in Pruned(old(buckets), now))
        invariant forall k :: k !in keys && k in buckets ==> buckets[k] == Pruned(old(buckets), now)[k]
      {
        var k :| k in keys;
        PopOlder(k, now - PRUNE_AGE);
        if buckets[k] == [] {
          buckets := buckets - {k};
        }
        keys := keys - {k};
      }
    }

    method Maintain(now: real)
      modifies this
      ensures State() == Maintained(old(State()), now)
    {
      if now - lastPrune > PRUNE_INTERVAL {
        PruneStale(now);
        lastPrune := now;
      }
    }

    /** One call that reaches the memory path, from taking the lock to releasing it. */
    method Check(scope: string, identity: string, limit: Limit, now: real) returns (v: Verdict)
      modifies this
      ensures (State(), v) == Step(old(State()), (scope, identity), limit, now)
    {
      var k := (scope, identity);
      var cutoff := now - limit.window as real;
      Maintain(now);
      ghost var m1 := State();
      if k !in buckets {
        buckets := buckets[k := []];
      }
      PopOlder(k, cutoff);
      var hits := buckets[k];
      assert hits == Trim(Hits(m1.buckets, k), cutoff);
      assert buckets == m1.buckets[k := hits];
      if |hits| >= limit.max {
        var retryAfter := 0;
        if hits != [] {
          retryAfter := Max(1, Trunc(limit.window as real - (now - hits[0])));
        }
        v := Refused(retryAfter);
      } else {
        buckets := buckets[k := hits + [now]];
        assert buckets == m1.buckets[k := hits + [now]];
        v := Admitted;
      }
    }
  }

  // ---------------------------------------------------------------- runs

  /** The lock sections of a run happen in nondecreasing `now`. */
  ghost predicate InOrder(start: real, calls: seq<Call>)
    decreases calls
  {
    calls == [] || (start <= calls[0].now && InOrder(calls[0].now, calls[1..]))
  }

  function Verdicts(p: Policy, m: Memory, calls: seq<Call>): (vs: seq<Verdict>)
    ensures |vs| == |calls|
    decreases calls
  {
    if calls == [] then []
    else
      var (m', v) := Step(m, calls[0].key, p(calls[0].key), calls[0].now);
      [v] + Verdicts(p, m', calls[1..])
  }

  function Fresh(start: real): Memory { Memory(map[], start) }

  /**
   * The naive limiter: it never forgets an admission, and admits iff fewer than
   * `max` admissions of the key are at or after now - window.
   */
  function NaiveVerdict(past: seq<real>, limit: Limit, now: real): Verdict {
    var recent := Recent(past, now - limit.window as real);
    if |recent| < limit.max then Admitted else Refused(RetryAfter(recent, limit.window, now))
  }

  function NaiveStep(p: Policy, history: map<Key, seq<real>>, c: Call): map<Key, seq<real>> {
    if NaiveVerdict(Hits(history, c.key), p(c.key), c.now).Admitted?
    then history[c.key := Hits(history, c.key) + [c.now]]
    else history
  }

  function NaiveVerdicts(p: Policy, history: map<Key, seq<real>>, calls: seq<Call>): (vs: seq<Verdict>)
    ensures |vs| == |calls|
    decreases calls
  {
    if calls == [] then []
    else
      [NaiveVerdict(Hits(history, calls[0].key), p(calls[0].key), calls[0].now)]
      + NaiveVerdicts(p, NaiveStep(p, history, calls[0]), calls[1..])
  }

  function NaiveHistory(p: Policy, history: map<Key, seq<real>>, calls: seq<Call>): map<Key, seq<real>>
    decreases calls
  {
    if calls == [] then history else NaiveHistory(p, NaiveStep(p, history, calls[0]), calls[1..])
  }

  // ---------------------------------------------------------------- trimming

  lemma {:induction false} TrimTrim(s: seq<real>, c: real, c': real)
    requires c <= c'
    ensures Trim(Trim(s, c), c') == Trim(s, c')
  {
    if s != [] && s[0] < c { TrimTrim(s[1..], c, c'); }
  }

  lemma {:induction false} TrimSnoc(s: seq<real>, t: real, c: real)
    ensures Trim(s + [t], c) == if Trim(s, c) != [] then Trim(s, c) + [t] else if t < c then [] else [t]
  {
    if s == [] {
      assert s + [t] == [t];
    } else {
      assert (s + [t])[1..] == s[1..] + [t];
      if s[0] < c { TrimSnoc(s[1..], t, c); }
    }
  }

  lemma {:induction false} AllRecent(s: seq<real>, c: real)
    requires forall i :: 0 <= i < |s| ==> c <= s[i]
    ensures Recent(s, c) == s
  {
    if s != [] { AllRecent(s[1..], c); }
  }

  /** On a sorted deque, popping stale heads leaves exactly the recent entries. */
  lemma {:induction false} TrimIsRecent(s: seq<real>, c: real)
    requires Sorted(s)
    ensures Trim(s, c) == Recent(s, c)
  {
    if s != [] {
      if s[0] < c {
        TrimIsRecent(s[1..], c);
      } else {
        assert forall i :: 0 <= i < |s| ==> s[0] <= s[i];
        AllRecent(s, c);
      }
    }
  }

  // ---------------------------------------------------------------- simulation

  /** The bucket and the full history look the same through every cutoff still to come. */
  ghost predicate SameTail(hits: seq<real>, past: seq<real>, from: real) {
    forall c :: from <= c ==> Trim(hits, c) == Trim(past, c)
  }

  ghost predicate KeyRel(limit: Limit, hits: seq<real>, past: seq<real>, clock: real) {
    && Sorted(past)
    && UpTo(past, clock)
    && Paced(past, limit.window as real, limit.max)
    && SameTail(hits, past, clock - limit.window as real)
    && (limit.max <= 0 ==> hits == [])
  }

  ghost predicate RelAt(p: Policy, m: Memory, history: map<Key, seq<real>>, clock: real, k: Key) {
    KeyRel(p(k), Hits(m.buckets, k), Hits(history, k), clock)
  }

  ghost predicate Rel(p: Policy, m: Memory, history: map<Key, seq<real>>, clock: real) {
    forall k :: RelAt(p, m, history, clock, k)
  }

  /** The prune never reaches into a window that can admit anything. */
  predicate PruneSafe(limit: Limit) { limit.max <= 0 || limit.window <= 3600 }

  ghost predicate Safe(p: Policy) {
    forall k :: PruneSafe(p(k))
  }

  lemma PrunedHits(m: Memory, now: real, k: Key)
    ensures Hits(Maintained(m, now).buckets, k)
         == if now - m.lastPrune > PRUNE_INTERVAL then Trim(Hits(m.buckets, k), now - PRUNE_AGE) else Hits(m.buckets, k)
  {
  }

  lemma KeyRelMaintained(limit: Limit, m: Memory, k: Key, past: seq<real>, clock: real, now: real)
    requires KeyRel(limit, Hits(m.buckets, k), past, clock) && PruneSafe(limit) && clock <= now
    ensures KeyRel(limit, Hits(Maintained(m, now).buckets, k), past, now)
  {
    PrunedHits(m, now, k);
    var hits, hits' := Hits(m.buckets, k), Hits(Maintained(m, now).buckets, k);
    if limit.max > 0 {
      forall c | now - limit.window as real <= c
        ensures Trim(hits', c) == Trim(past, c)
      {
        if hits' != hits { TrimTrim(hits, now - PRUNE_AGE, c); }
      }
    }
  }

  lemma KeyRelTrimmed(limit: Limit, hits: seq<real>, past: seq<real>, now: real)
    requires KeyRel(limit, hits, past, now)
    ensures KeyRel(limit, Trim(hits, now - limit.window as real), past, now)
  {
    forall c | now - limit.window as real <= c
      ensures Trim(Trim(hits, now - limit.window as real), c) == Trim(past, c)
    {
      TrimTrim(hits, now - limit.window as real, c);
    }
  }

  lemma SameTailAppended(hits: seq<real>, past: seq<real>, now: real, from: real)
    requires SameTail(hits, past, from)
    ensures SameTail(hits + [now], past + [now], from)
  {
    forall c | from <= c
      ensures Trim(hits + [now], c) == Trim(past + [now], c)
    {
      assert Trim(hits, c) == Trim(past, c);
      TrimSnoc(hits, now, c);
      TrimSnoc(past, now, c);
    }
  }

  lemma SortedAppended(past: seq<real>, now: real)
    requires Sorted(past) && UpTo(past, now)
    ensures Sorted(past + [now]) && UpTo(past + [now], now)
  {
  }

  lemma KeyRelAppended(limit: Limit, hits: seq<real>, past: seq<real>, now: real)
    requires KeyRel(limit, hits, past, now)
    requires CountFrom(past, now - limit.window as real) < limit.max
    ensures KeyRel(limit, hits + [now], past + [now], now)
  {
    SortedAppended(past, now);
    PacedSnoc(past, now, limit.window as real, limit.max);
    SameTailAppended(hits, past, now, now - limit.window as real);
  }

  /** What the call finds in its bucket is what the naive limiter counts. */
  lemma TrimmedIsRecent(limit: Limit, hits: seq<real>, past: seq<real>, now: real)
    requires Sorted(past) && SameTail(hits, past, now - limit.window as real)
    ensures var cutoff := now - limit.window as real;
            Trim(hits, cutoff) == Recent(past, cutoff) && |Recent(past, cutoff)| == CountFrom(past, cutoff)
  {
    var cutoff := now - limit.window as real;
    assert Trim(hits, cutoff) == Trim(past, cutoff);
    TrimIsRecent(past, cutoff);
    RecentLength(past, cutoff);
  }

  /** A step, from what the maintained bucket of its key holds. */
  lemma StepByBucket(limit: Limit, m: Memory, k: Key, now: real)
    ensures var (m', v) := Step(m, k, limit, now);
            var live := Trim(Hits(Maintained(m, now).buckets, k), now - limit.window as real);
            if |live| < limit.max then v == Admitted && Hits(m'.buckets, k) == live + [now]
            else v == Refused(RetryAfter(live, limit.window, now)) && Hits(m'.buckets, k) == live
  {
  }

  /** The bucket that a step leaves, beside the history of the naive limiter. */
  lemma BucketAnswersNaively(limit: Limit, hits: seq<real>, past: seq<real>, now: real)
    requires KeyRel(limit, hits, past, now)
    ensures var live := Trim(hits, now - limit.window as real);
            if |live| < limit.max then
              NaiveVerdict(past, limit, now) == Admitted && KeyRel(limit, live + [now], past + [now], now)
            else
              NaiveVerdict(past, limit, now) == Refused(RetryAfter(live, limit.window, now))
              && KeyRel(limit, live, past, now)
  {
    TrimmedIsRecent(limit, hits, past, now);
    KeyRelTrimmed(limit, hits, past, now);
    var live := Trim(hits, now - limit.window as real);
    if |live| < limit.max { KeyRelAppended(limit, live, past, now); }
  }

  lemma StepAnswersNaively(limit: Limit, m: Memory, k: Key, past: seq<real>, clock: real, now: real)
    requires KeyRel(limit, Hits(m.buckets, k), past, clock) && PruneSafe(limit) && clock <= now
    ensures var (m', v) := Step(m, k, limit, now);
            v == NaiveVerdict(past, limit, now)
            && KeyRel(limit, Hits(m'.buckets, k), if v.Admitted? then past + [now] else past, now)
  {
    KeyRelMaintained(limit, m, k, past, clock, now);
    StepByBucket(limit, m, k, now);
    BucketAnswersNaively(limit, Hits(Maintained(m, now).buckets, k), past, now);
  }

  lemma OtherKeyUntouched(m: Memory, k: Key, limit: Limit, now: real, other: Key)
    requires other != k
    ensures Hits(Step(m, k, limit, now).0.buckets, other) == Hits(Maintained(m, now).buckets, other)
  {
  }

  /** The calls of other keys leave the history of a key alone. */
  lemma NaiveStepPast(p: Policy, history: map<Key, seq<real>>, c: Call, k: Key)
    ensures Hits(NaiveStep(p, history, c), k)
         == if c.key == k && NaiveVerdict(Hits(history, k), p(k), c.now).Admitted?
            then Hits(history, k) + [c.now] else Hits(history, k)
  {
  }

  /**
   * What a call does to the bucket of another key: nothing, unless more than 600 seconds have passed
   * since the last prune; then the hits of the last hour stay, and no empty bucket does.
   */
  lemma OthersPruned(m: Memory, k: Key, limit: Limit, now: real, other: Key)
    requires other != k && Sorted(Hits(m.buckets, other))
    ensures var m' := Step(m, k, limit, now).0;
            if now - m.lastPrune > 600.0 then
              && m'.lastPrune == now
              && Hits(m'.buckets, other) == Recent(Hits(m.buckets, other), now - 3600.0)
              && (other in m'.buckets ==> m'.buckets[other] != [])
            else
              && m'.lastPrune == m.lastPrune
              && (other in m'.buckets <==> other in m.buckets)
              && (other in m.buckets ==> m'.buckets[other] == m.buckets[other])
  {
    PrunedHits(m, now, other);
    TrimIsRecent(Hits(m.buckets, other), now - 3600.0);
  }

  /** For a key that the prune is safe for, a step keeps the relation, and answers as the naive limiter does. */
  lemma StepRefinesFor(p: Policy, m: Memory, history: map<Key, seq<real>>, clock: real, c: Call, k: Key)
    requires PruneSafe(p(k)) && RelAt(p, m, history, clock, k) && clock <= c.now
    ensures RelAt(p, Step(m, c.key, p(c.key), c.now).0, NaiveStep(p, history, c), c.now, k)
    ensures c.key == k ==> Step(m, k, p(k), c.now).1 == NaiveVerdict(Hits(history, k), p(k), c.now)
  {
    NaiveStepPast(p, history, c, k);
    if c.key == k {
      StepAnswersNaively(p(k), m, k, Hits(history, k), clock, c.now);
    } else {
      KeyRelMaintained(p(k), m, k, Hits(history, k), clock, c.now);
      OtherKeyUntouched(m, c.key, p(c.key), c.now, k);
    }
  }

  /** One step of the deque limiter answers as the naive one does, and keeps the relation. */
  lemma StepRefines(p: Policy, m: Memory, history: map<Key, seq<real>>, clock: real, c: Call)
    requires Safe(p)
    requires Rel(p, m, history, clock) && clock <= c.now
    ensures Step(m, c.key, p(c.key), c.now).1 == NaiveVerdict(Hits(history, c.key), p(c.key), c.now)
    ensures Rel(p, Step(m, c.key, p(c.key), c.now).0, NaiveStep(p, history, c), c.now)
  {
    forall k ensures RelAt(p, Step(m, c.key, p(c.key), c.now).0, NaiveStep(p, history, c), c.now, k) {
      assert RelAt(p, m, history, clock, k);
      StepRefinesFor(p, m, history, clock, c, k);
    }
    assert RelAt(p, m, history, clock, c.key);
    StepRefinesFor(p, m, history, clock, c, c.key);
  }

  lemma {:induction false} RunRefines(p: Policy, m: Memory, history: map<Key, seq<real>>, clock: real, calls: seq<Call>)
    requires Safe(p)
    requires Rel(p, m, history, clock) && InOrder(clock, calls)
    ensures Verdicts(p, m, calls) == NaiveVerdicts(p, history, calls)
    decreases calls
  {
    if calls != [] {
      StepRefines(p, m, history, clock, calls[0]);
      var (m', _) := Step(m, calls[0].key, p(calls[0].key), calls[0].now);
      RunRefines(p, m', NaiveStep(p, history, calls[0]), calls[0].now, calls[1..]);
    }
  }

  lemma FreshRel(p: Policy, start: real)
    ensures Rel(p, Fresh(start), map[], start)
  {
  }

  // ---------------------------------------------------------------- where the refinement stops

  function Burst(k: Key, now: real, n: nat): seq<Call> {
    if n == 0 then [] else [Call(k, now)] + Burst(k, now, n - 1)
  }

  lemma {:induction false} BurstInOrder(k: Key, now: real, n: nat, rest: seq<Call>)
    requires InOrder(now, rest)
    ensures InOrder(now, Burst(k, now, n) + rest)
  {
    if n == 0 {
      assert Burst(k, now, n) + rest == rest;
    } else {
      BurstInOrder(k, now, n - 1, rest);
      assert (Burst(k, now, n) + rest)[1..] == Burst(k, now, n - 1) + rest;
    }
  }

  lemma {:induction false} TrimKeeps(s: seq<real>, c: real)
    requires s == [] || c <= s[0]
    ensures Trim(s, c) == s
  {
  }

  lemma {:induction false} TrimDropsAll(s: seq<real>, c: real)
    requires forall i :: 0 <= i < |s| ==> s[i] < c
    ensures Trim(s, c) == []
  {
    if s != [] { TrimDropsAll(s[1..], c); }
  }

  /** `n` hits of `k` at one instant, as the deque limiter and as the naive limiter hold them. */
  function BurstMemory(k: Key, t: real, n: nat): Memory { Memory(map[k := Times(t, n)], t) }

  function BurstHistory(k: Key, t: real, n: nat): map<Key, seq<real>> { map[k := Times(t, n)] }

  lemma BurstCall(p: Policy, k: Key, t: real, n: nat)
    requires n < p(k).max && 0 <= p(k).window
    ensures Step(BurstMemory(k, t, n), k, p(k), t) == (BurstMemory(k, t, n + 1), Admitted)
  {
    var m := BurstMemory(k, t, n);
    assert Maintained(m, t) == m;
    TrimKeeps(Times(t, n), t - p(k).window as real);
    assert Times(t, n) + [t] == Times(t, n + 1);
    assert m.buckets[k := Times(t, n + 1)] == BurstMemory(k, t, n + 1).buckets;
  }

  lemma NaiveBurstCall(p: Policy, k: Key, t: real, n: nat)
    requires n < p(k).max && 0 <= p(k).window
    ensures NaiveVerdict(Times(t, n), p(k), t) == Admitted
    ensures NaiveStep(p, BurstHistory(k, t, n), Call(k, t)) == BurstHistory(k, t, n + 1)
  {
    AllRecent(Times(t, n), t - p(k).window as real);
    assert Times(t, n) + [t] == Times(t, n + 1);
  }

  /** The prune has emptied the bucket, but the naive limiter still counts the whole burst. */
  lemma LateCall(p: Policy, k: Key, t: real)
    requires !PruneSafe(p(k))
    ensures Step(BurstMemory(k, t, p(k).max), k, p(k), t + 3600.5).1.Admitted?
    ensures NaiveVerdict(Times(t, p(k).max), p(k), t + 3600.5).Refused?
  {
    TrimDropsAll(Times(t, p(k).max), t + 3600.5 - PRUNE_AGE);
    assert Hits(Maintained(BurstMemory(k, t, p(k).max), t + 3600.5).buckets, k) == [];
    AllRecent(Times(t, p(k).max), t + 3600.5 - p(k).window as real);
  }

  lemma VerdictsCons(p: Policy, m: Memory, c: Call, rest: seq<Call>)
    ensures Verdicts(p, m, [c] + rest)
         == [Step(m, c.key, p(c.key), c.now).1] + Verdicts(p, Step(m, c.key, p(c.key), c.now).0, rest)
  {
  }

  lemma NaiveVerdictsCons(p: Policy, history: map<Key, seq<real>>, c: Call, rest: seq<Call>)
    ensures NaiveVerdicts(p, history, [c] + rest)
         == [NaiveVerdict(Hits(history, c.key), p(c.key), c.now)] + NaiveVerdicts(p, NaiveStep(p, history, c), rest)
  {
  }

  function AllAdmitted(n: nat): seq<Verdict> { if n == 0 then [] else [Admitted] + AllAdmitted(n - 1) }

  /** A burst that fills the budget, then one more call an hour and half a second later. */
  function BurstThenLate(k: Key, t: real, todo: nat): seq<Call> { Burst(k, t, todo) + [Call(k, t + 3600.5)] }

  lemma BurstThenLateCons(k: Key, t: real, todo: nat)
    requires 0 < todo
    ensures BurstThenLate(k, t, todo) == [Call(k, t)] + BurstThenLate(k, t, todo - 1)
  {
  }

  /** The limiter admits the next call of the burst, and the late one. */
  lemma NextOfBurst(p: Policy, k: Key, t: real, done: nat, todo: nat)
    requires p(k).max == done + todo && !PruneSafe(p(k))
    ensures Verdicts(p, BurstMemory(k, t, done), BurstThenLate(k, t, todo))
         == [Admitted]
            + if todo == 0 then [] else Verdicts(p, BurstMemory(k, t, done + 1), BurstThenLate(k, t, todo - 1))
  {
    if todo == 0 {
      LateCall(p, k, t);
      assert BurstThenLate(k, t, 0) == [Call(k, t + 3600.5)] + [];
      VerdictsCons(p, BurstMemory(k, t, done), Call(k, t + 3600.5), []);
    } else {
      BurstCall(p, k, t, done);
      BurstThenLateCons(k, t, todo);
      VerdictsCons(p, BurstMemory(k, t, done), Call(k, t), BurstThenLate(k, t, todo - 1));
    }
  }

  /** The naive limiter admits the next call of the burst, but the late one it judges by the whole burst. */
  lemma NaiveNextOfBurst(p: Policy, k: Key, t: real, done: nat, todo: nat)
    requires p(k).max == done + todo && !PruneSafe(p(k))
    ensures NaiveVerdicts(p, BurstHistory(k, t, done), BurstThenLate(k, t, todo))
         == if todo == 0 then [NaiveVerdict(Times(t, p(k).max), p(k), t + 3600.5)]
            else [Admitted] + NaiveVerdicts(p, BurstHistory(k, t, done + 1), BurstThenLate(k, t, todo - 1))
  {
    assert Hits(BurstHistory(k, t, done), k) == Times(t, done);
    if todo == 0 {
      assert BurstThenLate(k, t, 0) == [Call(k, t + 3600.5)] + [];
      NaiveVerdictsCons(p, BurstHistory(k, t, done), Call(k, t + 3600.5), []);
    } else {
      NaiveBurstCall(p, k, t, done);
      BurstThenLateCons(k, t, todo);
      NaiveVerdictsCons(p, BurstHistory(k, t, done), Call(k, t), BurstThenLate(k, t, todo - 1));
    }
  }

  lemma AdmittedBefore(vs: seq<Verdict>, n: nat, last: Verdict)
    requires 0 < n && vs == AllAdmitted(n - 1) + [last]
    ensures [Admitted] + vs == AllAdmitted(n) + [last]
  {
  }

  lemma {:induction false} LimiterAdmits(p: Policy, k: Key, t: real, done: nat, todo: nat)
    requires p(k).max == done + todo && !PruneSafe(p(k))
    ensures Verdicts(p, BurstMemory(k, t, done), BurstThenLate(k, t, todo)) == AllAdmitted(todo) + [Admitted]
    decreases todo
  {
    NextOfBurst(p, k, t, done, todo);
    if todo > 0 {
      LimiterAdmits(p, k, t, done + 1, todo - 1);
      AdmittedBefore(Verdicts(p, BurstMemory(k, t, done + 1), BurstThenLate(k, t, todo - 1)), todo, Admitted);
    }
  }

  lemma {:induction false} NaiveRefuses(p: Policy, k: Key, t: real, done: nat, todo: nat, last: Verdict)
    requires p(k).max == done + todo && !PruneSafe(p(k)) && last == NaiveVerdict(Times(t, p(k).max), p(k), t + 3600.5)
    ensures NaiveVerdicts(p, BurstHistory(k, t, done), BurstThenLate(k, t, todo)) == AllAdmitted(todo) + [last]
    decreases todo
  {
    NaiveNextOfBurst(p, k, t, done, todo);
    if todo > 0 {
      NaiveRefuses(p, k, t, done + 1, todo - 1, last);
      AdmittedBefore(NaiveVerdicts(p, BurstHistory(k, t, done + 1), BurstThenLate(k, t, todo - 1)), todo, last);
    }
  }

  lemma FirstCall(p: Policy, k: Key, t: real)
    requires 0 < p(k).max && 0 <= p(k).window
    ensures Step(Fresh(t), k, p(k), t) == (BurstMemory(k, t, 1), Admitted)
    ensures NaiveStep(p, map[], Call(k, t)) == BurstHistory(k, t, 1)
  {
    assert Maintained(Fresh(t), t) == Fresh(t);
    assert Trim([], t - p(k).window as real) == [];
    assert [] + [t] == Times(t, 1);
    assert Fresh(t).buckets[k := Times(t, 1)] == BurstMemory(k, t, 1).buckets;
  }

  /** Both admit the same calls up to the last one, which only the naive limiter refuses. */
  ghost predicate OneTooMany(p: Policy, start: real, calls: seq<Call>) {
    && calls != [] && InOrder(start, calls)
    && var n := |calls| - 1;
       && Verdicts(p, Fresh(start), calls) == AllAdmitted(n) + [Admitted]
       && NaiveVerdicts(p, map[], calls)[..n] == AllAdmitted(n)
       && NaiveVerdicts(p, map[], calls)[n].Refused?
  }

  lemma {:induction false} BurstLength(k: Key, t: real, n: nat)
    ensures |Burst(k, t, n)| == n && |AllAdmitted(n)| == n
  {
    if n > 0 { BurstLength(k, t, n - 1); }
  }

  lemma BurstThenLateInOrder(k: Key, t: real, n: nat)
    ensures InOrder(t, [Call(k, t)] + BurstThenLate(k, t, n))
  {
    assert InOrder(t, [Call(k, t + 3600.5)]) by { assert InOrder(t + 3600.5, [Call(k, t + 3600.5)][1..]); }
    BurstInOrder(k, t, n, [Call(k, t + 3600.5)]);
    assert ([Call(k, t)] + BurstThenLate(k, t, n))[1..] == BurstThenLate(k, t, n);
  }

  lemma OneTooManyDiffers(p: Policy, start: real, calls: seq<Call>)
    requires OneTooMany(p, start, calls)
    ensures InOrder(start, calls) && Verdicts(p, Fresh(start), calls) != NaiveVerdicts(p, map[], calls)
  {
    assert Verdicts(p, Fresh(start), calls)[|calls| - 1] == Admitted;
  }

  lemma LateCallTellsApart(p: Policy, k: Key, t: real)
    requires !PruneSafe(p(k))
    ensures exists calls :: OneTooMany(p, t, calls)
  {
    var n := p(k).max - 1;
    var rest := BurstThenLate(k, t, n);
    var calls := [Call(k, t)] + rest;
    var last := NaiveVerdict(Times(t, p(k).max), p(k), t + 3600.5);
    BurstLength(k, t, n);
    BurstThenLateInOrder(k, t, n);
    FirstCall(p, k, t);
    LateCall(p, k, t);
    LimiterAdmits(p, k, t, 1, n);
    NaiveRefuses(p, k, t, 1, n, last);
    VerdictsCons(p, Fresh(t), Call(k, t), rest);
    NaiveVerdictsCons(p, map[], Call(k, t), rest);
    AdmittedBefore(Verdicts(p, BurstMemory(k, t, 1), rest), n + 1, Admitted);
    AdmittedBefore(NaiveVerdicts(p, BurstHistory(k, t, 1), rest), n + 1, last);
    assert OneTooMany(p, t, calls);
  }

  /**
   * The deque limiter with its two prunes answers every run over all keys exactly as the
   * naive limiter, Retry-After included, if and only if no key that can admit anything has
   * a window beyond the hour that the global prune keeps.
   */
  lemma RefinesNaiveIffPruneSafe(p: Policy, start: real)
    ensures Safe(p)
        <==> (forall calls :: InOrder(start, calls) ==>
                Verdicts(p, Fresh(start), calls) == NaiveVerdicts(p, map[], calls))
  {
    if Safe(p) {
      forall calls | InOrder(start, calls)
        ensures Verdicts(p, Fresh(start), calls) == NaiveVerdicts(p, map[], calls)
      {
        FreshRel(p, start);
        RunRefines(p, Fresh(start), map[], start, calls);
      }
    } else {
      var k :| !PruneSafe(p(k));
      LateCallTellsApart(p, k, start);
      var calls :| OneTooMany(p, start, calls);
      OneTooManyDiffers(p, start, calls);
    }
  }

  // ---------------------------------------------------------------- the budget

  /** When the calls of `k` were admitted. */
  function AdmittedTimes(calls: seq<Call>, vs: seq<Verdict>, k: Key): seq<real>
    requires |vs| == |calls|
  {
    if calls == [] then []
    else (if calls[0].key == k && vs[0].Admitted? then [calls[0].now] else [])
         + AdmittedTimes(calls[1..], vs[1..], k)
  }

  ghost predicate KeptKey(limit: Limit, past: seq<real>, clock: real) {
    Sorted(past) && UpTo(past, clock) && Paced(past, limit.window as real, limit.max)
  }

  ghost predicate Kept(p: Policy, history: map<Key, seq<real>>, clock: real) {
    forall k :: KeptKey(p(k), Hits(history, k), clock)
  }

  lemma KeptKeyAppended(limit: Limit, past: seq<real>, clock: real, now: real)
    requires KeptKey(limit, past, clock) && clock <= now && NaiveVerdict(past, limit, now).Admitted?
    ensures KeptKey(limit, past + [now], now)
  {
    RecentLength(past, now - limit.window as real);
    PacedSnoc(past, now, limit.window as real, limit.max);
  }

  lemma NaiveStepKept(p: Policy, history: map<Key, seq<real>>, clock: real, c: Call)
    requires Kept(p, history, clock) && clock <= c.now
    ensures Kept(p, NaiveStep(p, history, c), c.now)
  {
    var past := Hits(history, c.key);
    if NaiveVerdict(past, p(c.key), c.now).Admitted? { KeptKeyAppended(p(c.key), past, clock, c.now); }
    forall k
      ensures KeptKey(p(k), Hits(NaiveStep(p, history, c), k), c.now)
    {
      assert KeptKey(p(k), Hits(history, k), clock);
    }
  }

  lemma AdmittedTimesCons(c: Call, calls: seq<Call>, v: Verdict, vs: seq<Verdict>, k: Key)
    requires |vs| == |calls|
    ensures AdmittedTimes([c] + calls, [v] + vs, k)
         == (if c.key == k && v.Admitted? then [c.now] else []) + AdmittedTimes(calls, vs, k)
  {
  }

  /** The naive history is the admitted times. */
  lemma {:induction false} NaiveHistoryIsAdmissions(p: Policy, history: map<Key, seq<real>>, calls: seq<Call>, k: Key)
    ensures Hits(NaiveHistory(p, history, calls), k)
         == Hits(history, k) + AdmittedTimes(calls, NaiveVerdicts(p, history, calls), k)
    decreases calls
  {
    if calls != [] {
      var c, rest := calls[0], calls[1..];
      var history' := NaiveStep(p, history, c);
      NaiveHistoryIsAdmissions(p, history', rest, k);
      NaiveStepPast(p, history, c, k);
      AdmittedTimesCons(c, rest, NaiveVerdict(Hits(history, c.key), p(c.key), c.now),
                        NaiveVerdicts(p, history', rest), k);
      assert calls == [c] + rest;
    }
  }

  function LastTime(clock: real, calls: seq<Call>): real {
    if calls == [] then clock else calls[|calls| - 1].now
  }

  lemma {:induction false} NaiveHistoryKept(p: Policy, history: map<Key, seq<real>>, clock: real, calls: seq<Call>)
    requires Kept(p, history, clock) && InOrder(clock, calls)
    ensures Kept(p, NaiveHistory(p, history, calls), LastTime(clock, calls))
    decreases calls
  {
    if calls != [] {
      NaiveStepKept(p, history, clock, calls[0]);
      NaiveHistoryKept(p, NaiveStep(p, history, calls[0]), calls[0].now, calls[1..]);
    }
  }

  lemma FreshKept(p: Policy, start: real)
    ensures Kept(p, map[], start)
  {
  }

  lemma KeptAt(p: Policy, history: map<Key, seq<real>>, clock: real, k: Key)
    requires Kept(p, history, clock)
    ensures KeptKey(p(k), Hits(history, k), clock)
  {
  }

  lemma HistoryKept(p: Policy, start: real, calls: seq<Call>, k: Key)
    requires InOrder(start, calls)
    ensures KeptKey(p(k), Hits(NaiveHistory(p, map[], calls), k), LastTime(start, calls))
  {
    FreshKept(p, start);
    NaiveHistoryKept(p, map[], start, calls);
    KeptAt(p, NaiveHistory(p, map[], calls), LastTime(start, calls), k);
  }

  lemma NaiveBudget(p: Policy, start: real, calls: seq<Call>, k: Key, a: real)
    requires InOrder(start, calls)
    ensures CountIn(AdmittedTimes(calls, NaiveVerdicts(p, map[], calls), k), a, a + p(k).window as real)
            <= AtLeastZero(p(k).max)
  {
    HistoryKept(p, start, calls, k);
    PacedBound(Hits(NaiveHistory(p, map[], calls), k), p(k).window as real, p(k).max, a);
    NaiveHistoryIsAdmissions(p, map[], calls, k);
    assert Hits(NaiveHistory(p, map[], calls), k) == AdmittedTimes(calls, NaiveVerdicts(p, map[], calls), k);
  }

  lemma FreshRelAt(p: Policy, start: real, k: Key)
    ensures RelAt(p, Fresh(start), map[], start, k)
  {
  }

  /** A key that the prune is safe for is admitted as the naive limiter does, whatever windows other keys have. */
  lemma {:induction false} AdmittedNaively(p: Policy, m: Memory, history: map<Key, seq<real>>, clock: real,
                                           calls: seq<Call>, k: Key)
    requires PruneSafe(p(k)) && RelAt(p, m, history, clock, k) && InOrder(clock, calls)
    ensures AdmittedTimes(calls, Verdicts(p, m, calls), k) == AdmittedTimes(calls, NaiveVerdicts(p, history, calls), k)
    decreases calls
  {
    if calls != [] {
      var c, rest := calls[0], calls[1..];
      var (m', v) := Step(m, c.key, p(c.key), c.now);
      var history', v' := NaiveStep(p, history, c), NaiveVerdict(Hits(history, c.key), p(c.key), c.now);
      StepRefinesFor(p, m, history, clock, c, k);
      AdmittedNaively(p, m', history', c.now, rest, k);
      assert calls == [c] + rest;
      AdmittedTimesCons(c, rest, v, Verdicts(p, m', rest), k);
      AdmittedTimesCons(c, rest, v', NaiveVerdicts(p, history', rest), k);
    }
  }

  /** No closed interval of the window's length holds more than `max` admissions of a key that the prune is safe for. */
  lemma WindowBudget(p: Policy, start: real, calls: seq<Call>, k: Key, a: real)
    requires PruneSafe(p(k)) && InOrder(start, calls)
    ensures CountIn(AdmittedTimes(calls, Verdicts(p, Fresh(start), calls), k), a, a + p(k).window as real)
            <= AtLeastZero(p(k).max)
  {
    FreshRelAt(p, start, k);
    AdmittedNaively(p, Fresh(start), map[], start, calls, k);
    NaiveBudget(p, start, calls, k, a);
  }

  // ---------------------------------------------------------------- stale readings of the clock

  /** How many calls of `k` a run admits in [lo, hi]. */
  function AdmittedIn(p: Policy, m: Memory, calls: seq<Call>, k: Key, lo: real, hi: real): nat
    decreases calls
  {
    if calls == [] then 0
    else
      var c := calls[0];
      var (m', v) := Step(m, c.key, p(c.key), c.now);
      (if c.key == k && v.Admitted? && lo <= c.now <= hi then 1 else 0) + AdmittedIn(p, m', calls[1..], k, lo, hi)
  }

  lemma {:induction false} AdmittedInCounts(p: Policy, m: Memory, calls: seq<Call>, k: Key, lo: real, hi: real)
    ensures AdmittedIn(p, m, calls, k, lo, hi) == CountIn(AdmittedTimes(calls, Verdicts(p, m, calls), k), lo, hi)
    decreases calls
  {
    if calls != [] {
      var c, rest := calls[0], calls[1..];
      var (m', v) := Step(m, c.key, p(c.key), c.now);
      AdmittedInCounts(p, m', rest, k, lo, hi);
      assert calls == [c] + rest;
      VerdictsCons(p, m, c, rest);
      AdmittedTimesCons(c, rest, v, Verdicts(p, m', rest), k);
      var now := if c.key == k && v.Admitted? then [c.now] else [];
      CountInAppend(now, AdmittedTimes(rest, Verdicts(p, m', rest), k), lo, hi);
      assert now != [] ==> now[..0] == [];
    }
  }

  lemma AdmittedHead(p: Policy, m: Memory, m': Memory, k: Key, t: real, rest: seq<Call>, lo: real, hi: real)
    requires Step(m, k, p(k), t) == (m', Admitted)
    ensures AdmittedIn(p, m, [Call(k, t)] + rest, k, lo, hi)
         == (if lo <= t <= hi then 1 else 0) + AdmittedIn(p, m', rest, k, lo, hi)
  {
    assert ([Call(k, t)] + rest)[1..] == rest;
  }

  /** `n` calls at one instant, and then the rest. */
  function BurstThen(k: Key, t: real, n: nat, rest: seq<Call>): seq<Call> {
    if n == 0 then rest else [Call(k, t)] + BurstThen(k, t, n - 1, rest)
  }

  /** What the rest of a burst comes to, for which `done` calls of it have been made. */
  function BurstAdmitted(p: Policy, k: Key, t: real, done: nat, todo: nat, rest: seq<Call>, hi: real): nat {
    AdmittedIn(p, BurstMemory(k, t, done), BurstThen(k, t, todo, rest), k, t, hi)
  }

  /** One call of the burst. */
  lemma BurstNext(p: Policy, k: Key, t: real, done: nat, todo: nat, rest: seq<Call>, hi: real)
    requires 0 < todo && done < p(k).max && 0 <= p(k).window && t <= hi
    ensures BurstAdmitted(p, k, t, done, todo, rest, hi) == 1 + BurstAdmitted(p, k, t, done + 1, todo - 1, rest, hi)
  {
    var tail := BurstThen(k, t, todo - 1, rest);
    BurstCall(p, k, t, done);
    AdmittedHead(p, BurstMemory(k, t, done), BurstMemory(k, t, done + 1), k, t, tail, t, hi);
  }

  lemma {:induction false} BurstHead(p: Policy, k: Key, t: real, done: nat, todo: nat, rest: seq<Call>, hi: real)
    requires p(k).max == done + todo && 0 <= p(k).window && t <= hi
    ensures BurstAdmitted(p, k, t, done, todo, rest, hi) == todo + BurstAdmitted(p, k, t, p(k).max, 0, rest, hi)
    decreases todo
  {
    if todo > 0 {
      BurstNext(p, k, t, done, todo, rest, hi);
      BurstHead(p, k, t, done + 1, todo - 1, rest, hi);
    }
  }

  /** A call one second after the window has lapsed, and then one that had read the clock a second before it. */
  lemma StaleCall(p: Policy, k: Key, t: real) returns (m1: Memory, m2: Memory)
    requires 2 <= p(k).max && 0 <= p(k).window
    ensures Step(BurstMemory(k, t, p(k).max), k, p(k), t + p(k).window as real + 1.0) == (m1, Admitted)
    ensures Step(m1, k, p(k), t + p(k).window as real) == (m2, Admitted)
  {
    var late := t + p(k).window as real + 1.0;
    var m := BurstMemory(k, t, p(k).max);
    m1 := Step(m, k, p(k), late).0;
    m2 := Step(m1, k, p(k), late - 1.0).0;
    PrunedHits(m, late, k);
    TrimDropsAll(Times(t, p(k).max), late - p(k).window as real);
    if late - m.lastPrune > PRUNE_INTERVAL {
      TrimTrimAny(Times(t, p(k).max), late - PRUNE_AGE, late - p(k).window as real);
    }
    assert Hits(m1.buckets, k) == [late];
    PrunedHits(m1, late - 1.0, k);
    TrimKeeps([late], late - 1.0 - PRUNE_AGE);
    TrimKeeps([late], late - 1.0 - p(k).window as real);
  }

  /** What is left of a deque that one cutoff would empty is emptied by it. */
  lemma {:induction false} TrimTrimAny(s: seq<real>, c: real, c': real)
    requires forall i :: 0 <= i < |s| ==> s[i] < c'
    ensures Trim(Trim(s, c), c') == []
  {
    if s != [] && s[0] < c { TrimTrimAny(s[1..], c, c'); } else { TrimDropsAll(s, c'); }
  }

  lemma LastAdmitted(p: Policy, m: Memory, m': Memory, k: Key, t: real, lo: real, hi: real)
    requires Step(m, k, p(k), t) == (m', Admitted) && lo <= t <= hi
    ensures AdmittedIn(p, m, [Call(k, t)] + [], k, lo, hi) == 1
  {
    AdmittedHead(p, m, m', k, t, [], lo, hi);
    assert AdmittedIn(p, m', [], k, lo, hi) == 0;
  }

  /** The last two calls of the run below. */
  function StalePair(k: Key, t: real, w: real): seq<Call> { [Call(k, t + w + 1.0)] + ([Call(k, t + w)] + []) }

  lemma StalePairAdmitted(p: Policy, k: Key, t: real)
    requires 2 <= p(k).max && 0 <= p(k).window
    ensures var w := p(k).window as real;
            AdmittedIn(p, BurstMemory(k, t, p(k).max), StalePair(k, t, w), k, t, t + w) == 1
  {
    var m1, m2 := StaleCall(p, k, t);
    PairAdmitted(p, BurstMemory(k, t, p(k).max), m1, m2, k, t, p(k).window as real);
  }

  /** Of two calls that are admitted, only the second has its reading in the window. */
  lemma PairAdmitted(p: Policy, m: Memory, m1: Memory, m2: Memory, k: Key, t: real, w: real)
    requires 0.0 <= w && Step(m, k, p(k), t + w + 1.0) == (m1, Admitted) && Step(m1, k, p(k), t + w) == (m2, Admitted)
    ensures AdmittedIn(p, m, StalePair(k, t, w), k, t, t + w) == 1
  {
    AdmittedHead(p, m, m1, k, t + w + 1.0, [Call(k, t + w)] + [], t, t + w);
    LastAdmitted(p, m1, m2, k, t + w, t, t + w);
  }

  /** A whole budget at `t`, a call after the window, and one that read the clock at its very end. */
  function StaleRun(k: Key, t: real, limit: Limit): seq<Call>
    requires 0 < limit.max
  {
    [Call(k, t)] + BurstThen(k, t, limit.max - 1, StalePair(k, t, limit.window as real))
  }

  /**
   * The order of the lock sections matters: when a call takes the lock after one that read the
   * clock a second later, a closed window can hold one admission too many, for every key that
   * allows more than one.
   */
  lemma StaleReadingOverBudget(p: Policy, k: Key, t: real)
    requires 2 <= p(k).max && 0 <= p(k).window
    ensures var calls := StaleRun(k, t, p(k));
            CountIn(AdmittedTimes(calls, Verdicts(p, Fresh(t), calls), k), t, t + p(k).window as real) == p(k).max + 1
  {
    AdmittedInCounts(p, Fresh(t), StaleRun(k, t, p(k)), k, t, t + p(k).window as real);
    StaleRunAdmitted(p, k, t);
  }

  lemma StaleRunAdmitted(p: Policy, k: Key, t: real)
    requires 2 <= p(k).max && 0 <= p(k).window
    ensures AdmittedIn(p, Fresh(t), StaleRun(k, t, p(k)), k, t, t + p(k).window as real) == p(k).max + 1
  {
    var w, n := p(k).window as real, p(k).max - 1;
    FirstCall(p, k, t);
    AdmittedHead(p, Fresh(t), BurstMemory(k, t, 1), k, t, BurstThen(k, t, n, StalePair(k, t, w)), t, t + w);
    BurstHead(p, k, t, 1, n, StalePair(k, t, w), t + w);
    StalePairAdmitted(p, k, t);
  }

  // ---------------------------------------------------------------- the budget stops at the prune

  /** At most `max` admissions of the key in the closed window that starts at `a`. */
  ghost predicate Within(p: Policy, start: real, calls: seq<Call>, k: Key, a: real) {
    InOrder(start, calls) ==>
      CountIn(AdmittedTimes(calls, Verdicts(p, Fresh(start), calls), k), a, a + p(k).window as real)
      <= AtLeastZero(p(k).max)
  }

  /** A whole budget at one instant, and one more call after the prune. */
  function BudgetThenLate(k: Key, t: real, n: nat): seq<Call> {
    [Call(k, t)] + BurstThen(k, t, n, [Call(k, t + 3600.5)])
  }

  lemma {:induction false} BurstThenInOrder(k: Key, t: real, n: nat, rest: seq<Call>)
    requires InOrder(t, rest)
    ensures InOrder(t, BurstThen(k, t, n, rest))
  {
    if n > 0 {
      BurstThenInOrder(k, t, n - 1, rest);
      assert BurstThen(k, t, n, rest)[1..] == BurstThen(k, t, n - 1, rest);
    }
  }

  lemma BudgetThenLateInOrder(k: Key, t: real, n: nat)
    ensures InOrder(t, BudgetThenLate(k, t, n))
  {
    var late := [Call(k, t + 3600.5)];
    assert InOrder(t, late) by { assert late[1..] == []; }
    BurstThenInOrder(k, t, n, late);
    assert BudgetThenLate(k, t, n)[1..] == BurstThen(k, t, n, late);
  }

  lemma BudgetThenLateAdmitted(p: Policy, k: Key, t: real)
    requires !PruneSafe(p(k))
    ensures AdmittedIn(p, Fresh(t), BudgetThenLate(k, t, p(k).max - 1), k, t, t + p(k).window as real) == p(k).max + 1
  {
    var n, hi, late := p(k).max - 1, t + p(k).window as real, [Call(k, t + 3600.5)];
    FirstCall(p, k, t);
    AdmittedHead(p, Fresh(t), BurstMemory(k, t, 1), k, t, BurstThen(k, t, n, late), t, hi);
    BurstHead(p, k, t, 1, n, late, hi);
    LateCall(p, k, t);
    var m := Step(BurstMemory(k, t, p(k).max), k, p(k), t + 3600.5).0;
    assert late == late + [];
    AdmittedHead(p, BurstMemory(k, t, p(k).max), m, k, t + 3600.5, [], t, hi);
  }

  /** The budget of a key holds in every run, whatever the other keys do, if and only if the prune is safe for it. */
  lemma WindowBudgetIff(p: Policy, start: real, k: Key)
    ensures PruneSafe(p(k)) <==> forall calls, a :: Within(p, start, calls, k, a)
  {
    if PruneSafe(p(k)) {
      forall calls, a ensures Within(p, start, calls, k, a) {
        if InOrder(start, calls) { WindowBudget(p, start, calls, k, a); }
      }
    } else {
      var calls := BudgetThenLate(k, start, p(k).max - 1);
      BudgetThenLateInOrder(k, start, p(k).max - 1);
      BudgetThenLateAdmitted(p, k, start);
      AdmittedInCounts(p, Fresh(start), calls, k, start, start + p(k).window as real);
      assert !Within(p, start, calls, k, start);
    }
  }

  // ---------------------------------------------------------------- Retry-After

  function MemoryAfter(p: Policy, m: Memory, calls: seq<Call>): Memory
    decreases calls
  {
    if calls == [] then m
    else MemoryAfter(p, Step(m, calls[0].key, p(calls[0].key), calls[0].now).0, calls[1..])
  }

  lemma {:induction false} RelAfter(p: Policy, m: Memory, history: map<Key, seq<real>>, clock: real,
                                    calls: seq<Call>, k: Key)
    requires PruneSafe(p(k)) && RelAt(p, m, history, clock, k) && InOrder(clock, calls)
    ensures RelAt(p, MemoryAfter(p, m, calls), NaiveHistory(p, history, calls), LastTime(clock, calls), k)
    decreases calls
  {
    if calls != [] {
      StepRefinesFor(p, m, history, clock, calls[0], k);
      RelAfter(p, Step(m, calls[0].key, p(calls[0].key), calls[0].now).0, NaiveStep(p, history, calls[0]),
               calls[0].now, calls[1..], k);
    }
  }

  /** The admissions of `k` in the run `before` that still count at `now`, oldest first. */
  function CountedAt(p: Policy, before: seq<Call>, k: Key, now: real): seq<real> {
    Recent(Hits(NaiveHistory(p, map[], before), k), now - p(k).window as real)
  }

  /** A kept history never holds more than `max` entries that count. */
  lemma CountedAtMostMax(limit: Limit, past: seq<real>, clock: real, now: real)
    requires KeptKey(limit, past, clock) && clock <= now
    ensures |Recent(past, now - limit.window as real)| <= AtLeastZero(limit.max)
  {
    RecentLength(past, now - limit.window as real);
    CountInIsCountFrom(past, now - limit.window as real, now);
    PacedBound(past, limit.window as real, limit.max, now - limit.window as real);
  }

  lemma {:induction false} RecentRecent(s: seq<real>, c: real, c': real)
    requires c <= c'
    ensures Recent(Recent(s, c), c') == Recent(s, c')
  {
    if s != [] { RecentRecent(s[1..], c, c'); }
  }

  lemma {:induction false} RecentSorted(s: seq<real>, c: real)
    requires Sorted(s)
    ensures Sorted(Recent(s, c))
  {
    if s != [] {
      RecentSorted(s[1..], c);
      var r := Recent(s[1..], c);
      assert forall i :: 0 <= i < |r| ==> r[i] in r;
      assert forall t :: t in s[1..] ==> s[0] <= t;
    }
  }

  /** The rounding of a refusal's Retry-After, against the exact remaining wait. */
  lemma RetryRounding(limit: Limit, recent: seq<real>, now: real)
    requires recent != [] && now - limit.window as real <= recent[0] <= now
    ensures var r, exact := RetryAfter(recent, limit.window, now), limit.window as real - (now - recent[0]);
            && 1 <= r <= Max(1, limit.window)
            && -1.0 <= r as real - exact <= 1.0
            && recent[0] + limit.window as real < now + r as real + 1.0
  {
  }

  /** On a history that has not grown, the key is admitted again exactly when its oldest counted entry lapses. */
  lemma AdmittedAgainIff(limit: Limit, past: seq<real>, clock: real, now: real, later: real)
    requires KeptKey(limit, past, clock) && clock <= now <= later && 0 < limit.max
    requires NaiveVerdict(past, limit, now).Refused?
    ensures var recent := Recent(past, now - limit.window as real);
            recent != [] && (NaiveVerdict(past, limit, later).Admitted? <==> recent[0] + limit.window as real < later)
  {
    var c, c' := now - limit.window as real, later - limit.window as real;
    var recent := Recent(past, c);
    CountedAtMostMax(limit, past, clock, now);
    RecentRecent(past, c, c');
    RecentSorted(past, c);
    TrimIsRecent(recent, c');
    if recent[0] < c' {
      assert Trim(recent, c') == Trim(recent[1..], c');
      TrimShorter(recent[1..], c');
    }
  }

  lemma {:induction false} TrimShorter(s: seq<real>, c: real)
    ensures |Trim(s, c)| <= |s|
  {
    if s != [] && s[0] < c { TrimShorter(s[1..], c); }
  }

  /** The verdict of a call after a run is the naive verdict on the run's history. */
  lemma VerdictAfter(p: Policy, m: Memory, history: map<Key, seq<real>>, clock: real, calls: seq<Call>, c: Call)
    requires PruneSafe(p(c.key)) && RelAt(p, m, history, clock, c.key)
    requires InOrder(clock, calls) && LastTime(clock, calls) <= c.now
    ensures Step(MemoryAfter(p, m, calls), c.key, p(c.key), c.now).1
         == NaiveVerdict(Hits(NaiveHistory(p, history, calls), c.key), p(c.key), c.now)
  {
    RelAfter(p, m, history, clock, calls, c.key);
    StepRefinesFor(p, MemoryAfter(p, m, calls), NaiveHistory(p, history, calls), LastTime(clock, calls), c, c.key);
  }

  /** Calls that admit nothing for `k` leave its history alone. */
  lemma {:induction false} NothingAdmitted(p: Policy, m: Memory, history: map<Key, seq<real>>, clock: real,
                                           calls: seq<Call>, k: Key)
    requires PruneSafe(p(k)) && RelAt(p, m, history, clock, k) && InOrder(clock, calls)
    requires AdmittedTimes(calls, Verdicts(p, m, calls), k) == []
    ensures Hits(NaiveHistory(p, history, calls), k) == Hits(history, k)
  {
    AdmittedNaively(p, m, history, clock, calls, k);
    NaiveHistoryIsAdmissions(p, history, calls, k);
  }

  /** The memory right after the call `c` that follows the run `before`. */
  function MemoryAfterCall(p: Policy, start: real, before: seq<Call>, c: Call): Memory {
    Step(MemoryAfter(p, Fresh(start), before), c.key, p(c.key), c.now).0
  }

  function VerdictOf(p: Policy, m: Memory, c: Call): Verdict {
    Step(m, c.key, p(c.key), c.now).1
  }

  /**
   * A refusal `v` at `now` counted the admissions `counted`, and a later call got `v'`: the
   * Retry-After lies between 1 and max(1, window) and within one second of the exact remaining
   * wait, and the later call is admitted exactly when the oldest counted admission has left
   * its window; in particular from now + retryAfter + 1 on.
   */
  ghost predicate Accurate(window: int, counted: seq<real>, now: real, v: Verdict, later: real, v': Verdict) {
    && v.Refused?
    && counted != []
    && 1 <= v.retryAfter <= Max(1, window)
    && -1.0 <= v.retryAfter as real - (counted[0] + window as real - now) <= 1.0
    && (v'.Admitted? <==> counted[0] + window as real < later)
    && (now + v.retryAfter as real + 1.0 <= later ==> v'.Admitted?)
  }

  /** What a naive refusal says about a later naive verdict on the same history. */
  lemma NaiveRetry(limit: Limit, past: seq<real>, clock: real, now: real, later: real)
    requires KeptKey(limit, past, clock) && clock <= now <= later && 0 < limit.max
    requires NaiveVerdict(past, limit, now).Refused?
    ensures var counted := Recent(past, now - limit.window as real);
            Accurate(limit.window, counted, now, NaiveVerdict(past, limit, now),
                     later, NaiveVerdict(past, limit, later))
  {
    AdmittedAgainIff(limit, past, clock, now, later);
    var counted := Recent(past, now - limit.window as real);
    assert counted[0] in past;
    RetryRounding(limit, counted, now);
  }

  /** A key without budget is refused on every call of every run, with Retry-After 0. */
  lemma NoBudget(p: Policy, start: real, before: seq<Call>, c: Call)
    requires p(c.key).max <= 0 && InOrder(start, before) && LastTime(start, before) <= c.now
    ensures VerdictOf(p, MemoryAfter(p, Fresh(start), before), c) == Refused(0)
  {
    var m := MemoryAfter(p, Fresh(start), before);
    FreshRelAt(p, start, c.key);
    RelAfter(p, Fresh(start), map[], start, before, c.key);
    PrunedHits(m, c.now, c.key);
    assert Hits(m.buckets, c.key) == [];
  }

  /** Both verdicts of the scenario below are naive verdicts on the history before the refusal. */
  lemma RefusedThenAgain(p: Policy, start: real, before: seq<Call>, refused: Call, between: seq<Call>, again: Call)
    requires PruneSafe(p(refused.key)) && again.key == refused.key
    requires InOrder(start, before) && LastTime(start, before) <= refused.now
    requires InOrder(refused.now, between) && LastTime(refused.now, between) <= again.now
    requires VerdictOf(p, MemoryAfter(p, Fresh(start), before), refused).Refused?
    requires AdmittedTimes(between, Verdicts(p, MemoryAfterCall(p, start, before, refused), between), refused.key) == []
    ensures var past := Hits(NaiveHistory(p, map[], before), refused.key);
            && VerdictOf(p, MemoryAfter(p, Fresh(start), before), refused)
               == NaiveVerdict(past, p(refused.key), refused.now)
            && VerdictOf(p, MemoryAfter(p, MemoryAfterCall(p, start, before, refused), between), again)
               == NaiveVerdict(past, p(refused.key), again.now)
  {
    var h := NaiveHistory(p, map[], before);
    var m := MemoryAfterCall(p, start, before, refused);
    FreshRelAt(p, start, refused.key);
    RelAfter(p, Fresh(start), map[], start, before, refused.key);
    StepRefinesFor(p, MemoryAfter(p, Fresh(start), before), h, LastTime(start, before), refused, refused.key);
    assert NaiveStep(p, h, refused) == h;
    NothingAdmitted(p, m, h, refused.now, between, refused.key);
    VerdictAfter(p, m, h, refused.now, between, again);
  }

  lemma NaiveRetryAfter(p: Policy, start: real, before: seq<Call>, k: Key, now: real, later: real)
    requires 0 < p(k).max && InOrder(start, before) && LastTime(start, before) <= now <= later
    requires NaiveVerdict(Hits(NaiveHistory(p, map[], before), k), p(k), now).Refused?
    ensures var past := Hits(NaiveHistory(p, map[], before), k);
            Accurate(p(k).window, CountedAt(p, before, k, now),
                     now, NaiveVerdict(past, p(k), now), later, NaiveVerdict(past, p(k), later))
  {
    HistoryKept(p, start, before, k);
    NaiveRetry(p(k), Hits(NaiveHistory(p, map[], before), k), LastTime(start, before), now, later);
  }

  /**
   * `refused` is refused after `before`, `between` admits nothing for its key, and `again` comes
   * after: the Retry-After is accurate for `again`.
   */
  lemma {:induction false} RetryAfterAccurate(p: Policy, start: real, before: seq<Call>, refused: Call,
                                              between: seq<Call>, again: Call)
    requires PruneSafe(p(refused.key)) && 0 < p(refused.key).max && again.key == refused.key
    requires InOrder(start, before) && LastTime(start, before) <= refused.now
    requires InOrder(refused.now, between) && LastTime(refused.now, between) <= again.now
    requires VerdictOf(p, MemoryAfter(p, Fresh(start), before), refused).Refused?
    requires AdmittedTimes(between, Verdicts(p, MemoryAfterCall(p, start, before, refused), between), refused.key) == []
    ensures Accurate(p(refused.key).window,
                     CountedAt(p, before, refused.key, refused.now),
                     refused.now,
                     VerdictOf(p, MemoryAfter(p, Fresh(start), before), refused),
                     again.now,
                     VerdictOf(p, MemoryAfter(p, MemoryAfterCall(p, start, before, refused), between), again))
  {
    RefusedThenAgain(p, start, before, refused, between, again);
    InOrderClock(refused.now, between);
    NaiveRetryAfter(p, start, before, refused.key, refused.now, again.now);
  }

  lemma {:induction false} InOrderClock(start: real, calls: seq<Call>)
    requires InOrder(start, calls)
    ensures start <= LastTime(start, calls)
    decreases calls
  {
    if calls != [] { InOrderClock(calls[0].now, calls[1..]); }
  }
}
