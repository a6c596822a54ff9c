/**
 * The limiter with its Redis front: a fixed-window counter shared by all workers, and each
 * worker's own memory path whenever the Redis pipeline raises. A call's Redis operation and its
 * lock section are separate steps, and those of any number of calls interleave.
 */
module CoreFailover {
  import opened Basics
  import opened Windows
  import opened Text
  import opened RedisCounters
  import CL = CoreLimiter

  /** One dependency of the application: which factory made it, and its arguments. */
  datatype Rule = Rule(prefix: string, limit: CL.Limit)

  type Policy = CL.Key -> Rule

  datatype Within = Raised | Answered(within: bool)

  function BucketOf(t: real, window: int): int
    requires window != 0
  {
    (t / window as real).Floor
  }

  function RedisKey(prefix: string, k: CL.Key, bucket: int): string {
    "rl:" + (prefix + [':'] + (k.0 + [':'] + (k.1 + [':'] + IntText(bucket))))
  }

  /** The Redis counter; a window of zero divides by zero before Redis is reached. */
  function RedisCount(s: Store, rule: Rule, k: CL.Key, t: real, reply: Reply): (Store, Within) {
    if rule.limit.window == 0 || reply.Down? then (s, Raised)
    else
      var key := RedisKey(rule.prefix, k, BucketOf(t, rule.limit.window));
      var s' := Expire(Incr(s, key, t), key, rule.limit.window, t);
      (s', if reply.Lost? then Raised else Answered(Count(s, key, t) + 1 <= rule.limit.max))
  }

  /** What Redis decides; `None` sends the call to the memory path. */
  function RedisVerdict(rule: Rule, within: Within): Option<CL.Verdict> {
    match within
    case Raised => None
    case Answered(true) => Some(CL.Admitted)
    case Answered(false) => Some(CL.Refused(rule.limit.window))
  }

  /** The buckets are the whole windows since the epoch: bucket b holds the times from b windows up to b + 1. */
  lemma BucketNumber(t: real, window: int, bucket: int)
    requires 0 < window
    requires bucket as real * window as real <= t < bucket as real * window as real + window as real
    ensures BucketOf(t, window) == bucket
  {
    QuotientBounds(t, window as real, bucket as real);
  }

  /**
   * A pipeline that Redis executes counts one more in the current bucket, and lets it lapse a window
   * later; nothing else changes. None is executed for a window of zero.
   */
  lemma CountSpelledOut(s: Store, rule: Rule, k: CL.Key, t: real, reply: Reply)
    requires 0 < rule.limit.window
    ensures var (s', within) := RedisCount(s, rule, k, t, reply);
            var bucket := IntText(BucketOf(t, rule.limit.window));
            var key := "rl:" + rule.prefix + ":" + k.0 + ":" + k.1 + ":" + bucket;
            if reply.Down? then s' == s && within == Raised
            else
              && s' == s[key := Entry(Count(s, key, t) + 1, At(t + rule.limit.window as real))]
              && within == if reply.Ok? then Answered(Count(s, key, t) + 1 <= rule.limit.max) else Raised
  {
    KeySpelledOut(rule.prefix, k, BucketOf(t, rule.limit.window));
    CountAtKey(s, rule, k, t, reply, RedisKey(rule.prefix, k, BucketOf(t, rule.limit.window)));
  }

  lemma Spread(x: real, b: real, w: real)
    ensures (x - b) * w == x * w - b * w
  {
  }

  lemma NotNegative(x: real, w: real)
    requires 0.0 <= x && 0.0 < w
    ensures 0.0 <= x * w
    ensures 0.0 < x ==> 0.0 < x * w
  {
  }

  lemma QuotientBounds(t: real, w: real, b: real)
    requires 0.0 < w && b * w <= t < b * w + w
    ensures b <= t / w < b + 1.0
  {
    var q := t / w;
    assert q * w == t;
    Spread(q, b, w);
    if q < b {
      Spread(b, q, w);
      NotNegative(b - q, w);
    }
    if b + 1.0 <= q {
      NotNegative(q - b - 1.0, w);
      Spread(q - b, 1.0, w);
    }
  }

  /** The same, under the key of the bucket that is current. */
  lemma CountAtKey(s: Store, rule: Rule, k: CL.Key, t: real, reply: Reply, key: string)
    requires 0 < rule.limit.window && key == RedisKey(rule.prefix, k, BucketOf(t, rule.limit.window))
    ensures var (s', within) := RedisCount(s, rule, k, t, reply);
            if reply.Down? then s' == s && within == Raised
            else
              && s' == s[key := Entry(Count(s, key, t) + 1, At(t + rule.limit.window as real))]
              && within == if reply.Ok? then Answered(Count(s, key, t) + 1 <= rule.limit.max) else Raised
  {
  }

  lemma KeySpelledOut(prefix: string, k: CL.Key, bucket: int)
    ensures RedisKey(prefix, k, bucket) == "rl:" + prefix + ":" + k.0 + ":" + k.1 + ":" + IntText(bucket)
  {
    assert k.1 + [':'] + IntText(bucket) == k.1 + ([':'] + IntText(bucket));
    var tail := k.1 + ([':'] + IntText(bucket));
    assert k.0 + ([':'] + tail) == k.0 + ":" + k.1 + ":" + IntText(bucket);
    assert prefix + ([':'] + (k.0 + ([':'] + tail))) == prefix + ":" + k.0 + ":" + k.1 + ":" + IntText(bucket);
  }

  // ---------------------------------------------------------------- one worker

  class SharedRedis {
    var store: Store
  }

  class Limiter {
    const redis: SharedRedis
    const memory: CL.MemoryLimiter

    constructor (redis: SharedRedis, start: real)
      ensures this.redis == redis && memory.State() == CL.Fresh(start) && fresh(memory)
    {
      this.redis := redis;
      memory := new CL.MemoryLimiter(start);
    }

    method CountInRedis(rule: Rule, k: CL.Key, t: real, reply: Reply) returns (within: Within)
      modifies redis
      ensures (redis.store, within) == RedisCount(old(redis.store), rule, k, t, reply)
    {
      if rule.limit.window == 0 || reply.Down? { return Raised; }
      var key := RedisKey(rule.prefix, k, BucketOf(t, rule.limit.window));
      redis.store := Incr(redis.store, key, t);
      var count := redis.store[key].count;
      redis.store := Expire(redis.store, key, rule.limit.window, t);
      within := if reply.Lost? then Raised else Answered(count <= rule.limit.max);
    }

    /** A call up to the point where it has an answer from Redis or has to take the lock. */
    method Ask(rule: Rule, k: CL.Key, t: real, reply: Reply) returns (v: Option<CL.Verdict>)
      modifies redis
      ensures var (store, within) := RedisCount(old(redis.store), rule, k, t, reply);
              redis.store == store && v == RedisVerdict(rule, within)
    {
      var within := CountInRedis(rule, k, t, reply);
      if within == Answered(false) { return Some(CL.Refused(rule.limit.window)); }
      if within == Answered(true) { return Some(CL.Admitted); }
      v := None;
    }

    /** The rest of a call that Redis did not answer. */
    method Lock(rule: Rule, k: CL.Key, now: real) returns (v: CL.Verdict)
      modifies memory
      ensures (memory.State(), v) == CL.Step(old(memory.State()), k, rule.limit, now)
    {
      v := memory.Check(k.0, k.1, rule.limit, now);
      assert (k.0, k.1) == k;
    }
  }

  // ---------------------------------------------------------------- runs of many workers

  /** A call reads `now`, later asks Redis at `at`, and, if that raises, takes its worker's lock later still. */
  datatype Event =
    | Ask(worker: nat, key: CL.Key, now: real, at: real, reply: Reply)
    | Lock(call: nat)

  /** A call on its way to the lock. */
  datatype Waiting = Waiting(worker: nat, key: CL.Key, now: real)

  datatype System = System(redis: Store, workers: seq<CL.Memory>, waiting: seq<Waiting>)

  datatype Path = ViaRedis | ViaMemory(worker: nat)

  datatype Outcome = Undecided | Decided(key: CL.Key, time: real, path: Path, verdict: CL.Verdict)

  function AskStep(p: Policy, s: System, e: Event): (System, Outcome)
    requires e.Ask?
  {
    var (redis, within) := RedisCount(s.redis, p(e.key), e.key, e.at, e.reply);
    match RedisVerdict(p(e.key), within)
    case Some(v) => (s.(redis := redis), Decided(e.key, e.at, ViaRedis, v))
    case None => (s.(redis := redis, waiting := s.waiting + [Waiting(e.worker, e.key, e.now)]), Undecided)
  }

  function LockStep(p: Policy, s: System, i: nat): (System, Outcome) {
    if i < |s.waiting| && s.waiting[i].worker < |s.workers| then
      var c := s.waiting[i];
      var (memory, v) := CL.Step(s.workers[c.worker], c.key, p(c.key).limit, c.now);
      (System(s.redis, s.workers[c.worker := memory], s.waiting[..i] + s.waiting[i + 1..]),
       Decided(c.key, c.now, ViaMemory(c.worker), v))
    else (s, Undecided)
  }

  function Step(p: Policy, s: System, e: Event): (System, Outcome) {
    match e
    case Ask(_, _, _, _, _) => AskStep(p, s, e)
    case Lock(i) => LockStep(p, s, i)
  }

  function Outcomes(p: Policy, s: System, events: seq<Event>): (os: seq<Outcome>)
    ensures |os| == |events|
    decreases events
  {
    if events == [] then []
    else
      var (s', o) := Step(p, s, events[0]);
      [o] + Outcomes(p, s', events[1..])
  }

  function After(p: Policy, s: System, events: seq<Event>): System
    decreases events
  {
    if events == [] then s else After(p, Step(p, s, events[0]).0, events[1..])
  }

  /** Workers that start at these times, over an empty Redis. */
  function Started(starts: seq<real>): System {
    System(map[], seq(|starts|, i requires 0 <= i < |starts| => CL.Fresh(starts[i])), [])
  }

  /** The instant at which a call of `k` was let through, if it was. */
  function AdmittedAt(o: Outcome, k: CL.Key): seq<real> {
    if o.Decided? && o.key == k && o.verdict.Admitted? then [o.time] else []
  }

  function AdmissionTimes(os: seq<Outcome>, k: CL.Key): seq<real> {
    if os == [] then [] else AdmittedAt(os[0], k) + AdmissionTimes(os[1..], k)
  }

  /** The part of AdmissionTimes that one path let through. */
  function PathTimes(os: seq<Outcome>, k: CL.Key, path: Path): seq<real> {
    if os == [] then []
    else (if os[0].Decided? && os[0].path == path then AdmittedAt(os[0], k) else []) + PathTimes(os[1..], k, path)
  }

  /** The lock sections of one worker. */
  function MemoryCalls(os: seq<Outcome>, worker: nat): seq<CL.Call> {
    if os == [] then []
    else (if os[0].Decided? && os[0].path == ViaMemory(worker) then [CL.Call(os[0].key, os[0].time)] else [])
         + MemoryCalls(os[1..], worker)
  }

  /** Every worker's lock is taken in nondecreasing `now`; Redis operations overlap in any way. */
  ghost predicate LocksInOrder(p: Policy, starts: seq<real>, events: seq<Event>) {
    forall w :: 0 <= w < |starts| ==> WorkerInOrder(p, starts, events, w)
  }

  ghost predicate WorkerInOrder(p: Policy, starts: seq<real>, events: seq<Event>, w: nat)
    requires w < |starts|
  {
    CL.InOrder(starts[w], MemoryCalls(Outcomes(p, Started(starts), events), w))
  }

  // ---------------------------------------------------------------- the paths add up

  /** Admissions through the memories of the first `n` workers. */
  function MemorySum(os: seq<Outcome>, k: CL.Key, n: nat, lo: real, hi: real): nat {
    if n == 0 then 0 else MemorySum(os, k, n - 1, lo, hi) + CountIn(PathTimes(os, k, ViaMemory(n - 1)), lo, hi)
  }

  lemma PathCountCons(o: Outcome, os: seq<Outcome>, k: CL.Key, path: Path, lo: real, hi: real)
    ensures CountIn(PathTimes([o] + os, k, path), lo, hi)
         == CountIn(PathTimes(os, k, path), lo, hi)
            + if o.Decided? && o.path == path then CountIn(AdmittedAt(o, k), lo, hi) else 0
  {
    assert ([o] + os)[1..] == os;
    CountInAppend(if o.Decided? && o.path == path then AdmittedAt(o, k) else [], PathTimes(os, k, path), lo, hi);
  }

  lemma {:induction false} MemorySumCons(o: Outcome, os: seq<Outcome>, k: CL.Key, n: nat, lo: real, hi: real)
    ensures MemorySum([o] + os, k, n, lo, hi)
         == MemorySum(os, k, n, lo, hi)
            + if o.Decided? && o.path.ViaMemory? && o.path.worker < n then CountIn(AdmittedAt(o, k), lo, hi) else 0
  {
    if n > 0 {
      MemorySumCons(o, os, k, n - 1, lo, hi);
      PathCountCons(o, os, k, ViaMemory(n - 1), lo, hi);
    }
  }

  ghost predicate KnownWorkers(os: seq<Outcome>, n: nat) {
    forall i :: 0 <= i < |os| && os[i].Decided? && os[i].path.ViaMemory? ==> os[i].path.worker < n
  }

  lemma {:induction false} NoMemory(k: CL.Key, n: nat, lo: real, hi: real)
    ensures MemorySum([], k, n, lo, hi) == 0
  {
    if n > 0 { NoMemory(k, n - 1, lo, hi); }
  }

  /** Every admission came through exactly one path. */
  lemma {:induction false} PathsAddUp(os: seq<Outcome>, k: CL.Key, n: nat, lo: real, hi: real)
    requires KnownWorkers(os, n)
    ensures CountIn(AdmissionTimes(os, k), lo, hi)
         == CountIn(PathTimes(os, k, ViaRedis), lo, hi) + MemorySum(os, k, n, lo, hi)
  {
    if os == [] {
      NoMemory(k, n, lo, hi);
    } else {
      var o, rest := os[0], os[1..];
      assert os == [o] + rest;
      assert KnownWorkers(rest, n) by { assert forall i :: 0 <= i < |rest| ==> rest[i] == os[i + 1]; }
      PathsAddUp(rest, k, n, lo, hi);
      MemorySumCons(o, rest, k, n, lo, hi);
      PathCountCons(o, rest, k, ViaRedis, lo, hi);
      CountInAppend(AdmittedAt(o, k), AdmissionTimes(rest, k), lo, hi);
    }
  }

  lemma {:induction false} WorkersKnown(p: Policy, s: System, events: seq<Event>)
    ensures KnownWorkers(Outcomes(p, s, events), |s.workers|)
    decreases events
  {
    if events != [] {
      var (s', o) := Step(p, s, events[0]);
      WorkersKnown(p, s', events[1..]);
      assert |s'.workers| == |s.workers|;
    }
  }

  // ---------------------------------------------------------------- the memory path

  function Limits(p: Policy): CL.Policy { k => p(k).limit }

  /** A lock section at the head of a worker's calls. */
  lemma LockSection(p: Policy, m: CL.Memory, m': CL.Memory, o: Outcome, calls: seq<CL.Call>, k: CL.Key)
    requires o.Decided? && (m', o.verdict) == CL.Step(m, o.key, Limits(p)(o.key), o.time)
    ensures var c := CL.Call(o.key, o.time);
            CL.AdmittedTimes([c] + calls, CL.Verdicts(Limits(p), m, [c] + calls), k)
            == AdmittedAt(o, k) + CL.AdmittedTimes(calls, CL.Verdicts(Limits(p), m', calls), k)
  {
    var c := CL.Call(o.key, o.time);
    CL.VerdictsCons(Limits(p), m, c, calls);
    CL.AdmittedTimesCons(c, calls, o.verdict, CL.Verdicts(Limits(p), m', calls), k);
  }

  /** One event is no lock section of the worker, or it is the next call of the worker's limiter. */
  lemma StepOfWorker(p: Policy, s: System, e: Event, worker: nat)
    requires worker < |s.workers|
    ensures var (s', o) := Step(p, s, e);
            && |s'.workers| == |s.workers|
            && if o.Decided? && o.path == ViaMemory(worker)
               then (s'.workers[worker], o.verdict) == CL.Step(s.workers[worker], o.key, Limits(p)(o.key), o.time)
               else s'.workers[worker] == s.workers[worker]
  {
  }

  lemma MemoryCons(o: Outcome, os: seq<Outcome>, worker: nat, k: CL.Key)
    ensures var mine := o.Decided? && o.path == ViaMemory(worker);
            && MemoryCalls([o] + os, worker)
               == (if mine then [CL.Call(o.key, o.time)] else []) + MemoryCalls(os, worker)
            && PathTimes([o] + os, k, ViaMemory(worker))
               == (if mine then AdmittedAt(o, k) else []) + PathTimes(os, k, ViaMemory(worker))
  {
    assert ([o] + os)[1..] == os;
  }

  /** The admissions of a worker's limiter, when it is run on these outcomes. */
  function WorkerTimes(p: Policy, m: CL.Memory, os: seq<Outcome>, worker: nat, k: CL.Key): seq<real> {
    CL.AdmittedTimes(MemoryCalls(os, worker), CL.Verdicts(Limits(p), m, MemoryCalls(os, worker)), k)
  }

  lemma WorkerTimesCons(p: Policy, m: CL.Memory, m': CL.Memory, o: Outcome, os: seq<Outcome>, worker: nat, k: CL.Key)
    requires if o.Decided? && o.path == ViaMemory(worker)
             then (m', o.verdict) == CL.Step(m, o.key, Limits(p)(o.key), o.time) else m' == m
    requires WorkerTimes(p, m', os, worker, k) == PathTimes(os, k, ViaMemory(worker))
    ensures WorkerTimes(p, m, [o] + os, worker, k) == PathTimes([o] + os, k, ViaMemory(worker))
  {
    MemoryCons(o, os, worker, k);
    if o.Decided? && o.path == ViaMemory(worker) {
      LockSection(p, m, m', o, MemoryCalls(os, worker), k);
    } else {
      assert MemoryCalls([o] + os, worker) == MemoryCalls(os, worker);
      assert PathTimes([o] + os, k, ViaMemory(worker)) == PathTimes(os, k, ViaMemory(worker));
    }
  }

  /** What a worker's memory path does in a run is a run of the in-process limiter. */
  lemma {:induction false} MemoryPathIsARun(p: Policy, s: System, events: seq<Event>, worker: nat, k: CL.Key)
    requires worker < |s.workers|
    ensures WorkerTimes(p, s.workers[worker], Outcomes(p, s, events), worker, k)
         == PathTimes(Outcomes(p, s, events), k, ViaMemory(worker))
    decreases events
  {
    if events != [] {
      var (s', o) := Step(p, s, events[0]);
      StepOfWorker(p, s, events[0], worker);
      MemoryPathIsARun(p, s', events[1..], worker, k);
      WorkerTimesCons(p, s.workers[worker], s'.workers[worker], o, Outcomes(p, s', events[1..]), worker, k);
    }
  }

  // ---------------------------------------------------------------- the Redis path

  /** Keys of different callers or different buckets are different strings, if scopes hold no colon. */
  lemma RedisKeyInjective(p: string, k: CL.Key, b: int, p': string, k': CL.Key, b': int)
    requires ':' !in p && ':' !in p' && ':' !in k.0 && ':' !in k'.0
    requires RedisKey(p, k, b) == RedisKey(p', k', b')
    ensures k == k' && b == b' && p == p'
  {
    var t, t' := k.1 + [':'] + IntText(b), k'.1 + [':'] + IntText(b');
    var u, u' := k.0 + [':'] + t, k'.0 + [':'] + t';
    var v, v' := p + [':'] + u, p' + [':'] + u';
    assert v == RedisKey(p, k, b)[3..] == v';
    FirstCut(p, u, p', u', ':');
    FirstCut(k.0, t, k'.0, t', ':');
    IntTextNoColon(b);
    IntTextNoColon(b');
    LastCut(k.1, IntText(b), k'.1, IntText(b'), ':');
    IntTextInjective(b, b');
  }

  function CountBucket(log: seq<real>, b: int, window: int): nat
    requires window != 0
  {
    if log == [] then 0
    else CountBucket(log[..|log| - 1], b, window) + if BucketOf(log[|log| - 1], window) == b then 1 else 0
  }

  lemma CountBucketSnoc(log: seq<real>, t: real, b: int, window: int)
    requires window != 0
    ensures CountBucket(log + [t], b, window) == CountBucket(log, b, window) + if BucketOf(t, window) == b then 1 else 0
  {
  }

  /** The instant at which a bucket ends. */
  function EndOf(b: int, window: int): real { (b + 1) as real * window as real }

  /** The current bucket is still running, and ends within one window. */
  lemma BucketEnd(t: real, window: int)
    requires 0 < window
    ensures t < EndOf(BucketOf(t, window), window) <= t + window as real
  {
    var q, w := t / window as real, window as real;
    var f, e := q.Floor as real, (q.Floor + 1) as real;
    assert q * w == t;
    assert f <= q < e == f + 1.0;
    MulMono(f, q, w);
    MulStrict(q, e, w);
    MulAdd(f, w);
  }

  lemma MulMono(x: real, y: real, w: real)
    requires x <= y && 0.0 < w
    ensures x * w <= y * w
  {
  }

  lemma MulStrict(x: real, y: real, w: real)
    requires x < y && 0.0 < w
    ensures x * w < y * w
  {
  }

  lemma MulAdd(x: real, w: real)
    ensures (x + 1.0) * w == x * w + w
  {
  }

  lemma DivIs(x: real, q: real, w: real)
    requires q * w == x && 0.0 < w
    ensures x / w == q
  {
  }

  lemma DivMono(x: real, y: real, w: real)
    requires x <= y && 0.0 < w
    ensures x / w <= y / w
  {
  }

  /** A closed interval as long as the window meets at most two buckets. */
  lemma TwoBuckets(t: real, a: real, window: int)
    requires 0 < window && a <= t <= a + window as real
    ensures BucketOf(t, window) == BucketOf(a, window) || BucketOf(t, window) == BucketOf(a, window) + 1
  {
    var w := window as real;
    DivMono(a, t, w);
    DivMono(t, a + w, w);
    assert (a / w + 1.0) * w == a + w by { assert (a / w) * w == a; MulAdd(a / w, w); }
    DivIs(a + w, a / w + 1.0, w);
  }

  lemma {:induction false} IntervalInTwoBuckets(log: seq<real>, a: real, window: int)
    requires 0 < window
    ensures CountIn(log, a, a + window as real)
         <= CountBucket(log, BucketOf(a, window), window) + CountBucket(log, BucketOf(a, window) + 1, window)
  {
    if log != [] {
      var t := log[|log| - 1];
      IntervalInTwoBuckets(log[..|log| - 1], a, window);
      if a <= t <= a + window as real { TwoBuckets(t, a, window); }
    }
  }

  /** The counter of a bucket that has admitted anything outlives the bucket and has counted every admission. */
  ghost predicate BucketOk(rule: Rule, s: Store, k: CL.Key, log: seq<real>, b: int)
    requires rule.limit.window != 0
  {
    var n, key := CountBucket(log, b, rule.limit.window), RedisKey(rule.prefix, k, b);
    && n <= AtLeastZero(rule.limit.max)
    && (n > 0 ==> key in s && n <= s[key].count && s[key].expiry.At?
                  && EndOf(b, rule.limit.window) <= s[key].expiry.time)
  }

  ghost predicate RedisInv(rule: Rule, s: Store, k: CL.Key, log: seq<real>)
    requires rule.limit.window != 0
  {
    forall b :: BucketOk(rule, s, k, log, b)
  }

  /** Scopes hold no colon, and neither do the prefixes. */
  ghost predicate ColonFree(p: Policy, events: seq<Event>) {
    forall i :: 0 <= i < |events| && events[i].Ask? ==>
      ':' !in events[i].key.0 && ':' !in p(events[i].key).prefix
  }

  lemma ColonFreeTail(p: Policy, events: seq<Event>)
    requires events != [] && ColonFree(p, events)
    ensures ColonFree(p, events[1..])
  {
    assert forall i :: 0 <= i < |events[1..]| ==> events[1..][i] == events[i + 1];
  }

  /** A call that reaches Redis adds one to its bucket's counter and re-arms its time to live. */
  lemma RedisCounted(s: Store, rule: Rule, k: CL.Key, t: real, reply: Reply)
    requires 0 < rule.limit.window && !reply.Down?
    ensures var key := RedisKey(rule.prefix, k, BucketOf(t, rule.limit.window));
            var s' := RedisCount(s, rule, k, t, reply).0;
            s' == s[key := Entry(Count(s, key, t) + 1, At(t + rule.limit.window as real))]
  {
  }

  lemma CurrentBucketOk(rule: Rule, s: Store, k: CL.Key, log: seq<real>, t: real, reply: Reply)
    requires 0 < rule.limit.window && !reply.Down?
    requires BucketOk(rule, s, k, log, BucketOf(t, rule.limit.window))
    ensures var (s', within) := RedisCount(s, rule, k, t, reply);
            BucketOk(rule, s', k, if within == Answered(true) then log + [t] else log, BucketOf(t, rule.limit.window))
  {
    var b := BucketOf(t, rule.limit.window);
    RedisCounted(s, rule, k, t, reply);
    CountBucketSnoc(log, t, b, rule.limit.window);
    BucketEnd(t, rule.limit.window);
  }

  lemma OwnBucketOk(rule: Rule, s: Store, k: CL.Key, log: seq<real>, t: real, reply: Reply, b: int)
    requires 0 < rule.limit.window && ':' !in rule.prefix && ':' !in k.0
    requires BucketOk(rule, s, k, log, b)
    ensures var (s', within) := RedisCount(s, rule, k, t, reply);
            BucketOk(rule, s', k, if within == Answered(true) then log + [t] else log, b)
  {
    var b0 := BucketOf(t, rule.limit.window);
    if b0 == b && !reply.Down? {
      CurrentBucketOk(rule, s, k, log, t, reply);
    } else if !reply.Down? {
      CountBucketSnoc(log, t, b, rule.limit.window);
      RedisCounted(s, rule, k, t, reply);
      if RedisKey(rule.prefix, k, b0) == RedisKey(rule.prefix, k, b) {
        RedisKeyInjective(rule.prefix, k, b0, rule.prefix, k, b);
      }
    }
  }

  lemma OtherBucketOk(rule: Rule, s: Store, k: CL.Key, log: seq<real>, b: int,
                      rule': Rule, k': CL.Key, t: real, reply: Reply)
    requires rule.limit.window != 0 && BucketOk(rule, s, k, log, b) && k' != k
    requires ':' !in rule.prefix && ':' !in k.0 && ':' !in rule'.prefix && ':' !in k'.0
    ensures BucketOk(rule, RedisCount(s, rule', k', t, reply).0, k, log, b)
  {
    if rule'.limit.window != 0 {
      var b' := BucketOf(t, rule'.limit.window);
      if RedisKey(rule'.prefix, k', b') == RedisKey(rule.prefix, k, b) {
        RedisKeyInjective(rule'.prefix, k', b', rule.prefix, k, b);
      }
    }
  }

  /** What an event lets through for `k` by way of Redis. */
  function RedisNow(p: Policy, s: System, e: Event, k: CL.Key): seq<real> {
    var o := Step(p, s, e).1;
    if o.Decided? && o.path == ViaRedis then AdmittedAt(o, k) else []
  }

  /** Counting a call of any key keeps what is known of the buckets of `k`. */
  lemma CountKeepsRedisInv(rule: Rule, s: Store, k: CL.Key, log: seq<real>,
                           rule': Rule, k': CL.Key, t: real, reply: Reply)
    requires 0 < rule.limit.window && ':' !in rule.prefix && ':' !in k.0 && ':' !in rule'.prefix && ':' !in k'.0
    requires RedisInv(rule, s, k, log) && (k' == k ==> rule' == rule)
    ensures var (s', within) := RedisCount(s, rule', k', t, reply);
            RedisInv(rule, s', k, if k' == k && within == Answered(true) then log + [t] else log)
  {
    var (s', within) := RedisCount(s, rule', k', t, reply);
    var log' := if k' == k && within == Answered(true) then log + [t] else log;
    forall b
      ensures BucketOk(rule, s', k, log', b)
    {
      assert BucketOk(rule, s, k, log, b);
      if k' == k {
        OwnBucketOk(rule, s, k, log, t, reply, b);
      } else {
        OtherBucketOk(rule, s, k, log, b, rule', k', t, reply);
      }
    }
  }

  /** What a step does to Redis, and what it lets through by way of Redis. */
  lemma StepOnRedis(p: Policy, s: System, e: Event, k: CL.Key)
    ensures e.Lock? ==> Step(p, s, e).0.redis == s.redis && RedisNow(p, s, e, k) == []
    ensures e.Ask? ==>
              var (redis, within) := RedisCount(s.redis, p(e.key), e.key, e.at, e.reply);
              && Step(p, s, e).0.redis == redis
              && RedisNow(p, s, e, k) == if e.key == k && within == Answered(true) then [e.at] else []
  {
  }

  lemma StepKeepsRedisInv(p: Policy, s: System, k: CL.Key, log: seq<real>, e: Event)
    requires 0 < p(k).limit.window && ':' !in p(k).prefix && ':' !in k.0
    requires e.Ask? ==> ':' !in p(e.key).prefix && ':' !in e.key.0
    requires RedisInv(p(k), s.redis, k, log)
    ensures RedisInv(p(k), Step(p, s, e).0.redis, k, log + RedisNow(p, s, e, k))
  {
    StepOnRedis(p, s, e, k);
    assert log + [] == log;
    if e.Ask? { CountKeepsRedisInv(p(k), s.redis, k, log, p(e.key), e.key, e.at, e.reply); }
  }

  lemma PathTimesStep(p: Policy, s: System, events: seq<Event>, k: CL.Key)
    requires events != []
    ensures PathTimes(Outcomes(p, s, events), k, ViaRedis)
         == RedisNow(p, s, events[0], k)
            + PathTimes(Outcomes(p, Step(p, s, events[0]).0, events[1..]), k, ViaRedis)
  {
    var (s', o) := Step(p, s, events[0]);
    assert Outcomes(p, s, events)[1..] == Outcomes(p, s', events[1..]);
  }

  lemma {:induction false} RedisInvAfter(p: Policy, s: System, events: seq<Event>, k: CL.Key, log: seq<real>)
    returns (redis: Store)
    requires ColonFree(p, events) && ':' !in k.0 && ':' !in p(k).prefix && 0 < p(k).limit.window
    requires RedisInv(p(k), s.redis, k, log)
    ensures RedisInv(p(k), redis, k, log + PathTimes(Outcomes(p, s, events), k, ViaRedis))
    decreases events
  {
    if events == [] {
      redis := s.redis;
      assert log + [] == log;
    } else {
      var s' := Step(p, s, events[0]).0;
      var now := RedisNow(p, s, events[0], k);
      StepKeepsRedisInv(p, s, k, log, events[0]);
      ColonFreeTail(p, events);
      redis := RedisInvAfter(p, s', events[1..], k, log + now);
      PathTimesStep(p, s, events, k);
      Regroup(log, now, PathTimes(Outcomes(p, s', events[1..]), k, ViaRedis));
    }
  }

  /** Every bucket lets at most `max` calls of a key through Redis, from all workers, whatever calls fail. */
  lemma BucketBudget(p: Policy, starts: seq<real>, events: seq<Event>, k: CL.Key, b: int)
    requires ColonFree(p, events) && ':' !in k.0 && ':' !in p(k).prefix && 0 < p(k).limit.window
    ensures CountBucket(PathTimes(Outcomes(p, Started(starts), events), k, ViaRedis), b, p(k).limit.window)
         <= AtLeastZero(p(k).limit.max)
  {
    var log := PathTimes(Outcomes(p, Started(starts), events), k, ViaRedis);
    var redis := RedisInvAfter(p, Started(starts), events, k, []);
    assert [] + log == log;
    assert BucketOk(p(k), redis, k, log, b);
  }

  /** A window of zero never lets a call through Redis. */
  lemma {:induction false} ZeroWindowNeverRedis(p: Policy, s: System, events: seq<Event>, k: CL.Key)
    requires p(k).limit.window == 0
    ensures PathTimes(Outcomes(p, s, events), k, ViaRedis) == []
    decreases events
  {
    if events != [] {
      ZeroWindowNeverRedis(p, Step(p, s, events[0]).0, events[1..], k);
      PathTimesStep(p, s, events, k);
    }
  }

  lemma {:induction false} EmptyInterval(log: seq<real>, lo: real, hi: real)
    requires hi < lo
    ensures CountIn(log, lo, hi) == 0
  {
    if log != [] { EmptyInterval(log[..|log| - 1], lo, hi); }
  }

  // ---------------------------------------------------------------- the budget of all workers

  /** Redis let through at most `n` calls of `k` in the bucket. */
  ghost predicate InBucket(os: seq<Outcome>, k: CL.Key, b: int, window: int, n: nat) {
    0 < window ==> CountBucket(PathTimes(os, k, ViaRedis), b, window) <= n
  }

  lemma BucketFilled(p: Policy, starts: seq<real>, events: seq<Event>, k: CL.Key, b: int)
    requires ColonFree(p, events) && ':' !in k.0 && ':' !in p(k).prefix
    ensures InBucket(Outcomes(p, Started(starts), events), k, b, p(k).limit.window, AtLeastZero(p(k).limit.max))
  {
    if 0 < p(k).limit.window { BucketBudget(p, starts, events, k, b); }
  }

  ghost predicate AllBuckets(os: seq<Outcome>, k: CL.Key, window: int, n: nat) {
    forall b :: InBucket(os, k, b, window, n)
  }

  lemma BucketsFilled(p: Policy, starts: seq<real>, events: seq<Event>, k: CL.Key)
    requires ColonFree(p, events) && ':' !in k.0 && ':' !in p(k).prefix
    ensures AllBuckets(Outcomes(p, Started(starts), events), k, p(k).limit.window, AtLeastZero(p(k).limit.max))
  {
    forall b
      ensures InBucket(Outcomes(p, Started(starts), events), k, b, p(k).limit.window, AtLeastZero(p(k).limit.max))
    {
      BucketFilled(p, starts, events, k, b);
    }
  }

  /** Nothing for a window of zero. */
  ghost predicate NoneWithoutWindow(os: seq<Outcome>, k: CL.Key, window: int) {
    window == 0 ==> PathTimes(os, k, ViaRedis) == []
  }

  lemma NoWindow(p: Policy, starts: seq<real>, events: seq<Event>, k: CL.Key)
    ensures NoneWithoutWindow(Outcomes(p, Started(starts), events), k, p(k).limit.window)
  {
    if p(k).limit.window == 0 { ZeroWindowNeverRedis(p, Started(starts), events, k); }
  }

  /** What two buckets allow in a closed window. */
  lemma TwoBucketBudgets(os: seq<Outcome>, k: CL.Key, a: real, window: int, budget: nat)
    requires NoneWithoutWindow(os, k, window) && AllBuckets(os, k, window, budget)
    ensures AtMost(os, k, ViaRedis, a, a + window as real, 2 * budget)
  {
    var log := PathTimes(os, k, ViaRedis);
    if window < 0 {
      EmptyInterval(log, a, a + window as real);
    } else if 0 < window {
      assert InBucket(os, k, BucketOf(a, window), window, budget);
      assert InBucket(os, k, BucketOf(a, window) + 1, window, budget);
      IntervalInTwoBuckets(log, a, window);
    }
  }

  lemma RedisBudget(p: Policy, starts: seq<real>, events: seq<Event>, k: CL.Key, a: real)
    requires ColonFree(p, events) && ':' !in k.0 && ':' !in p(k).prefix
    ensures AtMost(Outcomes(p, Started(starts), events), k, ViaRedis, a, a + p(k).limit.window as real,
                   2 * AtLeastZero(p(k).limit.max))
  {
    NoWindow(p, starts, events, k);
    BucketsFilled(p, starts, events, k);
    TwoBucketBudgets(Outcomes(p, Started(starts), events), k, a, p(k).limit.window, AtLeastZero(p(k).limit.max));
  }

  lemma WorkerWithin(p: Policy, start: real, os: seq<Outcome>, worker: nat, k: CL.Key, a: real)
    requires CL.PruneSafe(p(k).limit) && CL.InOrder(start, MemoryCalls(os, worker))
    requires WorkerTimes(p, CL.Fresh(start), os, worker, k) == PathTimes(os, k, ViaMemory(worker))
    ensures CountIn(PathTimes(os, k, ViaMemory(worker)), a, a + p(k).limit.window as real)
         <= AtLeastZero(p(k).limit.max)
  {
    CL.WindowBudget(Limits(p), start, MemoryCalls(os, worker), k, a);
  }

  lemma WorkerBudget(p: Policy, starts: seq<real>, events: seq<Event>, k: CL.Key, a: real, worker: nat)
    requires CL.PruneSafe(p(k).limit) && LocksInOrder(p, starts, events) && worker < |starts|
    ensures CountIn(PathTimes(Outcomes(p, Started(starts), events), k, ViaMemory(worker)),
                    a, a + p(k).limit.window as real)
         <= AtLeastZero(p(k).limit.max)
  {
    var s := Started(starts);
    assert WorkerInOrder(p, starts, events, worker);
    MemoryPathIsARun(p, s, events, worker, k);
    WorkerWithin(p, starts[worker], Outcomes(p, s, events), worker, k, a);
  }

  lemma OneMore(n: nat, budget: nat)
    ensures (n + 1) * budget == n * budget + budget
  {
  }

  /** `n` budgets, without a multiplication. */
  function Budgets(n: nat, max: nat): nat { if n == 0 then 0 else max + Budgets(n - 1, max) }

  lemma {:induction false} BudgetsIsProduct(n: nat, max: nat)
    ensures Budgets(n, max) == n * max
  {
    if n > 0 {
      BudgetsIsProduct(n - 1, max);
      OneMore(n - 1, max);
    }
  }

  lemma TwoAndMore(n: nat, budget: nat)
    ensures budget + Budgets(n, budget) + budget == (2 + n) * budget
  {
    BudgetsIsProduct(n, budget);
  }

  /** One path lets through at most `n` calls of `k` in [lo, hi]. */
  ghost predicate AtMost(os: seq<Outcome>, k: CL.Key, path: Path, lo: real, hi: real, n: nat) {
    CountIn(PathTimes(os, k, path), lo, hi) <= n
  }

  lemma {:induction false} MemoriesAddUp(os: seq<Outcome>, k: CL.Key, n: nat, lo: real, hi: real, budget: nat)
    requires MemoriesWithin(os, k, n, lo, hi, budget)
    ensures MemorySum(os, k, n, lo, hi) <= Budgets(n, budget)
  {
    if n > 0 {
      MemoriesAddUp(os, k, n - 1, lo, hi, budget);
      assert AtMost(os, k, ViaMemory(n - 1), lo, hi, budget);
    }
  }

  /** All paths together let through at most 2 + n budgets. */
  ghost predicate AtMostInAll(os: seq<Outcome>, k: CL.Key, n: nat, lo: real, hi: real, budget: nat) {
    CountIn(AdmissionTimes(os, k), lo, hi) <= Budgets(2 + n, budget)
  }

  ghost predicate PathsWithin(os: seq<Outcome>, k: CL.Key, n: nat, lo: real, hi: real, budget: nat) {
    && KnownWorkers(os, n) && AtMost(os, k, ViaRedis, lo, hi, 2 * budget)
    && MemoriesWithin(os, k, n, lo, hi, budget)
  }

  ghost predicate MemoriesWithin(os: seq<Outcome>, k: CL.Key, n: nat, lo: real, hi: real, budget: nat) {
    forall w: nat :: w < n ==> AtMost(os, k, ViaMemory(w), lo, hi, budget)
  }

  lemma BudgetsAddUp(os: seq<Outcome>, k: CL.Key, n: nat, lo: real, hi: real, budget: nat)
    ensures PathsWithin(os, k, n, lo, hi, budget) ==> AtMostInAll(os, k, n, lo, hi, budget)
  {
    if PathsWithin(os, k, n, lo, hi, budget) {
      PathsAddUp(os, k, n, lo, hi);
      MemoriesAddUp(os, k, n, lo, hi, budget);
      assert Budgets(2 + n, budget) == budget + Budgets(1 + n, budget) == budget + (budget + Budgets(n, budget));
    }
  }

  /** A run of workers whose locks are in order, with prefixes and scopes that hold no colon. */
  ghost predicate OrderlyRun(p: Policy, starts: seq<real>, events: seq<Event>, k: CL.Key) {
    LocksInOrder(p, starts, events) && ColonFree(p, events) && ':' !in k.0 && ':' !in p(k).prefix
  }

  /** Redis lets two budgets through, and each worker's memory path one. */
  lemma AllPathsWithin(p: Policy, starts: seq<real>, events: seq<Event>, k: CL.Key, a: real)
    requires CL.PruneSafe(p(k).limit)
    ensures OrderlyRun(p, starts, events, k) ==>
              PathsWithin(Outcomes(p, Started(starts), events), k, |starts|, a, a + p(k).limit.window as real,
                          AtLeastZero(p(k).limit.max))
  {
    if OrderlyRun(p, starts, events, k) {
      RedisBudget(p, starts, events, k, a);
      WorkerBudgets(p, starts, events, k, a);
      StartedKnown(p, starts, events);
    }
  }

  lemma AllPathsTogether(p: Policy, starts: seq<real>, events: seq<Event>, k: CL.Key, a: real)
    requires CL.PruneSafe(p(k).limit)
    ensures OrderlyRun(p, starts, events, k) ==>
              AtMostInAll(Outcomes(p, Started(starts), events), k, |starts|, a, a + p(k).limit.window as real,
                          AtLeastZero(p(k).limit.max))
  {
    AllPathsWithin(p, starts, events, k, a);
    BudgetsAddUp(Outcomes(p, Started(starts), events), k, |starts|, a, a + p(k).limit.window as real,
                 AtLeastZero(p(k).limit.max));
  }

  lemma WorkerBudgets(p: Policy, starts: seq<real>, events: seq<Event>, k: CL.Key, a: real)
    requires CL.PruneSafe(p(k).limit) && LocksInOrder(p, starts, events)
    ensures MemoriesWithin(Outcomes(p, Started(starts), events), k, |starts|, a, a + p(k).limit.window as real,
                           AtLeastZero(p(k).limit.max))
  {
    forall w: nat | w < |starts|
      ensures AtMost(Outcomes(p, Started(starts), events), k, ViaMemory(w), a, a + p(k).limit.window as real,
                     AtLeastZero(p(k).limit.max))
    {
      WorkerBudget(p, starts, events, k, a, w);
    }
  }

  /**
   * Whichever calls Redis fails on, before or after counting, and however the calls of the N
   * workers overlap: a closed interval as long as a key's window holds at most 2 + N budgets of
   * it, two buckets and the memory paths. The locks are taken in nondecreasing `now`.
   */
  lemma FailoverBudget(p: Policy, starts: seq<real>, events: seq<Event>, k: CL.Key, a: real)
    requires CL.PruneSafe(p(k).limit) && LocksInOrder(p, starts, events)
    requires ColonFree(p, events) && ':' !in k.0 && ':' !in p(k).prefix
    ensures CountIn(AdmissionTimes(Outcomes(p, Started(starts), events), k), a, a + p(k).limit.window as real)
         <= (2 + |starts|) * AtLeastZero(p(k).limit.max)
  {
    AllPathsTogether(p, starts, events, k, a);
    BudgetsIsProduct(2 + |starts|, AtLeastZero(p(k).limit.max));
  }

  lemma StartedKnown(p: Policy, starts: seq<real>, events: seq<Event>)
    ensures KnownWorkers(Outcomes(p, Started(starts), events), |starts|)
  {
    WorkersKnown(p, Started(starts), events);
  }

  // ---------------------------------------------------------------- the fixed window is exact

  predicate Reaches(p: Policy, e: Event, k: CL.Key, b: int) {
    e.Ask? && e.key == k && !e.reply.Down? && p(k).limit.window != 0 && BucketOf(e.at, p(k).limit.window) == b
  }

  /** How many calls of `k` Redis has counted in bucket `b`, lost replies included. */
  function ReachedCount(p: Policy, events: seq<Event>, k: CL.Key, b: int): nat {
    if events == [] then 0 else (if Reaches(p, events[0], k, b) then 1 else 0) + ReachedCount(p, events[1..], k, b)
  }

  ghost predicate CounterIs(rule: Rule, s: Store, k: CL.Key, b: int, n: nat) {
    var key := RedisKey(rule.prefix, k, b);
    if n == 0 then key !in s
    else key in s && s[key].count == n && s[key].expiry.At? && EndOf(b, rule.limit.window) <= s[key].expiry.time
  }

  lemma CounterCounts(rule: Rule, s: Store, k: CL.Key, t: real, reply: Reply, n: nat)
    requires 0 < rule.limit.window && !reply.Down? && CounterIs(rule, s, k, BucketOf(t, rule.limit.window), n)
    ensures Count(s, RedisKey(rule.prefix, k, BucketOf(t, rule.limit.window)), t) == n
    ensures CounterIs(rule, RedisCount(s, rule, k, t, reply).0, k, BucketOf(t, rule.limit.window), n + 1)
  {
    RedisCounted(s, rule, k, t, reply);
    BucketEnd(t, rule.limit.window);
  }

  lemma CounterStep(p: Policy, s: System, e: Event, k: CL.Key, b: int, n: nat)
    requires 0 < p(k).limit.window && ':' !in p(k).prefix && ':' !in k.0
    requires e.Ask? ==> ':' !in p(e.key).prefix && ':' !in e.key.0
    requires CounterIs(p(k), s.redis, k, b, n)
    ensures CounterIs(p(k), Step(p, s, e).0.redis, k, b, n + if Reaches(p, e, k, b) then 1 else 0)
  {
    if e.Ask? {
      var rule := p(e.key);
      if Reaches(p, e, k, b) {
        CounterCounts(rule, s.redis, k, e.at, e.reply, n);
      } else if rule.limit.window != 0 && !e.reply.Down? {
        var b' := BucketOf(e.at, rule.limit.window);
        if RedisKey(rule.prefix, e.key, b') == RedisKey(p(k).prefix, k, b) {
          RedisKeyInjective(rule.prefix, e.key, b', p(k).prefix, k, b);
        }
      }
    }
  }

  lemma {:induction false} CounterAfter(p: Policy, s: System, events: seq<Event>, k: CL.Key, b: int, n: nat)
    requires 0 < p(k).limit.window && ':' !in p(k).prefix && ':' !in k.0 && ColonFree(p, events)
    requires CounterIs(p(k), s.redis, k, b, n)
    ensures CounterIs(p(k), After(p, s, events).redis, k, b, n + ReachedCount(p, events, k, b))
    decreases events
  {
    if events != [] {
      CounterStep(p, s, events[0], k, b, n);
      ColonFreeTail(p, events);
      CounterAfter(p, Step(p, s, events[0]).0, events[1..], k, b, n + if Reaches(p, events[0], k, b) then 1 else 0);
    }
  }

  /**
   * After any run, a call that Redis answers is admitted exactly when fewer than `max` calls of
   * its key, from all workers, have been counted in the current bucket.
   */
  lemma {:induction false} RedisVerdictExact(p: Policy, starts: seq<real>, events: seq<Event>, e: Event)
    requires e.Ask? && e.reply.Ok? && ColonFree(p, events)
    requires 0 < p(e.key).limit.window && ':' !in p(e.key).prefix && ':' !in e.key.0
    ensures var limit := p(e.key).limit;
            Step(p, After(p, Started(starts), events), e).1
            == Decided(e.key, e.at, ViaRedis,
                       if ReachedCount(p, events, e.key, BucketOf(e.at, limit.window)) < limit.max
                       then CL.Admitted else CL.Refused(limit.window))
  {
    var b := BucketOf(e.at, p(e.key).limit.window);
    CounterAfter(p, Started(starts), events, e.key, b, 0);
    CounterCounts(p(e.key), After(p, Started(starts), events).redis, e.key, e.at, e.reply,
                  ReachedCount(p, events, e.key, b));
  }

  // ---------------------------------------------------------------- the budget is reached

  /** How many calls of `k` a run admits in [0, hi]. */
  function Admitted(p: Policy, s: System, events: seq<Event>, k: CL.Key, hi: real): nat {
    CountIn(AdmissionTimes(Outcomes(p, s, events), k), 0.0, hi)
  }

  lemma AdmittedCons(p: Policy, s: System, e: Event, rest: seq<Event>, k: CL.Key, hi: real)
    ensures Admitted(p, s, [e] + rest, k, hi)
         == CountIn(AdmittedAt(Step(p, s, e).1, k), 0.0, hi) + Admitted(p, Step(p, s, e).0, rest, k, hi)
  {
    var (s', o) := Step(p, s, e);
    assert ([e] + rest)[1..] == rest;
    var os := Outcomes(p, s, [e] + rest);
    assert os[0] == o && os[1..] == Outcomes(p, s', rest);
    CountInAppend(AdmittedAt(o, k), AdmissionTimes(Outcomes(p, s', rest), k), 0.0, hi);
  }

  /** `n` calls that Redis answers at `t`, and then the rest. */
  function AnsweredCalls(k: CL.Key, t: real, n: nat, rest: seq<Event>): seq<Event> {
    if n == 0 then rest else [Ask(0, k, t, t, Ok)] + AnsweredCalls(k, t, n - 1, rest)
  }

  /** `n` calls at 0 that find Redis down, each with its lock section, and then the rest. */
  function UnansweredCalls(k: CL.Key, worker: nat, n: nat, rest: seq<Event>): seq<Event> {
    if n == 0 then rest
    else [Ask(worker, k, 0.0, 0.0, Down)] + ([Lock(0)] + UnansweredCalls(k, worker, n - 1, rest))
  }

  /** The workers from `worker` on find Redis down for a whole budget each. */
  function AllUnanswered(k: CL.Key, max: nat, worker: nat, workers: nat, rest: seq<Event>): seq<Event>
    requires worker <= workers
    decreases workers - worker
  {
    if worker == workers then rest
    else UnansweredCalls(k, worker, max, AllUnanswered(k, max, worker + 1, workers, rest))
  }

  /** A budget through Redis at 0, one through each memory at 0, and one through the next bucket when it begins. */
  function Worst(k: CL.Key, limit: CL.Limit, workers: nat): seq<Event>
    requires 0 <= limit.max
  {
    AnsweredCalls(k, 0.0, limit.max,
                  AllUnanswered(k, limit.max, 0, workers, AnsweredCalls(k, limit.window as real, limit.max, [])))
  }

  lemma OneAnswered(p: Policy, s: System, k: CL.Key, t: real) returns (s': System)
    requires 0 < p(k).limit.window
    requires Count(s.redis, RedisKey(p(k).prefix, k, BucketOf(t, p(k).limit.window)), t) < p(k).limit.max
    ensures var key := RedisKey(p(k).prefix, k, BucketOf(t, p(k).limit.window));
            && Step(p, s, Ask(0, k, t, t, Ok)) == (s', Decided(k, t, ViaRedis, CL.Admitted))
            && s' == s.(redis := s'.redis) && s'.redis.Keys == s.redis.Keys + {key}
            && Count(s'.redis, key, t) == Count(s.redis, key, t) + 1
  {
    s' := Step(p, s, Ask(0, k, t, t, Ok)).0;
    RedisCounted(s.redis, p(k), k, t, Ok);
  }

  lemma {:induction false} AnsweredAdmitted(p: Policy, s: System, k: CL.Key, t: real, n: nat,
                                            rest: seq<Event>, hi: real)
    returns (s': System)
    requires 0 < p(k).limit.window && 0.0 <= t <= hi
    requires Count(s.redis, RedisKey(p(k).prefix, k, BucketOf(t, p(k).limit.window)), t) + n <= p(k).limit.max
    ensures s' == s.(redis := s'.redis)
    ensures s'.redis.Keys <= s.redis.Keys + {RedisKey(p(k).prefix, k, BucketOf(t, p(k).limit.window))}
    ensures Admitted(p, s, AnsweredCalls(k, t, n, rest), k, hi) == n + Admitted(p, s', rest, k, hi)
    decreases n
  {
    if n == 0 {
      s' := s;
    } else {
      var s1 := OneAnswered(p, s, k, t);
      s' := AnsweredAdmitted(p, s1, k, t, n - 1, rest, hi);
      AdmittedCons(p, s, Ask(0, k, t, t, Ok), AnsweredCalls(k, t, n - 1, rest), k, hi);
      OneTime(t, hi);
    }
  }

  lemma OneTime(t: real, hi: real)
    requires 0.0 <= t <= hi
    ensures CountIn([t], 0.0, hi) == 1
  {
    assert [t][..0] == [];
  }

  /** A worker's memory after 0, 1, ..., admissions of `k` at 0. */
  ghost predicate Filling(p: Policy, k: CL.Key, fill: seq<CL.Memory>) {
    && |fill| == AtLeastZero(p(k).limit.max) + 1
    && forall n: nat :: n < |fill| - 1 ==> FillsAt(p, k, fill, n)
  }

  ghost predicate FillsAt(p: Policy, k: CL.Key, fill: seq<CL.Memory>, n: nat)
    requires n + 1 < |fill|
  {
    Fills(p(k).limit, k, fill[n], fill[n + 1])
  }

  predicate Fills(limit: CL.Limit, k: CL.Key, m: CL.Memory, m': CL.Memory) {
    CL.Step(m, k, limit, 0.0) == (m', CL.Admitted)
  }

  lemma FillingExists(p: Policy, k: CL.Key) returns (fill: seq<CL.Memory>)
    requires 0 <= p(k).limit.window
    ensures Filling(p, k, fill) && fill[0] == CL.Fresh(0.0)
  {
    var max := AtLeastZero(p(k).limit.max);
    fill := seq(max + 1, n requires 0 <= n => if n == 0 then CL.Fresh(0.0) else CL.BurstMemory(k, 0.0, n));
    forall n: nat | n < |fill| - 1
      ensures FillsAt(p, k, fill, n)
    {
      if n == 0 { CL.FirstCall(Limits(p), k, 0.0); } else { CL.BurstCall(Limits(p), k, 0.0, n); }
      assert Fills(Limits(p)(k), k, fill[n], fill[n + 1]);
    }
  }

  lemma OneUnanswered(p: Policy, s: System, k: CL.Key, worker: nat, m': CL.Memory) returns (s1: System, s2: System)
    requires worker < |s.workers| && s.waiting == [] && Fills(p(k).limit, k, s.workers[worker], m')
    ensures Step(p, s, Ask(worker, k, 0.0, 0.0, Down)) == (s1, Undecided)
    ensures Step(p, s1, Lock(0)) == (s2, Decided(k, 0.0, ViaMemory(worker), CL.Admitted))
    ensures s2 == s.(workers := s.workers[worker := m'])
  {
    s1 := s.(waiting := [Waiting(worker, k, 0.0)]);
    assert s.waiting + [Waiting(worker, k, 0.0)] == [Waiting(worker, k, 0.0)];
    assert s1.waiting[..0] + s1.waiting[1..] == [];
    s2 := s.(workers := s.workers[worker := m']);
  }

  lemma OneUnansweredAdmitted(p: Policy, s: System, k: CL.Key, worker: nat, m': CL.Memory, rest: seq<Event>, hi: real)
    returns (s': System)
    requires worker < |s.workers| && s.waiting == [] && Fills(p(k).limit, k, s.workers[worker], m') && 0.0 <= hi
    ensures s' == WithMemory(s, worker, m')
    ensures Admitted(p, s, [Ask(worker, k, 0.0, 0.0, Down)] + ([Lock(0)] + rest), k, hi)
         == 1 + Admitted(p, s', rest, k, hi)
  {
    var s1, s2 := OneUnanswered(p, s, k, worker, m');
    s' := s2;
    AdmittedCons(p, s, Ask(worker, k, 0.0, 0.0, Down), [Lock(0)] + rest, k, hi);
    AdmittedCons(p, s1, Lock(0), rest, k, hi);
    OneTime(0.0, hi);
  }

  function WithMemory(s: System, worker: nat, m: CL.Memory): System
    requires worker < |s.workers|
  {
    s.(workers := s.workers[worker := m])
  }

  lemma WithMemoryTwice(s: System, worker: nat, m: CL.Memory, m': CL.Memory)
    requires worker < |s.workers|
    ensures WithMemory(WithMemory(s, worker, m), worker, m') == WithMemory(s, worker, m')
    ensures s.workers[worker] == m ==> WithMemory(s, worker, m) == s
  {
    if s.workers[worker] == m { assert s.workers[worker := m] == s.workers; }
  }

  /** What a worker whose memory is the `done`-th, `n` unanswered calls of it and the rest of a run admit. */
  function UnansweredIn(p: Policy, s: System, k: CL.Key, worker: nat, fill: seq<CL.Memory>, done: nat, n: nat,
                        rest: seq<Event>, hi: real): nat
    requires worker < |s.workers| && done < |fill|
  {
    Admitted(p, WithMemory(s, worker, fill[done]), UnansweredCalls(k, worker, n, rest), k, hi)
  }

  lemma NextUnanswered(p: Policy, s: System, k: CL.Key, worker: nat, fill: seq<CL.Memory>, done: nat, n: nat,
                       rest: seq<Event>, hi: real)
    requires 0 < n && worker < |s.workers| && s.waiting == [] && 0.0 <= hi && Filling(p, k, fill) && done + n < |fill|
    ensures UnansweredIn(p, s, k, worker, fill, done, n, rest, hi)
         == 1 + UnansweredIn(p, s, k, worker, fill, done + 1, n - 1, rest, hi)
  {
    assert FillsAt(p, k, fill, done);
    WithMemoryTwice(s, worker, fill[done], fill[done + 1]);
    var s' := OneUnansweredAdmitted(p, WithMemory(s, worker, fill[done]), k, worker, fill[done + 1],
                                    UnansweredCalls(k, worker, n - 1, rest), hi);
  }

  lemma {:induction false} UnansweredAdmitted(p: Policy, s: System, k: CL.Key, worker: nat, fill: seq<CL.Memory>,
                                              done: nat, n: nat, end: nat, rest: seq<Event>, hi: real)
    requires worker < |s.workers| && s.waiting == [] && 0.0 <= hi && Filling(p, k, fill) && done + n == end < |fill|
    ensures UnansweredIn(p, s, k, worker, fill, done, n, rest, hi)
         == n + UnansweredIn(p, s, k, worker, fill, end, 0, rest, hi)
    decreases n
  {
    if n > 0 {
      UnansweredAdmitted(p, s, k, worker, fill, done + 1, n - 1, end, rest, hi);
      NextUnanswered(p, s, k, worker, fill, done, n, rest, hi);
    }
  }

  /** Nobody waits, and the workers from `n` on have the memory `m`. */
  ghost predicate Untouched(s: System, m: CL.Memory, n: nat) {
    s.waiting == [] && forall w :: n <= w < |s.workers| ==> s.workers[w] == m
  }

  lemma {:induction false} AllUnansweredAdmitted(p: Policy, s: System, k: CL.Key, fill: seq<CL.Memory>, worker: nat,
                                                 max: nat, rest: seq<Event>, hi: real) returns (s': System)
    requires Filling(p, k, fill) && max == p(k).limit.max && 0.0 <= hi
    requires worker <= |s.workers| && Untouched(s, fill[0], worker)
    ensures s'.redis == s.redis
    ensures Admitted(p, s, AllUnanswered(k, max, worker, |s.workers|, rest), k, hi)
         == Budgets(|s.workers| - worker, max) + Admitted(p, s', rest, k, hi)
    decreases |s.workers| - worker
  {
    if worker == |s.workers| {
      s' := s;
    } else {
      var s1 := NextWorkerAdmitted(p, s, k, fill, worker, max, rest, hi);
      s' := AllUnansweredAdmitted(p, s1, k, fill, worker + 1, max, rest, hi);
    }
  }

  lemma NextWorkerAdmitted(p: Policy, s: System, k: CL.Key, fill: seq<CL.Memory>, worker: nat, max: nat,
                           rest: seq<Event>, hi: real) returns (s': System)
    requires Filling(p, k, fill) && max == p(k).limit.max && 0.0 <= hi
    requires worker < |s.workers| && Untouched(s, fill[0], worker)
    ensures s'.redis == s.redis && |s'.workers| == |s.workers| && Untouched(s', fill[0], worker + 1)
    ensures Admitted(p, s, AllUnanswered(k, max, worker, |s.workers|, rest), k, hi)
         == max + Admitted(p, s', AllUnanswered(k, max, worker + 1, |s.workers|, rest), k, hi)
  {
    UnansweredAdmitted(p, s, k, worker, fill, 0, max, max, AllUnanswered(k, max, worker + 1, |s.workers|, rest), hi);
    WithMemoryTwice(s, worker, fill[0], fill[0]);
    s' := WithMemory(s, worker, fill[max]);
  }

  /** A call of `k` that Redis answers, or that reads its clock at 0. */
  predicate AtZero(e: Event, k: CL.Key) { e.Ask? ==> e.key == k && (e.now == 0.0 || e.reply.Ok?) }

  ghost predicate AllAtZero(events: seq<Event>, k: CL.Key) {
    forall i :: 0 <= i < |events| ==> AtZero(events[i], k)
  }

  ghost predicate WaitingAtZero(s: System) {
    forall i :: 0 <= i < |s.waiting| ==> s.waiting[i].now == 0.0
  }

  lemma StepAtZero(p: Policy, s: System, e: Event, k: CL.Key)
    requires WaitingAtZero(s) && AtZero(e, k) && p(k).limit.window != 0
    ensures var (s', o) := Step(p, s, e);
            WaitingAtZero(s') && (o.Decided? && o.path.ViaMemory? ==> o.time == 0.0)
  {
    if e.Lock? && e.call < |s.waiting| && s.waiting[e.call].worker < |s.workers| {
      var i, waiting := e.call, Step(p, s, e).0.waiting;
      assert forall j :: 0 <= j < |waiting| ==> waiting[j] == s.waiting[if j < i then j else j + 1];
    }
  }

  lemma {:induction false} LocksAtZero(p: Policy, s: System, events: seq<Event>, k: CL.Key, worker: nat)
    requires WaitingAtZero(s) && AllAtZero(events, k) && p(k).limit.window != 0
    ensures CL.InOrder(0.0, MemoryCalls(Outcomes(p, s, events), worker))
    decreases events
  {
    if events != [] {
      var (s', o) := Step(p, s, events[0]);
      assert AtZero(events[0], k);
      assert AllAtZero(events[1..], k) by {
        assert forall i :: 0 <= i < |events[1..]| ==> events[1..][i] == events[i + 1];
      }
      StepAtZero(p, s, events[0], k);
      LocksAtZero(p, s', events[1..], k, worker);
      var rest := MemoryCalls(Outcomes(p, s', events[1..]), worker);
      assert Outcomes(p, s, events)[1..] == Outcomes(p, s', events[1..]);
      if o.Decided? && o.path == ViaMemory(worker) {
        assert MemoryCalls(Outcomes(p, s, events), worker) == [CL.Call(o.key, o.time)] + rest;
        assert ([CL.Call(o.key, o.time)] + rest)[1..] == rest;
      } else {
        assert MemoryCalls(Outcomes(p, s, events), worker) == rest;
      }
    }
  }

  lemma AtZeroCons(e: Event, rest: seq<Event>, k: CL.Key)
    requires AtZero(e, k) && AllAtZero(rest, k)
    ensures AllAtZero([e] + rest, k)
  {
  }

  lemma {:induction false} AnsweredAtZero(k: CL.Key, t: real, n: nat, rest: seq<Event>)
    requires AllAtZero(rest, k)
    ensures AllAtZero(AnsweredCalls(k, t, n, rest), k)
    decreases n
  {
    if n > 0 {
      AnsweredAtZero(k, t, n - 1, rest);
      AtZeroCons(Ask(0, k, t, t, Ok), AnsweredCalls(k, t, n - 1, rest), k);
    }
  }

  lemma {:induction false} UnansweredAtZero(k: CL.Key, worker: nat, n: nat, rest: seq<Event>)
    requires AllAtZero(rest, k)
    ensures AllAtZero(UnansweredCalls(k, worker, n, rest), k)
    decreases n
  {
    if n > 0 {
      UnansweredAtZero(k, worker, n - 1, rest);
      AtZeroCons(Lock(0), UnansweredCalls(k, worker, n - 1, rest), k);
      AtZeroCons(Ask(worker, k, 0.0, 0.0, Down), [Lock(0)] + UnansweredCalls(k, worker, n - 1, rest), k);
    }
  }

  lemma {:induction false} AllUnansweredAtZero(k: CL.Key, max: nat, worker: nat, workers: nat, rest: seq<Event>)
    requires worker <= workers && AllAtZero(rest, k)
    ensures AllAtZero(AllUnanswered(k, max, worker, workers, rest), k)
    decreases workers - worker
  {
    if worker < workers {
      AllUnansweredAtZero(k, max, worker + 1, workers, rest);
      UnansweredAtZero(k, worker, max, AllUnanswered(k, max, worker + 1, workers, rest));
    }
  }

  lemma WorstAtZero(k: CL.Key, limit: CL.Limit, workers: nat)
    requires 0 <= limit.max
    ensures AllAtZero(Worst(k, limit, workers), k)
  {
    var last := AnsweredCalls(k, limit.window as real, limit.max, []);
    AnsweredAtZero(k, limit.window as real, limit.max, []);
    AllUnansweredAtZero(k, limit.max, 0, workers, last);
    AnsweredAtZero(k, 0.0, limit.max, AllUnanswered(k, limit.max, 0, workers, last));
  }

  lemma FirstBuckets(window: int)
    requires 0 < window
    ensures BucketOf(0.0, window) == 0 && BucketOf(window as real, window) == 1
  {
    DivIs(0.0, 0.0, window as real);
    DivIs(window as real, 1.0, window as real);
  }

  lemma WorstAdmitted(p: Policy, s: System, k: CL.Key)
    requires 0 <= p(k).limit.max && 0 < p(k).limit.window && ':' !in k.0 && ':' !in p(k).prefix
    requires s.redis == map[] && Untouched(s, CL.Fresh(0.0), 0)
    ensures Admitted(p, s, Worst(k, p(k).limit, |s.workers|), k, p(k).limit.window as real)
         == (2 + |s.workers|) * p(k).limit.max
  {
    var max, w, n := p(k).limit.max, p(k).limit.window as real, |s.workers|;
    var last := AnsweredCalls(k, w, max, []);
    FirstBuckets(p(k).limit.window);
    var s1 := AnsweredAdmitted(p, s, k, 0.0, max, AllUnanswered(k, max, 0, n, last), w);
    var fill := FillingExists(p, k);
    var s2 := AllUnansweredAdmitted(p, s1, k, fill, 0, max, last, w);
    if RedisKey(p(k).prefix, k, 1) == RedisKey(p(k).prefix, k, 0) {
      RedisKeyInjective(p(k).prefix, k, 1, p(k).prefix, k, 0);
    }
    var s3 := AnsweredAdmitted(p, s2, k, w, max, [], w);
    assert Admitted(p, s3, [], k, w) == 0;
    TwoAndMore(n, max);
  }

  /** The bound is reached: by one run, with every lock taken in order, for any number of workers. */
  lemma FailoverBudgetReached(p: Policy, k: CL.Key, workers: nat)
    requires 0 <= p(k).limit.max && 0 < p(k).limit.window && ':' !in k.0 && ':' !in p(k).prefix
    ensures var starts, events := seq(workers, _ => 0.0), Worst(k, p(k).limit, workers);
            && ColonFree(p, events) && LocksInOrder(p, starts, events)
            && CountIn(AdmissionTimes(Outcomes(p, Started(starts), events), k), 0.0, 0.0 + p(k).limit.window as real)
               == (2 + workers) * AtLeastZero(p(k).limit.max)
  {
    var starts, events := seq(workers, _ => 0.0), Worst(k, p(k).limit, workers);
    WorstAtZero(k, p(k).limit, workers);
    forall w | 0 <= w < |starts| ensures WorkerInOrder(p, starts, events, w) {
      LocksAtZero(p, Started(starts), events, k, w);
    }
    assert ColonFree(p, events) by { assert forall i :: 0 <= i < |events| ==> AtZero(events[i], k); }
    WorstAdmitted(p, Started(starts), k);
  }
}
