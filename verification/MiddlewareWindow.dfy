/**
 * How much the middleware limiter lets through in a sliding window. Its counters restart after
 * they lapse, so a closed interval as long as the window can meet two generations of a counter,
 * but neither three nor two whole ones.
 */
module MiddlewareWindow {
  import opened Basics
  import opened Text
  import opened Windows
  import opened RedisCounters
  import opened Endpoints
  import opened Middleware
  import opened MiddlewareKeys
  import opened MiddlewareIsolation
  import opened MiddlewareBudget

  function Lookup(s: Store, key: string): Option<Entry> { if key in s then Some(s[key]) else None }

  /** What a hit makes of its counter. */
  function HitEntry(m: Option<Entry>, window: int, now: real): Entry {
    if m.Some? && m.value.expiry.At? && now <= m.value.expiry.time
    then m.value.(count := m.value.count + 1)
    else Entry(if m.Some? && m.value.expiry.Never? then m.value.count + 1 else 1, At(now + window as real))
  }

  lemma HitIsHitEntry(s: Store, key: string, limit: int, window: int, now: real, reply: Reply)
    requires 0 < window && !reply.Down?
    ensures var (s', hit) := HitStep(s, key, limit, window, now, reply);
            && s' == s[key := HitEntry(Lookup(s, key), window, now)]
            && (reply.Ok? ==> hit.Counted?)
            && (hit.Counted? ==> (hit.allowed <==> HitEntry(Lookup(s, key), window, now).count <= limit))
  {
  }

  // ---------------------------------------------------------------- two generations

  /** Less than one budget, and less than was counted, lies after the hit that started the generation. */
  ghost predicate AfterFirst(log: seq<real>, start: real, limit: int, count: nat) {
    forall x :: start < x ==> CountFrom(log, x) <= AtLeastZero(limit - 1) && CountFrom(log, x) < count
  }

  /**
   * `log` holds times let through under a counter: none after the counter lapses, at most the
   * count and the limit since its generation started, and less than one budget in the window
   * before that.
   */
  ghost predicate Generation(count: nat, start: real, window: int, limit: int, log: seq<real>, clock: real) {
    && start <= clock
    && UpTo(log, start + window as real)
    && CountFrom(log, start) <= count
    && CountFrom(log, start) <= AtLeastZero(limit)
    && AfterFirst(log, start, limit, count)
    && CountFrom(log, start - window as real) <= CountFrom(log, start) + AtLeastZero(limit - 1)
    && Paced(log, window as real, 2 * limit - 1)
  }

  ghost predicate Generations(m: Option<Entry>, window: int, limit: int, log: seq<real>, clock: real) {
    match m
    case None => log == []
    case Some(Entry(_, Never)) => false
    case Some(Entry(count, At(lapse))) => Generation(count, lapse - window as real, window, limit, log, clock)
  }

  /** The first hit of a generation, when nothing let through is as late as `now`. */
  lemma StartKeeps(window: int, limit: int, log: seq<real>, now: real)
    requires 0 < window && forall i :: 0 <= i < |log| ==> log[i] < now
    requires CountFrom(log, now - window as real) <= AtLeastZero(limit - 1)
    requires Paced(log, window as real, 2 * limit - 1)
    ensures Generation(1, now, window, limit, log, now)
    ensures 1 <= limit ==> Generation(1, now, window, limit, log + [now], now)
  {
    forall x | now <= x
      ensures CountFrom(log, x) == 0 && CountFrom(log + [now], x) == if now == x then 1 else 0
    {
      CountFromNone(log, x);
      CountFromSnoc(log, now, x);
    }
    CountFromSnoc(log, now, now - window as real);
    if 1 <= limit { PacedSnoc(log, now, window as real, 2 * limit - 1); }
  }

  /** A later hit of the same generation, not let through. */
  lemma RefusedKeeps(count: nat, start: real, window: int, limit: int, log: seq<real>, clock: real, now: real)
    requires Generation(count, start, window, limit, log, clock) && clock <= now
    ensures Generation(count + 1, start, window, limit, log, now)
  {
    assert forall x :: start < x ==> CountFrom(log, x) < count;
  }

  /** A later hit of the same generation, let through. */
  lemma RunningKeeps(count: nat, start: real, window: int, limit: int, log: seq<real>, clock: real, now: real)
    requires Generation(count, start, window, limit, log, clock) && clock <= now <= start + window as real
    requires count < limit
    ensures Generation(count + 1, start, window, limit, log + [now], now)
  {
    CountFromAntitone(log, start - window as real, now - window as real);
    PacedSnoc(log, now, window as real, 2 * limit - 1);
    CountFromSnoc(log, now, start);
    CountFromSnoc(log, now, start - window as real);
    forall x | start < x
      ensures CountFrom(log + [now], x) <= AtLeastZero(limit - 1) && CountFrom(log + [now], x) < count + 1
    {
      CountFromSnoc(log, now, x);
      assert CountFrom(log, x) < count;
    }
  }

  /** The first hit after a lapse. */
  lemma LapsedKeeps(count: nat, start: real, window: int, limit: int, log: seq<real>, clock: real, now: real)
    requires 0 < window && Generation(count, start, window, limit, log, clock) && start + window as real < now
    ensures Generation(1, now, window, limit, log, now)
    ensures 1 <= limit ==> Generation(1, now, window, limit, log + [now], now)
  {
    assert CountFrom(log, now - window as real) <= AtLeastZero(limit - 1);
    StartKeeps(window, limit, log, now);
  }

  /** A hit keeps the generations, let through or not. */
  lemma HitKeeps(m: Option<Entry>, window: int, limit: int, log: seq<real>, clock: real, now: real)
    requires 0 < window && Generations(m, window, limit, log, clock) && clock <= now
    ensures Generations(Some(HitEntry(m, window, now)), window, limit, log, now)
    ensures HitEntry(m, window, now).count <= limit ==>
              Generations(Some(HitEntry(m, window, now)), window, limit, log + [now], now)
  {
    if m.None? {
      StartKeeps(window, limit, log, now);
    } else {
      var count, start := m.value.count, m.value.expiry.time - window as real;
      if now <= m.value.expiry.time {
        RefusedKeeps(count, start, window, limit, log, clock, now);
        if count < limit { RunningKeeps(count, start, window, limit, log, clock, now); }
      } else {
        LapsedKeeps(count, start, window, limit, log, clock, now);
      }
    }
  }

  // ---------------------------------------------------------------- one counter in a run

  /** Which of an identity's counters. */
  datatype Counter = Burst | Sustained | Endpoint(endpoint: string)

  function KeyOf(cfg: Config, w: Who, c: Counter): string {
    match c
    case Burst => BurstKey(cfg, w)
    case Sustained => SustainedKey(cfg, w)
    case Endpoint(e) => EpKey(cfg, w, e)
  }

  function LimitOf(cfg: Config, w: Who, c: Counter): int {
    match c
    case Burst => BurstLimit(cfg, w)
    case Sustained => SustainedLimit(cfg, w)
    case Endpoint(_) => cfg.endpointBurst
  }

  function WindowOf(c: Counter): (window: int)
    ensures 0 < window
  {
    if c.Sustained? then SUSTAINED_WINDOW else BURST_WINDOW
  }

  predicate Concerns(r: Request, w: Who, c: Counter) {
    WhoIs(r) == w && (c.Endpoint? ==> EndpointOf(r) == c.endpoint)
  }

  /** The limiter does not count on the request: its path is exempt, or Redis fails on it, which fails open. */
  predicate Open(cfg: Config, r: Request) { Exempt(cfg, r.path) || !RedisUp(r) }

  /** When the requests that the counter concerns were let through, by the limits or past them. */
  function LetThroughTimes(reqs: seq<Request>, rs: seq<Response>, w: Who, c: Counter): seq<real>
    requires |rs| == |reqs|
  {
    if reqs == [] then []
    else (if Concerns(reqs[0], w, c) && !rs[0].Refused? then [reqs[0].now] else [])
         + LetThroughTimes(reqs[1..], rs[1..], w, c)
  }

  /** When they passed all three windows. */
  function PassedTimes(reqs: seq<Request>, rs: seq<Response>, w: Who, c: Counter): seq<real>
    requires |rs| == |reqs|
  {
    if reqs == [] then []
    else (if Concerns(reqs[0], w, c) && rs[0].Allowed? then [reqs[0].now] else [])
         + PassedTimes(reqs[1..], rs[1..], w, c)
  }

  /** When those came that the limiter does not count on. */
  function OpenTimes(cfg: Config, reqs: seq<Request>, w: Who, c: Counter): seq<real> {
    if reqs == [] then []
    else (if Concerns(reqs[0], w, c) && Open(cfg, reqs[0]) then [reqs[0].now] else [])
         + OpenTimes(cfg, reqs[1..], w, c)
  }

  ghost predicate InOrder(clock: real, reqs: seq<Request>)
    decreases reqs
  {
    reqs == [] || (clock <= reqs[0].now && InOrder(reqs[0].now, reqs[1..]))
  }

  /** Burst and sustained counters are an identity's own; an endpoint counter is if all others are apart from it. */
  ghost predicate OwnCounter(reqs: seq<Request>, w: Who, c: Counter) {
    Scoped(w) && (c.Endpoint? ==> IsEndpoint(c.endpoint) && ApartFrom(reqs, w))
  }

  /** Requests that a counter does not concern do not touch it. */
  lemma Unconcerned(cfg: Config, s: Store, r: Request, w: Who, c: Counter)
    requires OwnCounter([r], w, c) && !Concerns(r, w, c)
    ensures Lookup(CheckStep(cfg, s, r).0, KeyOf(cfg, w, c)) == Lookup(s, KeyOf(cfg, w, c))
  {
    if c.Endpoint? {
      assert [r][0] == r;
      RequestEndpoint(r);
      if WhoIs(r) != w {
        OthersKeys(cfg, w, r, c.endpoint);
      } else {
        FamiliesDisjoint(cfg, w, w, c.endpoint);
        if EpKey(cfg, w, c.endpoint) == EpKey(cfg, w, EndpointOf(r)) {
          EpKeyInjective(cfg, w, c.endpoint, w, EndpointOf(r));
        }
      }
    } else {
      OwnWindowsUntouched(cfg, r, w);
    }
    CheckFrame(cfg, s, r, KeyOf(cfg, w, c));
  }

  /** A request either leaves a counter of its own alone, or hits it once; if it passes, within the limit. */
  lemma Concerned(cfg: Config, s: Store, r: Request, w: Who, c: Counter)
    requires Concerns(r, w, c)
    ensures var (s', response) := CheckStep(cfg, s, r);
            var m := Lookup(s, KeyOf(cfg, w, c));
            var e := HitEntry(m, WindowOf(c), r.now);
            && (Lookup(s', KeyOf(cfg, w, c)) == m || Lookup(s', KeyOf(cfg, w, c)) == Some(e))
            && (response.Allowed? ==> Lookup(s', KeyOf(cfg, w, c)) == Some(e) && e.count <= LimitOf(cfg, w, c))
  {
    FamiliesDisjoint(cfg, w, w, EndpointOf(r));
    if !r.burstReply.Down? {
      HitIsHitEntry(s, BurstKey(cfg, w), BurstLimit(cfg, w), BURST_WINDOW, r.now, r.burstReply);
    }
    var s1 := HitStep(s, BurstKey(cfg, w), BurstLimit(cfg, w), BURST_WINDOW, r.now, r.burstReply).0;
    if !r.sustainedReply.Down? {
      HitIsHitEntry(s1, SustainedKey(cfg, w), SustainedLimit(cfg, w), SUSTAINED_WINDOW, r.now, r.sustainedReply);
    }
    var s2 := HitStep(s1, SustainedKey(cfg, w), SustainedLimit(cfg, w), SUSTAINED_WINDOW, r.now, r.sustainedReply).0;
    if !r.endpointReply.Down? {
      HitIsHitEntry(s2, EpKey(cfg, w, EndpointOf(r)), cfg.endpointBurst, BURST_WINDOW, r.now, r.endpointReply);
    }
  }

  lemma GenerationsLater(m: Option<Entry>, window: int, limit: int, log: seq<real>, clock: real, now: real)
    requires Generations(m, window, limit, log, clock) && clock <= now
    ensures Generations(m, window, limit, log, now)
  {
  }

  /** The time a request contributes to PassedTimes. */
  function PassedNow(cfg: Config, s: Store, r: Request, w: Who, c: Counter): seq<real> {
    if Concerns(r, w, c) && CheckStep(cfg, s, r).1.Allowed? then [r.now] else []
  }

  lemma RequestKeeps(cfg: Config, s: Store, r: Request, w: Who, c: Counter, log: seq<real>, clock: real)
    returns (s': Store)
    requires OwnCounter([r], w, c) && clock <= r.now
    requires Generations(Lookup(s, KeyOf(cfg, w, c)), WindowOf(c), LimitOf(cfg, w, c), log, clock)
    ensures s' == CheckStep(cfg, s, r).0
    ensures Generations(Lookup(s', KeyOf(cfg, w, c)), WindowOf(c), LimitOf(cfg, w, c),
                        log + PassedNow(cfg, s, r, w, c), r.now)
  {
    s' := CheckStep(cfg, s, r).0;
    GenerationsLater(Lookup(s, KeyOf(cfg, w, c)), WindowOf(c), LimitOf(cfg, w, c), log, clock, r.now);
    assert log + [] == log;
    if Concerns(r, w, c) {
      Concerned(cfg, s, r, w, c);
      HitKeeps(Lookup(s, KeyOf(cfg, w, c)), WindowOf(c), LimitOf(cfg, w, c), log, clock, r.now);
    } else {
      Unconcerned(cfg, s, r, w, c);
    }
  }

  lemma PassedTimesStep(cfg: Config, s: Store, reqs: seq<Request>, w: Who, c: Counter)
    requires reqs != []
    ensures PassedTimes(reqs, Responses(cfg, s, reqs), w, c)
         == PassedNow(cfg, s, reqs[0], w, c)
            + PassedTimes(reqs[1..], Responses(cfg, CheckStep(cfg, s, reqs[0]).0, reqs[1..]), w, c)
  {
  }

  lemma OwnTail(reqs: seq<Request>, w: Who, c: Counter)
    requires reqs != [] && OwnCounter(reqs, w, c)
    ensures OwnCounter([reqs[0]], w, c) && OwnCounter(reqs[1..], w, c)
  {
    if c.Endpoint? { assert forall i :: 0 <= i < |reqs[1..]| ==> reqs[1..][i] == reqs[i + 1]; }
  }

  /** What a run lets through after `log`, from a given store on, keeps the pace. */
  ghost predicate StaysPaced(cfg: Config, s: Store, reqs: seq<Request>, w: Who, c: Counter, log: seq<real>) {
    Paced(log + PassedTimes(reqs, Responses(cfg, s, reqs), w, c), WindowOf(c) as real, 2 * LimitOf(cfg, w, c) - 1)
  }

  lemma PacedFromGenerations(m: Option<Entry>, window: int, limit: int, log: seq<real>, clock: real)
    requires Generations(m, window, limit, log, clock)
    ensures Paced(log + [], window as real, 2 * limit - 1)
  {
    assert log + [] == log;
  }

  lemma NothingMore(cfg: Config, s: Store, w: Who, c: Counter, log: seq<real>, clock: real)
    requires Generations(Lookup(s, KeyOf(cfg, w, c)), WindowOf(c), LimitOf(cfg, w, c), log, clock)
    ensures StaysPaced(cfg, s, [], w, c, log)
  {
    PacedFromGenerations(Lookup(s, KeyOf(cfg, w, c)), WindowOf(c), LimitOf(cfg, w, c), log, clock);
  }

  lemma OneMorePaced(cfg: Config, s: Store, reqs: seq<Request>, w: Who, c: Counter, log: seq<real>)
    requires reqs != []
    requires StaysPaced(cfg, CheckStep(cfg, s, reqs[0]).0, reqs[1..], w, c, log + PassedNow(cfg, s, reqs[0], w, c))
    ensures StaysPaced(cfg, s, reqs, w, c, log)
  {
    var s' := CheckStep(cfg, s, reqs[0]).0;
    PassedTimesStep(cfg, s, reqs, w, c);
    Regroup(log, PassedNow(cfg, s, reqs[0], w, c), PassedTimes(reqs[1..], Responses(cfg, s', reqs[1..]), w, c));
  }

  lemma {:induction false} PassedArePaced(cfg: Config, s: Store, reqs: seq<Request>, w: Who, c: Counter,
                                          log: seq<real>, clock: real)
    requires OwnCounter(reqs, w, c) && InOrder(clock, reqs)
    requires Generations(Lookup(s, KeyOf(cfg, w, c)), WindowOf(c), LimitOf(cfg, w, c), log, clock)
    ensures StaysPaced(cfg, s, reqs, w, c, log)
    decreases reqs
  {
    if reqs == [] {
      NothingMore(cfg, s, w, c, log, clock);
    } else {
      OwnTail(reqs, w, c);
      var s' := RequestKeeps(cfg, s, reqs[0], w, c, log, clock);
      PassedArePaced(cfg, s', reqs[1..], w, c, log + PassedNow(cfg, s, reqs[0], w, c), reqs[0].now);
      OneMorePaced(cfg, s, reqs, w, c, log);
    }
  }

  /** A request that is let through without passing the windows is one the limiter does not count on. */
  lemma OnlyOpenBypass(cfg: Config, s: Store, r: Request)
    ensures CheckStep(cfg, s, r).1.Bypass? ==> Open(cfg, r)
  {
  }

  lemma {:induction false} PassedOrOpen(cfg: Config, s: Store, reqs: seq<Request>, w: Who, c: Counter,
                                        lo: real, hi: real)
    ensures CountIn(LetThroughTimes(reqs, Responses(cfg, s, reqs), w, c), lo, hi)
         <= CountIn(PassedTimes(reqs, Responses(cfg, s, reqs), w, c), lo, hi)
            + CountIn(OpenTimes(cfg, reqs, w, c), lo, hi)
    decreases reqs
  {
    if reqs != [] {
      var r, rest := reqs[0], reqs[1..];
      var (s', response) := CheckStep(cfg, s, r);
      var rs := Responses(cfg, s', rest);
      assert Responses(cfg, s, reqs)[1..] == rs;
      PassedOrOpen(cfg, s', rest, w, c, lo, hi);
      OnlyOpenBypass(cfg, s, r);
      var now := if Concerns(r, w, c) then [r.now] else [];
      CountInAppend(if response.Refused? then [] else now, LetThroughTimes(rest, rs, w, c), lo, hi);
      CountInAppend(if response.Allowed? then now else [], PassedTimes(rest, rs, w, c), lo, hi);
      CountInAppend(if Open(cfg, r) then now else [], OpenTimes(cfg, rest, w, c), lo, hi);
    }
  }

  /**
   * In every run over all identities from an empty Redis, whatever calls fail: of the requests
   * that come in a closed interval of a counter's window, 60 seconds for burst and endpoint and
   * 3600 for sustained, at most 2 * limit - 1 are let through besides those that are exempt or on
   * which Redis fails.
   */
  lemma LetThroughBound(cfg: Config, reqs: seq<Request>, w: Who, c: Counter, start: real, a: real)
    requires OwnCounter(reqs, w, c) && InOrder(start, reqs)
    ensures CountIn(LetThroughTimes(reqs, Responses(cfg, map[], reqs), w, c), a, a + WindowOf(c) as real)
         <= AtLeastZero(2 * LimitOf(cfg, w, c) - 1) + CountIn(OpenTimes(cfg, reqs, w, c), a, a + WindowOf(c) as real)
  {
    var log := PassedTimes(reqs, Responses(cfg, map[], reqs), w, c);
    PassedArePaced(cfg, map[], reqs, w, c, [], start);
    assert [] + log == log;
    PacedBound(log, WindowOf(c) as real, 2 * LimitOf(cfg, w, c) - 1, a);
    PassedOrOpen(cfg, map[], reqs, w, c, a, a + WindowOf(c) as real);
  }

  // ---------------------------------------------------------------- let through without a bound

  function Many(r: Request, n: nat): seq<Request> { if n == 0 then [] else [r] + Many(r, n - 1) }

  lemma LetThroughCons(cfg: Config, s: Store, r: Request, rest: seq<Request>, w: Who, c: Counter)
    ensures LetThroughTimes([r] + rest, Responses(cfg, s, [r] + rest), w, c)
         == (if Concerns(r, w, c) && !CheckStep(cfg, s, r).1.Refused? then [r.now] else [])
            + LetThroughTimes(rest, Responses(cfg, CheckStep(cfg, s, r).0, rest), w, c)
  {
    ResponsesCons(cfg, s, r, rest);
  }

  /** When an identity's requests of a run were let through, from a given store on. */
  function Seen(cfg: Config, s: Store, reqs: seq<Request>, w: Who): seq<real> {
    LetThroughTimes(reqs, Responses(cfg, s, reqs), w, Burst)
  }

  /** While Redis is down, any number of requests is let through at one instant. */
  lemma {:induction false} DownLetsAllThrough(cfg: Config, s: Store, r: Request, n: nat)
    requires r.burstReply.Down?
    ensures Seen(cfg, s, Many(r, n), WhoIs(r)) == Times(r.now, n)
    ensures CountIn(Seen(cfg, s, Many(r, n), WhoIs(r)), r.now, r.now + 60.0) == n
  {
    TimesCount(r.now, n, r.now, r.now + 60.0);
    if n > 0 {
      DownLetsAllThrough(cfg, s, r, n - 1);
      LetThroughCons(cfg, s, r, Many(r, n - 1), WhoIs(r), Burst);
    }
  }

  // ---------------------------------------------------------------- requests that pass

  /** The counters of an identity, and of one endpoint of it, stand at `b`, `m` and `p`. */
  ghost predicate Stand(cfg: Config, s: Store, w: Who, e: string, b: Option<Entry>, m: Option<Entry>,
                        p: Option<Entry>) {
    && Lookup(s, BurstKey(cfg, w)) == b && Lookup(s, SustainedKey(cfg, w)) == m
    && Lookup(s, EpKey(cfg, w, e)) == p
  }

  /** What a request makes of the three counters, when it reaches the last. */
  lemma LastStage(cfg: Config, s: Store, r: Request, b: Option<Entry>, m: Option<Entry>, p: Option<Entry>,
                  b': Entry, m': Entry, p': Entry)
    requires !Open(cfg, r) && Stand(cfg, s, WhoIs(r), EndpointOf(r), b, m, p)
    requires b' == HitEntry(b, BURST_WINDOW, r.now) && m' == HitEntry(m, SUSTAINED_WINDOW, r.now)
    requires p' == HitEntry(p, BURST_WINDOW, r.now)
    requires b'.count <= BurstLimit(cfg, WhoIs(r)) && m'.count <= SustainedLimit(cfg, WhoIs(r))
    ensures var (s', response) := CheckStep(cfg, s, r);
            && Stand(cfg, s', WhoIs(r), EndpointOf(r), Some(b'), Some(m'), Some(p'))
            && (p'.count <= cfg.endpointBurst ==> response.Allowed?)
            && (cfg.endpointBurst < p'.count ==>
                  response == Refused("endpoint-burst", cfg.endpointBurst, (p'.expiry.time - r.now + 0.5).Floor))
  {
    var w, e := WhoIs(r), EndpointOf(r);
    FamiliesDisjoint(cfg, w, w, e);
    HitIsHitEntry(s, BurstKey(cfg, w), BurstLimit(cfg, w), BURST_WINDOW, r.now, Ok);
    var s1 := HitStep(s, BurstKey(cfg, w), BurstLimit(cfg, w), BURST_WINDOW, r.now, Ok).0;
    HitIsHitEntry(s1, SustainedKey(cfg, w), SustainedLimit(cfg, w), SUSTAINED_WINDOW, r.now, Ok);
    var s2 := HitStep(s1, SustainedKey(cfg, w), SustainedLimit(cfg, w), SUSTAINED_WINDOW, r.now, Ok).0;
    HitIsHitEntry(s2, EpKey(cfg, w, e), cfg.endpointBurst, BURST_WINDOW, r.now, Ok);
  }

  // ---------------------------------------------------------------- requests to different endpoints

  /** The identity's `n`-th page, asked for at `t` with Redis up. */
  function Page(r: Request, n: nat, t: real): Request {
    r.(path := ['/'] + NatText(n), now := t, burstReply := Ok, sustainedReply := Ok, endpointReply := Ok)
  }

  function PageKey(cfg: Config, r: Request, n: nat): string {
    EpKey(cfg, WhoIs(r), Upper(r.verb) + [':'] + (['/'] + NatText(n)))
  }

  /** No exempt path goes on with a digit. */
  lemma DigitPath(path: string)
    requires 2 <= |path| && '0' <= path[1] <= '9'
    ensures path !in EXEMPT_PATHS && !("/ws/" <= path)
  {
    assert forall x :: x in EXEMPT_PATHS ==> 'a' <= x[1];
    assert "/ws/"[1] == 'w';
  }

  lemma PagePath(r: Request, n: nat, t: real)
    ensures EndpointOf(Page(r, n, t)) == Upper(r.verb) + [':'] + (['/'] + NatText(n))
    ensures var path := Page(r, n, t).path; 2 <= |path| && '0' <= path[1] <= '9'
  {
    NatTextDigits(n);
    PlainPath(r.verb, [NatText(n)]);
    assert Join([NatText(n)]) == NatText(n);
    assert NatText(n)[0] in NatText(n);
  }

  lemma PageOpen(cfg: Config, r: Request, n: nat, t: real)
    ensures WhoIs(Page(r, n, t)) == WhoIs(r) && EpKey(cfg, WhoIs(r), EndpointOf(Page(r, n, t))) == PageKey(cfg, r, n)
    ensures cfg.enabled ==> !Open(cfg, Page(r, n, t))
  {
    PagePath(r, n, t);
    DigitPath(Page(r, n, t).path);
  }

  lemma PageKeyInjective(cfg: Config, r: Request, i: nat, j: nat)
    requires PageKey(cfg, r, i) == PageKey(cfg, r, j)
    ensures i == j
  {
    var verb := Upper(r.verb) + [':'];
    var a, b := ['/'] + NatText(i), ['/'] + NatText(j);
    EpKeyTails(cfg, WhoIs(r), verb + a, WhoIs(r), verb + b);
    DropPrefix(WhoIs(r).identity, ":60:" + (verb + a), ":60:" + (verb + b));
    DropPrefix(":60:", verb + a, verb + b);
    DropPrefix(verb, a, b);
    DropPrefix(['/'], NatText(i), NatText(j));
    NatTextInjective(i, j);
  }

  /** The identity's counters stand at `b` and `m`, and from page `n` on no page has been asked for. */
  ghost predicate Before(cfg: Config, s: Store, r: Request, n: nat, b: Option<Entry>, m: Option<Entry>) {
    && Lookup(s, BurstKey(cfg, WhoIs(r))) == b && Lookup(s, SustainedKey(cfg, WhoIs(r))) == m
    && forall j: nat :: n <= j ==> PageKey(cfg, r, j) !in s
  }

  /** A request that is the first to its page leaves the later pages alone. */
  lemma LaterPages(cfg: Config, s: Store, r: Request, n: nat, q: Request)
    requires forall j: nat :: n <= j ==> PageKey(cfg, r, j) !in s
    requires WhoIs(q) == WhoIs(r) && EpKey(cfg, WhoIs(r), EndpointOf(q)) == PageKey(cfg, r, n)
    ensures forall j: nat :: n + 1 <= j ==> PageKey(cfg, r, j) !in CheckStep(cfg, s, q).0
  {
    forall j: nat | n + 1 <= j ensures PageKey(cfg, r, j) !in CheckStep(cfg, s, q).0 {
      var key := PageKey(cfg, r, j);
      FamiliesDisjoint(cfg, WhoIs(r), WhoIs(r), Upper(r.verb) + [':'] + (['/'] + NatText(j)));
      if key == PageKey(cfg, r, n) { PageKeyInjective(cfg, r, j, n); }
      CheckFrame(cfg, s, q, key);
    }
  }

  /** A page is asked for, with room in the identity's windows. */
  lemma PagePasses(cfg: Config, s: Store, r: Request, n: nat, t: real, b: Option<Entry>, m: Option<Entry>,
                   b': Entry, m': Entry, rest: seq<Request>) returns (s': Store)
    requires cfg.enabled && 1 <= cfg.endpointBurst && Before(cfg, s, r, n, b, m)
    requires b' == HitEntry(b, BURST_WINDOW, t) && m' == HitEntry(m, SUSTAINED_WINDOW, t)
    requires b'.count <= BurstLimit(cfg, WhoIs(r)) && m'.count <= SustainedLimit(cfg, WhoIs(r))
    ensures Before(cfg, s', r, n + 1, Some(b'), Some(m'))
    ensures Seen(cfg, s, [Page(r, n, t)] + rest, WhoIs(r)) == [t] + Seen(cfg, s', rest, WhoIs(r))
  {
    var q := Page(r, n, t);
    s' := CheckStep(cfg, s, q).0;
    PageOpen(cfg, r, n, t);
    LastStage(cfg, s, q, b, m, None, b', m', HitEntry(None, BURST_WINDOW, t));
    LaterPages(cfg, s, r, n, q);
    LetThroughCons(cfg, s, q, rest, WhoIs(r), Burst);
  }

  /** From page `n` on, one page at each of these times. */
  function Pages(r: Request, n: nat, times: seq<real>): seq<Request>
    decreases times
  {
    if times == [] then [] else [Page(r, n, times[0])] + Pages(r, n + 1, times[1..])
  }

  /** From counters that stand at `b` and `m`, a hit at each of these times stays within the limits. */
  predicate AllFit(cfg: Config, w: Who, b: Option<Entry>, m: Option<Entry>, times: seq<real>)
    decreases times
  {
    times == [] ||
    (var b', m' := HitEntry(b, BURST_WINDOW, times[0]), HitEntry(m, SUSTAINED_WINDOW, times[0]);
     && b'.count <= BurstLimit(cfg, w) && m'.count <= SustainedLimit(cfg, w)
     && AllFit(cfg, w, Some(b'), Some(m'), times[1..]))
  }

  lemma {:induction false} PagesPass(cfg: Config, s: Store, r: Request, n: nat, b: Option<Entry>, m: Option<Entry>,
                                     times: seq<real>)
    requires cfg.enabled && 1 <= cfg.endpointBurst && Before(cfg, s, r, n, b, m) && AllFit(cfg, WhoIs(r), b, m, times)
    ensures Seen(cfg, s, Pages(r, n, times), WhoIs(r)) == times
    decreases times
  {
    if times != [] {
      var b', m' := HitEntry(b, BURST_WINDOW, times[0]), HitEntry(m, SUSTAINED_WINDOW, times[0]);
      var s' := PagePasses(cfg, s, r, n, times[0], b, m, b', m', Pages(r, n + 1, times[1..]));
      PagesPass(cfg, s', r, n + 1, Some(b'), Some(m'), times[1..]);
    }
  }

  function Plus(e: Entry, n: nat): Entry { e.(count := e.count + n) }

  /** `n` more hits at one instant, while both counters run and have room for them. */
  lemma {:induction false} ManyFit(cfg: Config, w: Who, b: Entry, m: Entry, t: real, n: nat, rest: seq<real>)
    requires b.expiry.At? && m.expiry.At? && t <= b.expiry.time && t <= m.expiry.time
    requires b.count + n <= BurstLimit(cfg, w) && m.count + n <= SustainedLimit(cfg, w)
    requires AllFit(cfg, w, Some(Plus(b, n)), Some(Plus(m, n)), rest)
    ensures AllFit(cfg, w, Some(b), Some(m), Times(t, n) + rest)
    decreases n
  {
    if n == 0 {
      assert Times(t, n) + rest == rest;
    } else {
      assert Plus(Plus(b, 1), n - 1) == Plus(b, n) && Plus(Plus(m, 1), n - 1) == Plus(m, n);
      ManyFit(cfg, w, Plus(b, 1), Plus(m, 1), t, n - 1, rest);
      assert (Times(t, n) + rest)[1..] == Times(t, n - 1) + rest;
    }
  }

  lemma {:induction false} PagesOpen(cfg: Config, r: Request, n: nat, times: seq<real>)
    requires cfg.enabled
    ensures OpenTimes(cfg, Pages(r, n, times), WhoIs(r), Burst) == []
    decreases times
  {
    if times != [] {
      PageOpen(cfg, r, n, times[0]);
      PagesOpen(cfg, r, n + 1, times[1..]);
    }
  }

  lemma {:induction false} PagesInOrder(clock: real, r: Request, n: nat, times: seq<real>)
    requires Sorted(times) && (times != [] ==> clock <= times[0])
    ensures InOrder(clock, Pages(r, n, times))
    decreases times
  {
    if times != [] { PagesInOrder(times[0], r, n + 1, times[1..]); }
  }

  // ---------------------------------------------------------------- the bound is reached

  /** How many requests of an identity one generation of its two counters can let through. */
  function Room(cfg: Config, w: Who): int { Min(BurstLimit(cfg, w), SustainedLimit(cfg, w)) }

  /** It starts a burst generation a minute before the hour, past the sustained counter if that is full. */
  function Starter(cfg: Config, r: Request): Request {
    Page(r, 1, 3540.0).(sustainedReply := if Room(cfg, WhoIs(r)) < SustainedLimit(cfg, WhoIs(r)) then Ok else Down)
  }

  /** The rest of a budget before the hour, and a whole one after it. */
  function AroundTheHour(k: nat): seq<real>
    requires 0 < k
  {
    Times(3599.0, k - 1) + ([3601.0] + (Times(3601.0, k - 1) + []))
  }

  /** One request at 0 starts the sustained counter, one at 3540 a burst counter, and both lapse after 3600. */
  function Straddle(cfg: Config, r: Request, k: nat): seq<Request>
    requires 0 < k
  {
    [Page(r, 0, 0.0)] + ([Starter(cfg, r)] + Pages(r, 2, AroundTheHour(k)))
  }

  /** The starter is let through, with a new burst counter; the sustained counter counts it if it has room. */
  lemma StarterPasses(cfg: Config, s: Store, r: Request, rest: seq<Request>) returns (s': Store, m': Entry)
    requires cfg.enabled && 1 <= cfg.endpointBurst && 1 <= Room(cfg, WhoIs(r))
    requires Before(cfg, s, r, 1, Some(Entry(1, At(60.0))), Some(Entry(1, At(3600.0))))
    ensures m' == Entry(if Room(cfg, WhoIs(r)) < SustainedLimit(cfg, WhoIs(r)) then 2 else 1, At(3600.0))
    ensures Before(cfg, s', r, 2, Some(Entry(1, At(3600.0))), Some(m'))
    ensures Seen(cfg, s, [Starter(cfg, r)] + rest, WhoIs(r)) == [3540.0] + Seen(cfg, s', rest, WhoIs(r))
  {
    var w, q := WhoIs(r), Starter(cfg, r);
    var b, m := Some(Entry(1, At(60.0))), Some(Entry(1, At(3600.0)));
    PageOpen(cfg, r, 1, 3540.0);
    if Room(cfg, w) < SustainedLimit(cfg, w) {
      assert q == Page(r, 1, 3540.0);
      m' := Entry(2, At(3600.0));
      s' := PagePasses(cfg, s, r, 1, 3540.0, b, m, Entry(1, At(3600.0)), m', rest);
    } else {
      m' := m.value;
      s' := CheckStep(cfg, s, q).0;
      FamiliesDisjoint(cfg, w, w, EndpointOf(q));
      HitIsHitEntry(s, BurstKey(cfg, w), BurstLimit(cfg, w), BURST_WINDOW, 3540.0, Ok);
      LaterPages(cfg, s, r, 1, q);
      LetThroughCons(cfg, s, q, rest, w, Burst);
    }
  }

  lemma AroundFits(cfg: Config, w: Who, k: nat, m: Entry)
    requires 0 < k == Room(cfg, w)
    requires m == Entry(if Room(cfg, w) < SustainedLimit(cfg, w) then 2 else 1, At(3600.0))
    ensures AllFit(cfg, w, Some(Entry(1, At(3600.0))), Some(m), AroundTheHour(k))
  {
    var b, after := Entry(1, At(3600.0)), Times(3601.0, k - 1) + [];
    var minute, hour := At(3661.0), At(7201.0);
    assert AllFit(cfg, w, Some(Plus(Entry(1, minute), k - 1)), Some(Plus(Entry(1, hour), k - 1)), []);
    ManyFit(cfg, w, Entry(1, minute), Entry(1, hour), 3601.0, k - 1, []);
    assert ([3601.0] + after)[1..] == after;
    assert AllFit(cfg, w, Some(Plus(b, k - 1)), Some(Plus(m, k - 1)), [3601.0] + after);
    ManyFit(cfg, w, b, m, 3599.0, k - 1, [3601.0] + after);
  }

  lemma StraddleSeen(cfg: Config, r: Request, k: nat)
    requires cfg.enabled && 1 <= cfg.endpointBurst && 0 < k == Room(cfg, WhoIs(r))
    ensures Seen(cfg, map[], Straddle(cfg, r, k), WhoIs(r)) == [0.0] + ([3540.0] + AroundTheHour(k))
  {
    var w, times := WhoIs(r), AroundTheHour(k);
    var tail := [Starter(cfg, r)] + Pages(r, 2, times);
    var s1 := PagePasses(cfg, map[], r, 0, 0.0, None, None, Entry(1, At(60.0)), Entry(1, At(3600.0)), tail);
    var s2, m := StarterPasses(cfg, s1, r, Pages(r, 2, times));
    AroundFits(cfg, w, k, m);
    PagesPass(cfg, s2, r, 2, Some(Entry(1, At(3600.0))), Some(m), times);
  }

  lemma StraddleOrder(cfg: Config, r: Request, k: nat)
    requires 0 < k
    ensures InOrder(0.0, Straddle(cfg, r, k))
  {
    var times := AroundTheHour(k);
    PagesInOrder(3540.0, r, 2, times);
    var tail := [Starter(cfg, r)] + Pages(r, 2, times);
    assert tail[1..] == Pages(r, 2, times) && tail[0].now == 3540.0;
    assert Straddle(cfg, r, k)[1..] == tail;
  }

  /** Nothing fails in the interval, and nothing at all if the sustained counter has room for one more. */
  lemma StraddleOpen(cfg: Config, r: Request, k: nat)
    requires cfg.enabled && 0 < k == Room(cfg, WhoIs(r))
    ensures OpenTimes(cfg, Straddle(cfg, r, k), WhoIs(r), Burst)
         == if k < SustainedLimit(cfg, WhoIs(r)) then [] else [3540.0]
  {
    var times := AroundTheHour(k);
    PageOpen(cfg, r, 0, 0.0);
    PageOpen(cfg, r, 1, 3540.0);
    PagesOpen(cfg, r, 2, times);
    var tail := [Starter(cfg, r)] + Pages(r, 2, times);
    assert tail[1..] == Pages(r, 2, times);
    assert Straddle(cfg, r, k)[1..] == tail;
  }

  lemma AroundCount(k: nat)
    requires 0 < k
    ensures CountIn([0.0] + ([3540.0] + AroundTheHour(k)), 3570.0, 3570.0 + 60.0) == 2 * k - 1
  {
    var lo, hi, after := 3570.0, 3570.0 + 60.0, Times(3601.0, k - 1) + [];
    CountInAppend([0.0], [3540.0] + AroundTheHour(k), lo, hi);
    CountInAppend([3540.0], AroundTheHour(k), lo, hi);
    CountInAppend(Times(3599.0, k - 1), [3601.0] + after, lo, hi);
    CountInAppend([3601.0], after, lo, hi);
    CountInAppend(Times(3601.0, k - 1), [], lo, hi);
    TimesCount(3599.0, k - 1, lo, hi);
    TimesCount(3601.0, k - 1, lo, hi);
    assert [0.0][..0] == [] && [3540.0][..0] == [] && [3601.0][..0] == [];
  }

  /**
   * Whatever the limits, requests to different endpoints get 2 * limit - 1 through, for the smaller
   * of burst and sustained limit, strictly inside a closed minute in which Redis fails on none. If
   * the sustained limit is the larger one, Redis fails on none at all.
   */
  lemma BoundReached(cfg: Config, r: Request, limit: nat)
    requires cfg.enabled && 1 <= cfg.endpointBurst && 0 < limit == Room(cfg, WhoIs(r))
    ensures var reqs := Straddle(cfg, r, limit);
            && InOrder(0.0, reqs)
            && CountIn(Seen(cfg, map[], reqs, WhoIs(r)), 3570.0, 3570.0 + 60.0) == 2 * limit - 1
            && CountIn(OpenTimes(cfg, reqs, WhoIs(r), Burst), 3570.0, 3570.0 + 60.0) == 0
            && (limit < SustainedLimit(cfg, WhoIs(r)) ==> OpenTimes(cfg, reqs, WhoIs(r), Burst) == [])
  {
    StraddleOrder(cfg, r, limit);
    StraddleSeen(cfg, r, limit);
    StraddleOpen(cfg, r, limit);
    AroundCount(limit);
    assert [3540.0][..0] == [];
  }

  // ---------------------------------------------------------------- not a sliding window

  /** What a sliding window of the burst limit would guarantee for a run. */
  ghost predicate Slides(cfg: Config, reqs: seq<Request>, w: Who, start: real, a: real) {
    InOrder(start, reqs) ==>
      CountIn(Seen(cfg, map[], reqs, w), a, a + 60.0)
      <= AtLeastZero(BurstLimit(cfg, w)) + CountIn(OpenTimes(cfg, reqs, w, Burst), a, a + 60.0)
  }

  /** Nothing passes a limiter that is off, or one without budget for any endpoint. */
  lemma {:induction false} NonePass(cfg: Config, s: Store, reqs: seq<Request>, w: Who, c: Counter)
    requires !cfg.enabled || cfg.endpointBurst <= 0
    ensures PassedTimes(reqs, Responses(cfg, s, reqs), w, c) == []
    decreases reqs
  {
    if reqs != [] {
      var r := reqs[0];
      Concerned(cfg, s, r, WhoIs(r), Endpoint(EndpointOf(r)));
      NonePass(cfg, CheckStep(cfg, s, r).0, reqs[1..], w, c);
    }
  }

  /** Burst and sustained counter concern the same requests. */
  lemma {:induction false} SameRequests(reqs: seq<Request>, rs: seq<Response>, w: Who)
    requires |rs| == |reqs|
    ensures PassedTimes(reqs, rs, w, Burst) == PassedTimes(reqs, rs, w, Sustained)
  {
    if reqs != [] { SameRequests(reqs[1..], rs[1..], w); }
  }

  lemma {:induction false} CountInWider(log: seq<real>, lo: real, hi: real, hi': real)
    requires hi <= hi'
    ensures CountIn(log, lo, hi) <= CountIn(log, lo, hi')
  {
    if log != [] { CountInWider(log[..|log| - 1], lo, hi, hi'); }
  }

  /** The sustained counter bounds a minute, too. */
  lemma SustainedBound(cfg: Config, reqs: seq<Request>, w: Who, start: real, a: real)
    requires Scoped(w) && InOrder(start, reqs)
    ensures CountIn(PassedTimes(reqs, Responses(cfg, map[], reqs), w, Burst), a, a + 60.0)
         <= AtLeastZero(2 * SustainedLimit(cfg, w) - 1)
  {
    var log := PassedTimes(reqs, Responses(cfg, map[], reqs), w, Sustained);
    PassedArePaced(cfg, map[], reqs, w, Sustained, [], start);
    assert [] + log == log;
    PacedBound(log, 3600.0, 2 * SustainedLimit(cfg, w) - 1, a);
    CountInWider(log, a, a + 60.0, a + 3600.0);
    SameRequests(reqs, Responses(cfg, map[], reqs), w);
  }

  lemma SlidesIf(cfg: Config, reqs: seq<Request>, w: Who, start: real, a: real)
    requires Scoped(w)
    requires !cfg.enabled || cfg.endpointBurst <= 0 || BurstLimit(cfg, w) <= 1
             || 2 * SustainedLimit(cfg, w) - 1 <= BurstLimit(cfg, w)
    ensures Slides(cfg, reqs, w, start, a)
  {
    if InOrder(start, reqs) {
      if !cfg.enabled || cfg.endpointBurst <= 0 {
        NonePass(cfg, map[], reqs, w, Burst);
      } else if BurstLimit(cfg, w) <= 1 {
        LetThroughBound(cfg, reqs, w, Burst, start, a);
      } else {
        SustainedBound(cfg, reqs, w, start, a);
      }
      PassedOrOpen(cfg, map[], reqs, w, Burst, a, a + 60.0);
    }
  }

  lemma DoesNotSlide(cfg: Config, r: Request, limit: nat)
    requires cfg.enabled && 1 <= cfg.endpointBurst && 0 < limit == Room(cfg, WhoIs(r))
    requires BurstLimit(cfg, WhoIs(r)) < 2 * limit - 1
    ensures !Slides(cfg, Straddle(cfg, r, limit), WhoIs(r), 0.0, 3570.0)
  {
    BoundReached(cfg, r, limit);
  }

  /**
   * The documentation calls the counters sliding windows. An identity's burst counter is one in
   * every run if and only if the limiter is off, its limit is at most 1, or another limit makes up
   * for it: twice the sustained limit less one, or an endpoint limit that lets nothing pass.
   */
  lemma SlidingIff(cfg: Config, r: Request)
    ensures var burst, sustained := BurstLimit(cfg, WhoIs(r)), SustainedLimit(cfg, WhoIs(r));
            (!cfg.enabled || cfg.endpointBurst <= 0 || burst <= 1 || 2 * sustained - 1 <= burst)
            <==> forall reqs, start, a :: Slides(cfg, reqs, WhoIs(r), start, a)
  {
    var w := WhoIs(r);
    var burst, sustained := BurstLimit(cfg, w), SustainedLimit(cfg, w);
    if !cfg.enabled || cfg.endpointBurst <= 0 || burst <= 1 || 2 * sustained - 1 <= burst {
      forall reqs, start, a ensures Slides(cfg, reqs, w, start, a) { SlidesIf(cfg, reqs, w, start, a); }
    } else {
      DoesNotSlide(cfg, r, Room(cfg, w));
      assert !Slides(cfg, Straddle(cfg, r, Room(cfg, w)), w, 0.0, 3570.0);
    }
  }
}
