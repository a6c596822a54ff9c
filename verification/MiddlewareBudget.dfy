/** X-RateLimit-Remaining is the exact number of further requests that will pass. */
module MiddlewareBudget {
  import opened Windows
  import opened RedisCounters
  import opened Middleware
  import opened MiddlewareKeys
  import opened MiddlewareIsolation

  /** The counter exists and has not lapsed at `horizon`. */
  predicate Running(s: Store, key: string, horizon: real) {
    key in s && s[key].expiry.At? && horizon <= s[key].expiry.time
  }

  /** None of the three counters of `w` at endpoint `e` has lapsed at `horizon`. */
  predicate AllRunning(cfg: Config, s: Store, w: Who, e: string, horizon: real) {
    && Running(s, BurstKey(cfg, w), horizon)
    && Running(s, SustainedKey(cfg, w), horizon)
    && Running(s, EpKey(cfg, w, e), horizon)
  }

  function CountOf(s: Store, key: string): nat { if key in s then s[key].count else 0 }

  /** What the tightest of the three windows has left. */
  function Margin(cfg: Config, s: Store, w: Who, e: string): int {
    Min(Min(BurstLimit(cfg, w) - CountOf(s, BurstKey(cfg, w)),
            SustainedLimit(cfg, w) - CountOf(s, SustainedKey(cfg, w))),
        cfg.endpointBurst - CountOf(s, EpKey(cfg, w, e)))
  }

  predicate RedisUp(r: Request) { r.burstReply.Ok? && r.sustainedReply.Ok? && r.endpointReply.Ok? }

  lemma RunningHit(s: Store, key: string, limit: int, window: int, now: real, horizon: real)
    requires Running(s, key, horizon) && now <= horizon
    ensures var (s', hit) := HitStep(s, key, limit, window, now, Ok);
            && s' == s[key := s[key].(count := s[key].count + 1)]
            && hit.Counted? && (hit.allowed <==> CountOf(s, key) < limit)
            && hit.remaining == AtLeastZero(limit - CountOf(s, key) - 1)
  {
  }

  /** A hit on any counter leaves it running, with the count it reports. */
  lemma AnyHit(s: Store, key: string, limit: int, window: int, now: real)
    requires 0 < window
    ensures var (s', hit) := HitStep(s, key, limit, window, now, Ok);
            && hit.Counted? && (hit.allowed <==> CountOf(s', key) <= limit)
            && hit.remaining == AtLeastZero(limit - CountOf(s', key))
            && Running(s', key, now)
  {
  }

  /** One more request while no counter lapses: it passes exactly when there is margin, and uses one of it. */
  lemma OneMore(cfg: Config, s: Store, r: Request, horizon: real)
    requires AllRunning(cfg, s, WhoIs(r), EndpointOf(r), horizon) && r.now <= horizon
    requires RedisUp(r) && !Exempt(cfg, r.path)
    ensures var (s', response) := CheckStep(cfg, s, r);
            var left, left' := Margin(cfg, s, WhoIs(r), EndpointOf(r)), Margin(cfg, s', WhoIs(r), EndpointOf(r));
            && AllRunning(cfg, s', WhoIs(r), EndpointOf(r), horizon)
            && (0 < left ==> response.Allowed? && response.remaining == left - 1 && left' == left - 1)
            && (left <= 0 ==> response.Refused? && left' <= 0)
  {
    var w, e := WhoIs(r), EndpointOf(r);
    FamiliesDisjoint(cfg, w, w, e);
    RunningHit(s, BurstKey(cfg, w), BurstLimit(cfg, w), BURST_WINDOW, r.now, horizon);
    var s1 := HitStep(s, BurstKey(cfg, w), BurstLimit(cfg, w), BURST_WINDOW, r.now, r.burstReply).0;
    RunningHit(s1, SustainedKey(cfg, w), SustainedLimit(cfg, w), SUSTAINED_WINDOW, r.now, horizon);
    var s2 := HitStep(s1, SustainedKey(cfg, w), SustainedLimit(cfg, w), SUSTAINED_WINDOW, r.now, r.sustainedReply).0;
    RunningHit(s2, EpKey(cfg, w, e), cfg.endpointBurst, BURST_WINDOW, r.now, horizon);
  }

  /** A passed request reports the margin it leaves. */
  lemma RemainingIsMargin(cfg: Config, s: Store, r: Request)
    requires CheckStep(cfg, s, r).1.Allowed?
    ensures CheckStep(cfg, s, r).1.remaining == Margin(cfg, CheckStep(cfg, s, r).0, WhoIs(r), EndpointOf(r))
    ensures 0 <= CheckStep(cfg, s, r).1.remaining
  {
    var w, e := WhoIs(r), EndpointOf(r);
    FamiliesDisjoint(cfg, w, w, e);
    AnyHit(s, BurstKey(cfg, w), BurstLimit(cfg, w), BURST_WINDOW, r.now);
    var s1 := HitStep(s, BurstKey(cfg, w), BurstLimit(cfg, w), BURST_WINDOW, r.now, r.burstReply).0;
    AnyHit(s1, SustainedKey(cfg, w), SustainedLimit(cfg, w), SUSTAINED_WINDOW, r.now);
    var s2 := HitStep(s1, SustainedKey(cfg, w), SustainedLimit(cfg, w), SUSTAINED_WINDOW, r.now, r.sustainedReply).0;
    AnyHit(s2, EpKey(cfg, w, e), cfg.endpointBurst, BURST_WINDOW, r.now);
  }

  /** A request that the budget of `w` at `e` speaks about. */
  predicate Counts(cfg: Config, r: Request, w: Who, e: string, horizon: real) {
    WhoIs(r) == w && EndpointOf(r) == e && RedisUp(r) && !Exempt(cfg, r.path) && r.now <= horizon
  }

  /** The first `budget` responses pass, counting down to 0, and all others are refusals. */
  ghost predicate ExactBudget(rs: seq<Response>, budget: int) {
    forall i :: 0 <= i < |rs| ==>
      if i < budget then rs[i].Allowed? && rs[i].remaining == budget - 1 - i else rs[i].Refused?
  }

  lemma ExactBudgetCons(response: Response, rs: seq<Response>, budget: int, budget': int)
    requires ExactBudget(rs, budget')
    requires 0 < budget ==> response.Allowed? && response.remaining == budget - 1 && budget' == budget - 1
    requires budget <= 0 ==> response.Refused? && budget' <= 0
    ensures ExactBudget([response] + rs, budget)
  {
  }

  lemma {:induction false} SoloBudget(cfg: Config, s: Store, reqs: seq<Request>, w: Who, e: string, horizon: real)
    requires AllRunning(cfg, s, w, e, horizon)
    requires forall i :: 0 <= i < |reqs| ==> Counts(cfg, reqs[i], w, e, horizon)
    ensures ExactBudget(Responses(cfg, s, reqs), Margin(cfg, s, w, e))
    decreases reqs
  {
    if reqs != [] {
      var (s', response) := CheckStep(cfg, s, reqs[0]);
      assert Counts(cfg, reqs[0], w, e, horizon);
      OneMore(cfg, s, reqs[0], horizon);
      SoloBudget(cfg, s', reqs[1..], w, e, horizon);
      ExactBudgetCons(response, Responses(cfg, s', reqs[1..]), Margin(cfg, s, w, e), Margin(cfg, s', w, e));
    }
  }

  /** All requests of `w` are to endpoint `e`, not exempt, before the horizon, and find Redis up. */
  ghost predicate OneEndpoint(cfg: Config, reqs: seq<Request>, w: Who, e: string, horizon: real) {
    forall i :: 0 <= i < |reqs| && WhoIs(reqs[i]) == w ==> Counts(cfg, reqs[i], w, e, horizon)
  }

  lemma {:induction false} OnlyCounts(cfg: Config, reqs: seq<Request>, w: Who, e: string, horizon: real)
    requires OneEndpoint(cfg, reqs, w, e, horizon)
    ensures forall i :: 0 <= i < |Only(reqs, w)| ==> Counts(cfg, Only(reqs, w)[i], w, e, horizon)
  {
    if reqs != [] {
      assert forall i :: 0 <= i < |reqs[1..]| ==> reqs[1..][i] == reqs[i + 1];
      OnlyCounts(cfg, reqs[1..], w, e, horizon);
    }
  }

  lemma LaterBudget(cfg: Config, s: Store, later: seq<Request>, w: Who, e: string, horizon: real)
    requires Scoped(w) && ApartFrom(later, w) && AllRunning(cfg, s, w, e, horizon)
    requires OneEndpoint(cfg, later, w, e, horizon)
    ensures ExactBudget(SeenBy(later, Responses(cfg, s, later), w), Margin(cfg, s, w, e))
  {
    Isolation(cfg, s, later, w);
    OnlyCounts(cfg, later, w, e, horizon);
    SoloBudget(cfg, s, Only(later, w), w, e, horizon);
  }

  /**
   * `first` passes with X-RateLimit-Remaining r. Whatever identities apart from it do afterwards, of the
   * further requests its identity makes to the same endpoint, before any of its counters lapses
   * and with Redis up, exactly the first r pass, whichever of the three windows is the tightest.
   */
  lemma {:induction false} AdvertisedBudgetExact(cfg: Config, s: Store, first: Request, s': Store,
                                                 response: Response, later: seq<Request>, horizon: real)
    requires CheckStep(cfg, s, first) == (s', response) && response.Allowed?
    requires ApartFrom(later, WhoIs(first))
    requires AllRunning(cfg, s', WhoIs(first), EndpointOf(first), horizon)
    requires OneEndpoint(cfg, later, WhoIs(first), EndpointOf(first), horizon)
    ensures ExactBudget(SeenBy(later, Responses(cfg, s', later), WhoIs(first)), response.remaining)
  {
    RemainingIsMargin(cfg, s, first);
    LaterBudget(cfg, s', later, WhoIs(first), EndpointOf(first), horizon);
  }

  // ---------------------------------------------------------------- reset and Retry-After

  /** The seconds announced are the counter's remaining life, to the nearest second. */
  ghost predicate Tells(s: Store, key: string, now: real, reset: int) {
    Running(s, key, now) && -0.5 <= reset as real - (s[key].expiry.time - now) <= 0.5
  }

  lemma HitTells(s: Store, key: string, limit: int, window: int, now: real)
    requires 0 < window
    ensures var (s', hit) := HitStep(s, key, limit, window, now, Ok);
            hit.Counted? && Tells(s', key, now, hit.reset)
  {
  }

  /** Which counter refused, by the scope that the headers name. */
  function RefusedKey(cfg: Config, r: Request, scope: string): string {
    if scope == "burst" then BurstKey(cfg, WhoIs(r))
    else if scope == "sustained" then SustainedKey(cfg, WhoIs(r))
    else EpKey(cfg, WhoIs(r), EndpointOf(r))
  }

  /**
   * A refusal names the counter that is over its limit, and its Retry-After is that counter's
   * remaining life; a passed request announces the burst counter's.
   */
  lemma {:induction false} ResetIsTheLapse(cfg: Config, s: Store, r: Request)
    ensures var (s', response) := CheckStep(cfg, s, r);
            match response
            case Bypass => true
            case Allowed(limit, _, reset, scope) =>
              && limit == BurstLimit(cfg, WhoIs(r)) && scope == WhoIs(r).scope
              && Tells(s', BurstKey(cfg, WhoIs(r)), r.now, reset)
            case Refused(scope, limit, reset) =>
              && scope in {"burst", "sustained", "endpoint-burst"}
              && limit == (if scope == "burst" then BurstLimit(cfg, WhoIs(r))
                           else if scope == "sustained" then SustainedLimit(cfg, WhoIs(r)) else cfg.endpointBurst)
              && limit < CountOf(s', RefusedKey(cfg, r, scope))
              && Tells(s', RefusedKey(cfg, r, scope), r.now, reset)
  {
    var w, e := WhoIs(r), EndpointOf(r);
    FamiliesDisjoint(cfg, w, w, e);
    HitTells(s, BurstKey(cfg, w), BurstLimit(cfg, w), BURST_WINDOW, r.now);
    var s1 := HitStep(s, BurstKey(cfg, w), BurstLimit(cfg, w), BURST_WINDOW, r.now, r.burstReply).0;
    HitTells(s1, SustainedKey(cfg, w), SustainedLimit(cfg, w), SUSTAINED_WINDOW, r.now);
    var s2 := HitStep(s1, SustainedKey(cfg, w), SustainedLimit(cfg, w), SUSTAINED_WINDOW, r.now, r.sustainedReply).0;
    HitTells(s2, EpKey(cfg, w, e), cfg.endpointBurst, BURST_WINDOW, r.now);
  }
}
