/**
 * What one check does, spelled out: which requests are counted, under which keys and limits, and
 * what is answered.
 */
module MiddlewareVerdicts {
  import opened Windows
  import opened RedisCounters
  import opened Endpoints
  import opened Middleware
  import opened MiddlewareKeys
  import opened MiddlewareIsolation

  // ---------------------------------------------------------------- who is counted

  /** A path that the limiter leaves alone: one of the nine listed, or a web socket. */
  predicate Spared(path: string) {
    || path in {"/api/v1/health", "/api/v1/health/live", "/api/v1/health/ready", "/api/v1/health/startup",
                "/metrics", "/docs", "/redoc", "/openapi.json", "/favicon.ico"}
    || (4 <= |path| && path[..4] == "/ws/")
  }

  lemma ExemptIsSpared(cfg: Config, path: string)
    ensures Exempt(cfg, path) <==> !cfg.enabled || Spared(path)
  {
    assert "/ws/" <= path <==> 4 <= |path| && path[..4] == "/ws/";
  }

  /** A key is its family with the scope, the identity and the rest. */
  lemma KeyText(prefix: string, family: string, scope: string, identity: string, rest: string, head: string)
    requires family + scope + ":" == head
    ensures prefix + (family + (scope + ([':'] + (identity + rest)))) == prefix + head + identity + rest
  {
    assert family + (scope + ([':'] + (identity + rest))) == family + scope + ":" + identity + rest;
  }

  lemma KeyTexts(cfg: Config, scope: string, identity: string, e: string, b: string, m: string, ep: string)
    requires ":burst:" + scope + ":" == b && ":sust:" + scope + ":" == m && ":epburst:" + scope + ":" == ep
    ensures var w := Who(scope, identity);
            && BurstKey(cfg, w) == cfg.prefix + b + identity + ":60"
            && SustainedKey(cfg, w) == cfg.prefix + m + identity + ":3600"
            && EpKey(cfg, w, e) == cfg.prefix + ep + identity + ":60:" + e
  {
    KeyText(cfg.prefix, ":burst:", scope, identity, ":60", b);
    KeyText(cfg.prefix, ":sust:", scope, identity, ":3600", m);
    KeyText(cfg.prefix, ":epburst:", scope, identity, ":60:" + e, ep);
    assert cfg.prefix + ep + identity + (":60:" + e) == cfg.prefix + ep + identity + ":60:" + e;
  }

  lemma TenantTexts(cfg: Config, identity: string, e: string)
    ensures var w := Who("tenant", identity);
            && BurstKey(cfg, w) == cfg.prefix + ":burst:tenant:" + identity + ":60"
            && SustainedKey(cfg, w) == cfg.prefix + ":sust:tenant:" + identity + ":3600"
            && EpKey(cfg, w, e) == cfg.prefix + ":epburst:tenant:" + identity + ":60:" + e
  {
    KeyTexts(cfg, "tenant", identity, e, ":burst:tenant:", ":sust:tenant:", ":epburst:tenant:");
  }

  lemma AddressTexts(cfg: Config, identity: string, e: string)
    ensures var w := Who("ip", identity);
            && BurstKey(cfg, w) == cfg.prefix + ":burst:ip:" + identity + ":60"
            && SustainedKey(cfg, w) == cfg.prefix + ":sust:ip:" + identity + ":3600"
            && EpKey(cfg, w, e) == cfg.prefix + ":epburst:ip:" + identity + ":60:" + e
  {
    KeyTexts(cfg, "ip", identity, e, ":burst:ip:", ":sust:ip:", ":epburst:ip:");
  }

  // ---------------------------------------------------------------- one counter

  /** A hit counts one more under its key, and a counter without a running time to live gets a new one. */
  ghost predicate CountedOnce(s: Store, s': Store, key: string, window: real, now: real) {
    && key in s' && s'[key].count == Count(s, key, now) + 1
    && s'[key].expiry == if Live(s, key, now) && s[key].expiry.At? then s[key].expiry else At(now + window)
  }

  /** A hit that is answered. */
  lemma HitCounts(s: Store, key: string, limit: int, window: int, now: real)
    requires 0 < window
    ensures var (s', hit) := HitStep(s, key, limit, window, now, Ok);
            && CountedOnce(s, s', key, window as real, now)
            && hit.Counted? && (hit.allowed <==> s'[key].count <= limit)
            && hit.remaining == AtLeastZero(limit - s'[key].count)
            && hit.reset == (s'[key].expiry.time - now + 0.5).Floor
  {
  }

  lemma CountedOnceChanges(s: Store, s': Store, key: string, window: real, now: real)
    requires CountedOnce(s, s', key, window, now) && 0.0 < window
    ensures s' != s
  {
  }

  // ---------------------------------------------------------------- the three counters

  /** The three keys of a request are different. */
  lemma KeysDiffer(cfg: Config, r: Request)
    ensures var w := WhoIs(r);
            && BurstKey(cfg, w) != SustainedKey(cfg, w) && BurstKey(cfg, w) != EpKey(cfg, w, EndpointOf(r))
            && SustainedKey(cfg, w) != EpKey(cfg, w, EndpointOf(r))
  {
    FamiliesDisjoint(cfg, WhoIs(r), WhoIs(r), EndpointOf(r));
  }

  /** What the first `reached` counters of a check count, when all pipelines are answered. */
  ghost predicate Reaches(s: Store, s': Store, b: string, m: string, e: string, now: real, reached: nat) {
    && CountedOnce(s, s', b, 60.0, now)
    && (if 2 <= reached then CountedOnce(s, s', m, 3600.0, now) else Same(s, s', m))
    && (if 3 <= reached then CountedOnce(s, s', e, 60.0, now) else Same(s, s', e))
    && forall other :: other !in {b, m, e} ==> Same(s, s', other)
  }

  /** The counts that a check finds decide how far it goes and what it answers. */
  ghost predicate Answers(cfg: Config, s: Store, s': Store, r: Request, response: Response,
                          b: string, m: string, e: string, burst: int, sustained: int, scope: string) {
    var first, second, third := Count(s, b, r.now) + 1, Count(s, m, r.now) + 1, Count(s, e, r.now) + 1;
    if burst < first then
      Reaches(s, s', b, m, e, r.now, 1) && response.Refused? && response.scope == "burst" && response.limit == burst
    else if sustained < second then
      Reaches(s, s', b, m, e, r.now, 2) && response.Refused? && response.scope == "sustained"
      && response.limit == sustained
    else if cfg.endpointBurst < third then
      Reaches(s, s', b, m, e, r.now, 3) && response.Refused? && response.scope == "endpoint-burst"
      && response.limit == cfg.endpointBurst
    else
      Reaches(s, s', b, m, e, r.now, 3) && response.Allowed? && response.limit == burst && response.scope == scope
      && response.remaining == Min(Min(burst - first, sustained - second), cfg.endpointBurst - third)
  }

  /** One pipeline: it counts under its key, and touches no other. */
  lemma OneHit(s: Store, key: string, limit: int, window: int, now: real)
    requires 0 < window
    ensures var (s', hit) := HitStep(s, key, limit, window, now, Ok);
            && CountedOnce(s, s', key, window as real, now)
            && (forall other :: other != key ==> Same(s, s', other))
            && hit.Counted? && (hit.allowed <==> Count(s, key, now) + 1 <= limit)
            && hit.remaining == AtLeastZero(limit - (Count(s, key, now) + 1))
  {
    HitCounts(s, key, limit, window, now);
    forall other | other != key ensures Same(s, HitStep(s, key, limit, window, now, Ok).0, other) {
      HitFrame(s, key, limit, window, now, Ok, other);
    }
  }

  /** Only the counter of `key` has been touched, and once. */
  ghost predicate HitOnly(s: Store, s': Store, key: string, window: real, now: real) {
    CountedOnce(s, s', key, window, now) && forall other :: other != key ==> Same(s, s', other)
  }

  /** Three counters hit one after another. */
  lemma ThreeHits(s: Store, s1: Store, s2: Store, s3: Store, b: string, m: string, e: string, now: real)
    requires b != m && b != e && m != e
    requires HitOnly(s, s1, b, 60.0, now) && HitOnly(s1, s2, m, 3600.0, now) && HitOnly(s2, s3, e, 60.0, now)
    ensures Reaches(s, s1, b, m, e, now, 1) && Reaches(s, s2, b, m, e, now, 2) && Reaches(s, s3, b, m, e, now, 3)
    ensures Count(s1, m, now) == Count(s, m, now) && Count(s2, e, now) == Count(s, e, now)
  {
    assert Same(s, s1, m) && Same(s, s1, e) && Same(s1, s2, b) && Same(s1, s2, e) && Same(s2, s3, b) && Same(s2, s3, m);
    forall other | other !in {b, m, e} ensures Same(s, s1, other) && Same(s, s2, other) && Same(s, s3, other) {
      assert Same(s, s1, other) && Same(s1, s2, other) && Same(s2, s3, other);
    }
  }

  /** All three pipelines are answered. */
  lemma AllCounted(cfg: Config, s: Store, r: Request)
    requires !Exempt(cfg, r.path) && r.burstReply.Ok? && r.sustainedReply.Ok? && r.endpointReply.Ok?
    ensures var w := WhoIs(r);
            Answers(cfg, s, CheckStep(cfg, s, r).0, r, CheckStep(cfg, s, r).1, BurstKey(cfg, w), SustainedKey(cfg, w),
                    EpKey(cfg, w, EndpointOf(r)), BurstLimit(cfg, w), SustainedLimit(cfg, w), w.scope)
  {
    var w, now := WhoIs(r), r.now;
    var b, m, e := BurstKey(cfg, w), SustainedKey(cfg, w), EpKey(cfg, w, EndpointOf(r));
    KeysDiffer(cfg, r);
    OneHit(s, b, BurstLimit(cfg, w), 60, now);
    var s1 := HitStep(s, b, BurstLimit(cfg, w), 60, now, Ok).0;
    OneHit(s1, m, SustainedLimit(cfg, w), 3600, now);
    var s2 := HitStep(s1, m, SustainedLimit(cfg, w), 3600, now, Ok).0;
    OneHit(s2, e, cfg.endpointBurst, 60, now);
    var s3 := HitStep(s2, e, cfg.endpointBurst, 60, now, Ok).0;
    ThreeHits(s, s1, s2, s3, b, m, e, now);
  }

  /**
   * A check with the limiter on, of a path that is not spared, with Redis up: the identity is the
   * tenant of the bearer token, or the address without one. It is counted in the 60-second counter;
   * over the tenant's (address's) burst limit that is all, and it is refused. Otherwise it is
   * counted in the 3600-second counter, and likewise refused or counted in the endpoint's. No other
   * key is touched.
   */
  lemma CheckSpelledOut(cfg: Config, s: Store, r: Request)
    requires cfg.enabled && r.burstReply.Ok? && r.sustainedReply.Ok? && r.endpointReply.Ok?
    requires r.path !in {"/api/v1/health", "/api/v1/health/live", "/api/v1/health/ready", "/api/v1/health/startup",
                         "/metrics", "/docs", "/redoc", "/openapi.json", "/favicon.ico"}
    requires |r.path| < 4 || r.path[..4] != "/ws/"
    ensures var (s', response) := CheckStep(cfg, s, r);
            if r.tenant != "" then
              Answers(cfg, s, s', r, response, cfg.prefix + ":burst:tenant:" + r.tenant + ":60",
                      cfg.prefix + ":sust:tenant:" + r.tenant + ":3600",
                      cfg.prefix + ":epburst:tenant:" + r.tenant + ":60:" + EndpointKey(r.verb, r.path),
                      cfg.tenantBurst, cfg.tenantSustained, "tenant")
            else
              Answers(cfg, s, s', r, response, cfg.prefix + ":burst:ip:" + r.ip + ":60",
                      cfg.prefix + ":sust:ip:" + r.ip + ":3600",
                      cfg.prefix + ":epburst:ip:" + r.ip + ":60:" + EndpointKey(r.verb, r.path),
                      cfg.ipBurst, cfg.ipSustained, "ip")
  {
    ExemptIsSpared(cfg, r.path);
    AllCounted(cfg, s, r);
    if r.tenant != "" { TenantTexts(cfg, r.tenant, EndpointKey(r.verb, r.path)); }
    else { AddressTexts(cfg, r.ip, EndpointKey(r.verb, r.path)); }
  }

  /** While Redis answers, a request leaves all counters alone exactly if its path is spared or the limiter is off. */
  lemma UncountedIff(cfg: Config, s: Store, r: Request)
    requires r.burstReply.Ok? && r.sustainedReply.Ok? && r.endpointReply.Ok?
    ensures var uncounted :=
              || !cfg.enabled
              || r.path in {"/api/v1/health", "/api/v1/health/live", "/api/v1/health/ready", "/api/v1/health/startup",
                            "/metrics", "/docs", "/redoc", "/openapi.json", "/favicon.ico"}
              || (4 <= |r.path| && r.path[..4] == "/ws/");
            && (CheckStep(cfg, s, r).0 == s <==> uncounted)
            && (CheckStep(cfg, s, r).1 == Bypass <==> uncounted)
  {
    ExemptIsSpared(cfg, r.path);
    if !Exempt(cfg, r.path) {
      AllCounted(cfg, s, r);
      CountedOnceChanges(s, CheckStep(cfg, s, r).0, BurstKey(cfg, WhoIs(r)), 60.0, r.now);
    }
  }

  /** A burst pipeline that was executed counts, even if its reply was lost; the check stops there all the same. */
  lemma LostStillCounts(cfg: Config, s: Store, r: Request)
    ensures r.burstReply.Lost? ==>
              CheckStep(cfg, s, r).0 == CheckStep(cfg, s, r.(burstReply := Ok, sustainedReply := Down)).0
    ensures r.burstReply.Down? ==> CheckStep(cfg, s, r).0 == s
  {
  }

  /** And likewise a sustained one, */
  lemma LostSustainedCounts(cfg: Config, s: Store, r: Request)
    requires r.sustainedReply.Lost?
    ensures CheckStep(cfg, s, r).0 == CheckStep(cfg, s, r.(sustainedReply := Ok, endpointReply := Down)).0
  {
  }

  /** and one of an endpoint. */
  lemma LostEndpointCounts(cfg: Config, s: Store, r: Request)
    requires r.endpointReply.Lost?
    ensures CheckStep(cfg, s, r).0 == CheckStep(cfg, s, r.(endpointReply := Ok)).0
  {
  }

  /** A pipeline that raises lets the request through without a verdict of its stage or a later one. */
  lemma RaisedLetsThrough(cfg: Config, s: Store, r: Request)
    ensures var response := CheckStep(cfg, s, r).1;
            && (!r.burstReply.Ok? ==> response == Bypass)
            && (!r.sustainedReply.Ok? ==> response == Bypass || (response.Refused? && response.scope == "burst"))
            && (!r.endpointReply.Ok? ==>
                  response == Bypass || (response.Refused? && response.scope in {"burst", "sustained"}))
  {
  }
}
