/**
 * The middleware limiter: for every request a burst counter, a sustained counter and a
 * per-endpoint counter in Redis, each anchored at its first hit, asked in this order and
 * stopping at the first refusal.
 */
module Middleware {
  import opened Windows
  import opened RedisCounters
  import opened Endpoints

  const BURST_WINDOW := 60
  const SUSTAINED_WINDOW := 3600

  const EXEMPT_PATHS: set<string> := {
    "/api/v1/health", "/api/v1/health/live", "/api/v1/health/ready", "/api/v1/health/startup",
    "/metrics", "/docs", "/redoc", "/openapi.json", "/favicon.ico"
  }

  datatype Settings = Settings(enabled: bool, perMinute: int, prefix: string,
                               tenantBurst: int, tenantSustained: int, endpointBurst: int)

  datatype Config = Config(enabled: bool, prefix: string, ipBurst: int, ipSustained: int,
                           tenantBurst: int, tenantSustained: int, endpointBurst: int)

  /** A per-minute setting of zero means the default of 60; a negative one disables the limiter. */
  function Configure(s: Settings): (cfg: Config)
    ensures cfg.enabled <==> s.enabled && 0 <= s.perMinute
    ensures s.perMinute == 0 ==> cfg.ipBurst == 60 && cfg.ipSustained == 3600
    ensures s.perMinute != 0 ==> cfg.ipBurst == s.perMinute && cfg.ipSustained == 60 * s.perMinute
    ensures cfg.enabled ==> 0 < cfg.ipBurst <= cfg.ipSustained
    ensures cfg.prefix == s.prefix && cfg.endpointBurst == s.endpointBurst
    ensures cfg.tenantBurst == s.tenantBurst && cfg.tenantSustained == s.tenantSustained
  {
    var perMinute := if s.perMinute == 0 then 60 else s.perMinute;
    Config(s.enabled && perMinute > 0, s.prefix, perMinute, perMinute * 60,
           s.tenantBurst, s.tenantSustained, s.endpointBurst)
  }

  /** `tenant` is empty when no tenant could be read from the bearer token. */
  datatype Request = Request(tenant: string, ip: string, verb: string, path: string, now: real,
                             burstReply: Reply, sustainedReply: Reply, endpointReply: Reply)

  datatype Who = Who(scope: string, identity: string)

  function WhoIs(r: Request): Who {
    if r.tenant != "" then Who("tenant", r.tenant) else Who("ip", r.ip)
  }

  function EndpointOf(r: Request): string { EndpointKey(r.verb, r.path) }

  /** Refused carries the remaining count 0 and a Retry-After equal to `reset`. */
  datatype Response =
    | Bypass
    | Allowed(limit: int, remaining: int, reset: int, scope: string)
    | Refused(scope: string, limit: int, reset: int)

  function BurstLimit(cfg: Config, w: Who): int { if w.scope == "tenant" then cfg.tenantBurst else cfg.ipBurst }

  function SustainedLimit(cfg: Config, w: Who): int {
    if w.scope == "tenant" then cfg.tenantSustained else cfg.ipSustained
  }

  function BurstKey(cfg: Config, w: Who): string {
    cfg.prefix + (":burst:" + (w.scope + ([':'] + (w.identity + ":60"))))
  }

  function SustainedKey(cfg: Config, w: Who): string {
    cfg.prefix + (":sust:" + (w.scope + ([':'] + (w.identity + ":3600"))))
  }

  function EpKey(cfg: Config, w: Who, endpoint: string): string {
    cfg.prefix + (":epburst:" + (w.scope + ([':'] + (w.identity + (":60:" + endpoint)))))
  }

  // ---------------------------------------------------------------- specification

  datatype Hit = Raised | Counted(allowed: bool, remaining: int, reset: int)

  function Min(x: int, y: int): int { if x <= y then x else y }

  /** INCR, EXPIRE NX and TTL in one transaction. */
  function HitStep(s: Store, key: string, limit: int, window: int, now: real, reply: Reply): (Store, Hit) {
    if reply.Down? then (s, Raised)
    else
      var s' := ExpireNx(Incr(s, key, now), key, window, now);
      var count, ttl := Count(s, key, now) + 1, Ttl(s', key, now);
      (s', if reply.Lost? then Raised
           else Counted(count <= limit, AtLeastZero(limit - count), if ttl < 0 then window else ttl))
  }

  predicate Exempt(cfg: Config, path: string) {
    !cfg.enabled || path in EXEMPT_PATHS || "/ws/" <= path
  }

  function EndpointStage(cfg: Config, s: Store, r: Request, burst: Hit, sustained: Hit): (Store, Response)
    requires burst.Counted? && sustained.Counted?
  {
    var w := WhoIs(r);
    var (s', hit) := HitStep(s, EpKey(cfg, w, EndpointOf(r)), cfg.endpointBurst, BURST_WINDOW, r.now, r.endpointReply);
    (s', match hit
         case Raised => Bypass
         case Counted(false, _, reset) => Refused("endpoint-burst", cfg.endpointBurst, reset)
         case Counted(true, remaining, _) =>
           Allowed(BurstLimit(cfg, w), Min(Min(burst.remaining, sustained.remaining), remaining), burst.reset, w.scope))
  }

  function SustainedStage(cfg: Config, s: Store, r: Request, burst: Hit): (Store, Response)
    requires burst.Counted?
  {
    var w := WhoIs(r);
    var (s', hit) :=
      HitStep(s, SustainedKey(cfg, w), SustainedLimit(cfg, w), SUSTAINED_WINDOW, r.now, r.sustainedReply);
    match hit
    case Raised => (s', Bypass)
    case Counted(false, _, reset) => (s', Refused("sustained", SustainedLimit(cfg, w), reset))
    case Counted(true, _, _) => EndpointStage(cfg, s', r, burst, hit)
  }

  function CheckStep(cfg: Config, s: Store, r: Request): (Store, Response) {
    if Exempt(cfg, r.path) then (s, Bypass)
    else
      var w := WhoIs(r);
      var (s', hit) := HitStep(s, BurstKey(cfg, w), BurstLimit(cfg, w), BURST_WINDOW, r.now, r.burstReply);
      match hit
      case Raised => (s', Bypass)
      case Counted(false, _, reset) => (s', Refused("burst", BurstLimit(cfg, w), reset))
      case Counted(true, _, _) => SustainedStage(cfg, s', r, hit)
  }

  // ---------------------------------------------------------------- the limiter itself

  class RateLimiter {
    var redis: Store
    const cfg: Config

    constructor (settings: Settings)
      ensures cfg == Configure(settings) && redis == map[]
    {
      var perMinute := settings.perMinute;
      if perMinute == 0 { perMinute := 60; }
      var enabled := settings.enabled;
      if perMinute <= 0 { enabled := false; }
      cfg := Config(enabled, settings.prefix, perMinute, perMinute * 60,
                    settings.tenantBurst, settings.tenantSustained, settings.endpointBurst);
      redis := map[];
    }

    method Hit(key: string, limit: int, window: int, now: real, reply: Reply) returns (hit: Hit)
      modifies this`redis
      ensures (redis, hit) == HitStep(old(redis), key, limit, window, now, reply)
    {
      if reply.Down? { return Raised; }
      redis := Incr(redis, key, now);
      var count := redis[key].count;
      redis := ExpireNx(redis, key, window, now);
      var ttl := Ttl(redis, key, now);
      if reply.Lost? { return Raised; }
      if ttl < 0 { ttl := window; }
      hit := Counted(count <= limit, AtLeastZero(limit - count), ttl);
    }

    method Check(r: Request) returns (response: Response)
      modifies this`redis
      ensures (redis, response) == CheckStep(cfg, old(redis), r)
    {
      if !cfg.enabled || r.path in EXEMPT_PATHS || "/ws/" <= r.path { return Bypass; }
      var w := WhoIs(r);
      var burst := Hit(BurstKey(cfg, w), BurstLimit(cfg, w), BURST_WINDOW, r.now, r.burstReply);
      if burst.Raised? { return Bypass; }
      if !burst.allowed { return Refused("burst", BurstLimit(cfg, w), burst.reset); }
      var sustained := Hit(SustainedKey(cfg, w), SustainedLimit(cfg, w), SUSTAINED_WINDOW, r.now, r.sustainedReply);
      if sustained.Raised? { return Bypass; }
      if !sustained.allowed { return Refused("sustained", SustainedLimit(cfg, w), sustained.reset); }
      var ep := Hit(EpKey(cfg, w, EndpointOf(r)), cfg.endpointBurst, BURST_WINDOW, r.now, r.endpointReply);
      if ep.Raised? { return Bypass; }
      if !ep.allowed { return Refused("endpoint-burst", cfg.endpointBurst, ep.reset); }
      response := Allowed(BurstLimit(cfg, w), Min(Min(burst.remaining, sustained.remaining), ep.remaining),
                          burst.reset, w.scope);
    }
  }

  // ---------------------------------------------------------------- runs

  function Responses(cfg: Config, s: Store, reqs: seq<Request>): (rs: seq<Response>)
    ensures |rs| == |reqs|
    decreases reqs
  {
    if reqs == [] then []
    else
      var (s', response) := CheckStep(cfg, s, reqs[0]);
      [response] + Responses(cfg, s', reqs[1..])
  }
}
