/**
 * Identities that are not apart share an endpoint counter: what one of them gets depends on the
 * requests of the other.
 */
module MiddlewareSharing {
  import opened Basics
  import opened Windows
  import opened RedisCounters
  import opened Endpoints
  import opened Middleware
  import opened MiddlewareKeys
  import opened MiddlewareIsolation
  import opened MiddlewareWindow

  // ---------------------------------------------------------------- many requests at one instant

  /** A counter that has counted so much, and lapses then. */
  function Counting(count: nat, lapse: real): Option<Entry> {
    if count == 0 then None else Some(Entry(count, At(lapse)))
  }

  /** At instant `t` the identity has made `own` requests, and its endpoint counter has counted `shared`. */
  ghost predicate After(cfg: Config, s: Store, w: Who, e: string, t: real, own: nat, shared: nat) {
    Stand(cfg, s, w, e, Counting(own, t + 60.0), Counting(own, t + 3600.0), Counting(shared, t + 60.0))
  }

  /** Nothing that another identity does touches an identity's own windows. */
  ghost predicate OwnUntouched(cfg: Config, s: Store, s': Store, w: Who) {
    Lookup(s', BurstKey(cfg, w)) == Lookup(s, BurstKey(cfg, w))
    && Lookup(s', SustainedKey(cfg, w)) == Lookup(s, SustainedKey(cfg, w))
  }

  lemma OthersUntouched(cfg: Config, s: Store, r: Request, v: Who)
    requires Scoped(v) && v != WhoIs(r)
    ensures OwnUntouched(cfg, s, CheckStep(cfg, s, r).0, v)
  {
    OwnWindowsUntouched(cfg, r, v);
    CheckFrame(cfg, s, r, BurstKey(cfg, v));
    CheckFrame(cfg, s, r, SustainedKey(cfg, v));
  }

  /** What a request is answered that finds so much counted at its endpoint. */
  ghost predicate Verdict(cfg: Config, response: Response, shared: nat) {
    if shared < cfg.endpointBurst then response.Allowed?
    else response == Refused("endpoint-burst", cfg.endpointBurst, 60)
  }

  /** One request that reaches its endpoint counter. */
  lemma OneReaches(cfg: Config, s: Store, r: Request, w: Who, e: string, own: nat, shared: nat)
    requires !Open(cfg, r) && w == WhoIs(r) && e == EndpointOf(r) && After(cfg, s, w, e, r.now, own, shared)
    requires own < Room(cfg, w)
    ensures After(cfg, CheckStep(cfg, s, r).0, w, e, r.now, own + 1, shared + 1)
    ensures Verdict(cfg, CheckStep(cfg, s, r).1, shared)
  {
    var t := r.now;
    LastStage(cfg, s, r, Counting(own, t + 60.0), Counting(own, t + 3600.0), Counting(shared, t + 60.0),
              Entry(own + 1, At(t + 60.0)), Entry(own + 1, At(t + 3600.0)), Entry(shared + 1, At(t + 60.0)));
  }

  /** The same, at the head of a run. */
  lemma HeadReaches(cfg: Config, s: Store, r: Request, w: Who, e: string, own: nat, shared: nat, v: Who,
                    rest: seq<Request>) returns (s': Store, response: Response)
    requires !Open(cfg, r) && w == WhoIs(r) && e == EndpointOf(r) && After(cfg, s, w, e, r.now, own, shared)
    requires own < Room(cfg, w) && Scoped(v)
    ensures After(cfg, s', w, e, r.now, own + 1, shared + 1) && Verdict(cfg, response, shared)
    ensures v != w ==> OwnUntouched(cfg, s, s', v)
    ensures Responses(cfg, s, [r] + rest) == [response] + Responses(cfg, s', rest)
  {
    OneReaches(cfg, s, r, w, e, own, shared);
    if v != w { OthersUntouched(cfg, s, r, v); }
    ResponsesCons(cfg, s, r, rest);
    s', response := CheckStep(cfg, s, r).0, CheckStep(cfg, s, r).1;
  }

  ghost predicate AllAllowed(rs: seq<Response>, n: nat) {
    n <= |rs| && forall i :: 0 <= i < n ==> rs[i].Allowed?
  }

  lemma AppendCons(r: Request, n: nat, rest: seq<Request>)
    requires 0 < n
    ensures Many(r, n) + rest == [r] + (Many(r, n - 1) + rest)
  {
  }

  lemma AllowedCons(response: Response, rs: seq<Response>, n: nat, tail: seq<Response>)
    requires response.Allowed? && |rs| == n && AllAllowed(rs, n)
    ensures AllAllowed([response] + rs, n + 1) && [response] + (rs + tail) == ([response] + rs) + tail
  {
  }

  /** At the head of a run, as many requests as there is budget for all pass. */
  lemma {:induction false} ManyPass(cfg: Config, s: Store, r: Request, w: Who, e: string, own: nat, shared: nat,
                                    own': nat, shared': nat, n: nat, v: Who, rest: seq<Request>)
    returns (s': Store, rs: seq<Response>)
    requires !Open(cfg, r) && w == WhoIs(r) && e == EndpointOf(r) && After(cfg, s, w, e, r.now, own, shared)
    requires own' == own + n <= Room(cfg, w) && shared' == shared + n <= cfg.endpointBurst && Scoped(v)
    ensures After(cfg, s', w, e, r.now, own', shared')
    ensures v != w ==> OwnUntouched(cfg, s, s', v)
    ensures |rs| == n && AllAllowed(rs, n)
    ensures Responses(cfg, s, Many(r, n) + rest) == rs + Responses(cfg, s', rest)
    decreases n
  {
    if n == 0 {
      s', rs := s, [];
      assert Many(r, n) + rest == rest;
    } else {
      AppendCons(r, n, rest);
      var s1, response := HeadReaches(cfg, s, r, w, e, own, shared, v, Many(r, n - 1) + rest);
      s', rs := ManyPass(cfg, s1, r, w, e, own + 1, shared + 1, own', shared', n - 1, v, rest);
      AllowedCons(response, rs, n - 1, Responses(cfg, s', rest));
      rs := [response] + rs;
    }
  }

  /** What an identity sees of a run that others begin. */
  lemma {:induction false} OthersFirst(other: Request, n: nat, rest: seq<Request>, rs: seq<Response>,
                                       rs': seq<Response>, w: Who)
    requires WhoIs(other) != w && |rs| == n && |rs'| == |rest|
    ensures Only(Many(other, n) + rest, w) == Only(rest, w)
    ensures |Many(other, n)| == n && SeenBy(Many(other, n) + rest, rs + rs', w) == SeenBy(rest, rs', w)
    decreases n
  {
    if n == 0 {
      assert Many(other, n) + rest == rest && rs + rs' == rs';
    } else {
      OthersFirst(other, n - 1, rest, rs[1..], rs', w);
      AppendCons(other, n, rest);
      assert rs + rs' == [rs[0]] + (rs[1..] + rs');
      SeenByCons(other, Many(other, n - 1) + rest, rs[0], rs[1..] + rs', w);
      assert ([other] + (Many(other, n - 1) + rest))[1..] == Many(other, n - 1) + rest;
    }
  }

  lemma {:induction false} AllOwn(reqs: seq<Request>, rs: seq<Response>, w: Who)
    requires |rs| == |reqs| && forall i :: 0 <= i < |reqs| ==> WhoIs(reqs[i]) == w
    ensures Only(reqs, w) == reqs && SeenBy(reqs, rs, w) == rs
  {
    if reqs != [] {
      assert forall i :: 0 <= i < |reqs[1..]| ==> reqs[1..][i] == reqs[i + 1];
      AllOwn(reqs[1..], rs[1..], w);
      assert reqs == [reqs[0]] + reqs[1..] && rs == [rs[0]] + rs[1..];
    }
  }

  lemma {:induction false} ManyOwn(r: Request, n: nat)
    ensures |Many(r, n)| == n && forall i :: 0 <= i < n ==> Many(r, n)[i] == r
  {
    if n > 0 { ManyOwn(r, n - 1); }
  }

  // ---------------------------------------------------------------- a shared counter

  /** Requests of one identity, then `y` and one more of another. */
  function Crowd(other: Request, x: nat, r: Request, y: nat): seq<Request> { Many(other, x) + (Many(r, y) + [r]) }

  /** `n` responses that pass, and a last one after `shared` requests to the endpoint. */
  ghost predicate Ends(cfg: Config, rs: seq<Response>, n: nat, shared: nat) {
    |rs| == n + 1 && AllAllowed(rs, n) && Verdict(cfg, rs[n], shared)
  }

  lemma LastEnds(cfg: Config, rs: seq<Response>, last: Response, n: nat, shared: nat)
    requires |rs| == n && AllAllowed(rs, n) && Verdict(cfg, last, shared)
    ensures Ends(cfg, rs + [last], n, shared)
  {
  }

  lemma LastReaches(cfg: Config, s: Store, r: Request, w: Who, e: string, own: nat, shared: nat)
    returns (response: Response)
    requires !Open(cfg, r) && w == WhoIs(r) && e == EndpointOf(r) && After(cfg, s, w, e, r.now, own, shared)
    requires own < Room(cfg, w)
    ensures Responses(cfg, s, [r]) == [response] && Verdict(cfg, response, shared)
  {
    OneReaches(cfg, s, r, w, e, own, shared);
    response := CheckStep(cfg, s, r).1;
  }

  /** `n` requests that pass, and one more that reaches its endpoint counter. */
  lemma ManyAndOne(cfg: Config, s: Store, r: Request, w: Who, e: string, shared: nat, n: nat, shared': nat)
    requires !Open(cfg, r) && w == WhoIs(r) && e == EndpointOf(r) && After(cfg, s, w, e, r.now, 0, shared)
    requires n < Room(cfg, w) && shared' == shared + n <= cfg.endpointBurst
    ensures Ends(cfg, Responses(cfg, s, Many(r, n) + [r]), n, shared')
  {
    var s', rs := ManyPass(cfg, s, r, w, e, 0, shared, n, shared', n, w, [r]);
    var response := LastReaches(cfg, s', r, w, e, n, shared');
    LastEnds(cfg, rs, response, n, shared');
  }

  /** After `x` requests of the other identity, with one counter for both endpoints, only `y` pass. */
  lemma SharedRefuses(cfg: Config, other: Request, x: nat, r: Request, y: nat)
    returns (rs: seq<Response>, rs': seq<Response>)
    requires !Open(cfg, other) && !Open(cfg, r) && other.now == r.now && WhoIs(other) != WhoIs(r)
    requires EpKey(cfg, WhoIs(other), EndpointOf(other)) == EpKey(cfg, WhoIs(r), EndpointOf(r))
    requires x <= Room(cfg, WhoIs(other)) && y < Room(cfg, WhoIs(r)) && x + y == cfg.endpointBurst
    ensures Responses(cfg, map[], Crowd(other, x, r, y)) == rs + rs' && |rs| == x
    ensures LastRefused(cfg, rs', y)
  {
    var s;
    s, rs := ManyPass(cfg, map[], other, WhoIs(other), EndpointOf(other), 0, 0, x, x, x, WhoIs(r), Many(r, y) + [r]);
    rs' := Responses(cfg, s, Many(r, y) + [r]);
    ManyAndOne(cfg, s, r, WhoIs(r), EndpointOf(r), x, y, x + y);
  }

  // ---------------------------------------------------------------- two addresses with one counter

  /** The path of a caller that meets the counter of the caller behind it. */
  function MeetingPath(p: string, verb: string, q: string): string {
    ['/'] + Join([p + (":60:" + (Upper(verb) + [':'])), q])
  }

  lemma RegroupKey(b: string, u: string, p: string, t: string, tail: string)
    ensures b + (":60:" + (u + [':'] + (['/'] + (p + t + tail)))) == (b + (":60:" + (u + (":/" + p)))) + (t + tail)
  {
    assert u + [':'] + (['/'] + (p + t + tail)) == (u + (":/" + p)) + (t + tail);
    var v := u + (":/" + p);
    assert b + (":60:" + (v + (t + tail))) == (b + (":60:" + v)) + (t + tail);
  }

  /** The endpoint key of the meeting path, taken apart. */
  lemma MeetingKey(verb: string, p: string, verb': string, q: string)
    requires Token(verb) && Token(verb') && '/' !in p && '/' !in q && q != ""
    ensures EndpointKey(verb, MeetingPath(p, verb', q))
         == Upper(verb) + [':'] + (['/'] + (p + (":60:" + (Upper(verb') + [':'])) + (['/'] + q)))
  {
    var part := p + (":60:" + (Upper(verb') + [':']));
    NoSlash(p, verb');
    PlainPath(verb, [part, q]);
    JoinTwo(part, q);
  }

  lemma NoSlash(p: string, verb: string)
    requires Token(verb) && '/' !in p
    ensures '/' !in p + (":60:" + (Upper(verb) + [':'])) && p + (":60:" + (Upper(verb) + [':'])) != []
  {
    UpperToken(verb);
    assert '/' !in Upper(verb) + [':'];
    assert '/' !in ":60:" + (Upper(verb) + [':']);
  }

  lemma JoinTwo(a: string, b: string)
    ensures Join([a, b]) == a + (['/'] + b)
  {
    assert [a, b][1..] == [b];
  }

  lemma PathsMeet(b: string, verb: string, p: string, verb': string, q: string)
    requires Token(verb) && Token(verb') && '/' !in p && '/' !in q && q != ""
    ensures b + (":60:" + EndpointKey(verb, MeetingPath(p, verb', q)))
         == (b + (":60:" + (Upper(verb) + (":/" + p)))) + (":60:" + EndpointKey(verb', ['/'] + Join([q])))
  {
    var t, tail := ":60:" + (Upper(verb') + [':']), ['/'] + q;
    MeetingKey(verb, p, verb', q);
    PlainPath(verb', [q]);
    RegroupKey(b, Upper(verb), p, t, tail);
    assert t + tail == ":60:" + (Upper(verb') + [':'] + tail);
  }

  /** A request from an address that is neither exempt nor meets a failure. */
  predicate FromAddress(cfg: Config, r: Request) { !Open(cfg, r) && r.tenant == "" && Token(r.verb) }

  /** The address that continues the address of `other` by an endpoint key asks for a path of one segment. */
  predicate Continues(r: Request, other: Request, p: string, q: string) {
    && '/' !in p && '/' !in q && q != ""
    && r.ip == other.ip + (":60:" + (Upper(other.verb) + (":/" + p)))
    && other.path == MeetingPath(p, r.verb, q) && r.path == ['/'] + Join([q])
  }

  lemma CrowdSeen(other: Request, x: nat, r: Request, y: nat, rs: seq<Response>, rs': seq<Response>)
    requires WhoIs(other) != WhoIs(r) && |rs| == x && |rs'| == y + 1
    ensures |Crowd(other, x, r, y)| == |rs + rs'| && SeenBy(Crowd(other, x, r, y), rs + rs', WhoIs(r)) == rs'
    ensures Only(Crowd(other, x, r, y), WhoIs(r)) == Many(r, y) + [r]
  {
    ManyOwn(r, y);
    OthersFirst(other, x, Many(r, y) + [r], rs, rs', WhoIs(r));
    AllOwn(Many(r, y) + [r], rs', WhoIs(r));
  }

  /** All of the `n` responses pass. */
  ghost predicate AllPass(rs: seq<Response>, n: nat) { |rs| == n && AllAllowed(rs, n) }

  /** `n` responses pass, and one more, the last, is refused by the endpoint counter. */
  ghost predicate LastRefused(cfg: Config, rs: seq<Response>, n: nat) {
    |rs| == n + 1 && AllAllowed(rs, n) && rs[n] == Refused("endpoint-burst", cfg.endpointBurst, 60)
  }

  lemma EndsPass(cfg: Config, rs: seq<Response>, n: nat)
    requires Ends(cfg, rs, n, n) && n < cfg.endpointBurst
    ensures AllPass(rs, n + 1)
  {
  }

  lemma CrowdRefused(cfg: Config, other: Request, r: Request, x: nat, y: nat)
    requires !Open(cfg, other) && !Open(cfg, r) && other.now == r.now && WhoIs(other) != WhoIs(r)
    requires EpKey(cfg, WhoIs(other), EndpointOf(other)) == EpKey(cfg, WhoIs(r), EndpointOf(r))
    requires 1 <= x <= Room(cfg, WhoIs(other)) && y < Room(cfg, WhoIs(r)) && x + y == cfg.endpointBurst
    ensures AllPass(Responses(cfg, map[], Only(Crowd(other, x, r, y), WhoIs(r))), y + 1)
    ensures LastRefused(cfg, SeenBy(Crowd(other, x, r, y), Responses(cfg, map[], Crowd(other, x, r, y)), WhoIs(r)), y)
  {
    var rs, rs' := SharedRefuses(cfg, other, x, r, y);
    CrowdSeen(other, x, r, y, rs, rs');
    ManyAndOne(cfg, map[], r, WhoIs(r), EndpointOf(r), 0, y, y);
    EndsPass(cfg, Responses(cfg, map[], Many(r, y) + [r]), y);
  }

  /** The keys of the two addresses meet. */
  lemma ContinuesShares(cfg: Config, other: Request, r: Request, p: string, q: string)
    requires FromAddress(cfg, other) && FromAddress(cfg, r) && Continues(r, other, p, q)
    ensures WhoIs(other) != WhoIs(r)
    ensures EpKey(cfg, WhoIs(other), EndpointOf(other)) == EpKey(cfg, WhoIs(r), EndpointOf(r))
  {
    PathsMeet(other.ip, other.verb, p, r.verb, q);
    assert |r.ip| > |other.ip|;
    EpKeyTails(cfg, WhoIs(other), EndpointOf(other), WhoIs(r), EndpointOf(r));
  }

  /**
   * For every address there is another address whose budget it can use up: the one that continues
   * it by an endpoint key. Whatever the endpoint limit, if it is less than two budgets of an
   * address: there are requests from there that all pass alone, and whose last is refused after
   * requests of the first address to a path that repeats the continuation.
   */
  lemma ExtendedIdentityRefused(cfg: Config, other: Request, r: Request, p: string, q: string) returns (x: nat, y: nat)
    requires FromAddress(cfg, other) && FromAddress(cfg, r) && other.now == r.now && Continues(r, other, p, q)
    requires 1 <= cfg.endpointBurst < 2 * Min(cfg.ipBurst, cfg.ipSustained)
    ensures AllPass(Responses(cfg, map[], Only(Crowd(other, x, r, y), WhoIs(r))), y + 1)
    ensures LastRefused(cfg, SeenBy(Crowd(other, x, r, y), Responses(cfg, map[], Crowd(other, x, r, y)), WhoIs(r)), y)
  {
    x := Min(Min(cfg.ipBurst, cfg.ipSustained), cfg.endpointBurst);
    y := cfg.endpointBurst - x;
    ContinuesShares(cfg, other, r, p, q);
    CrowdRefused(cfg, other, r, x, y);
  }
}
