/**
 * What one identity sees of the middleware limiter does not depend on the requests of identities
 * that are apart from it.
 */
module MiddlewareIsolation {
  import opened RedisCounters
  import opened Endpoints
  import opened Middleware
  import opened MiddlewareKeys

  ghost predicate Same(s: Store, s': Store, key: string) {
    (key in s <==> key in s') && (key in s ==> s[key] == s'[key])
  }

  ghost predicate AgreeAt(cfg: Config, s: Store, s': Store, w: Who, e: string) {
    Same(s, s', EpKey(cfg, w, e))
  }

  /** The two stores hold the same counters of `w`. */
  ghost predicate Agree(cfg: Config, s: Store, s': Store, w: Who) {
    && Same(s, s', BurstKey(cfg, w))
    && Same(s, s', SustainedKey(cfg, w))
    && forall e :: IsEndpoint(e) ==> AgreeAt(cfg, s, s', w, e)
  }

  /** A hit touches its own key only. */
  lemma HitFrame(s: Store, key: string, limit: int, window: int, now: real, reply: Reply, other: string)
    requires other != key
    ensures Same(s, HitStep(s, key, limit, window, now, reply).0, other)
  {
  }

  /** A hit reads its own key only. */
  lemma HitLocal(s: Store, s': Store, key: string, limit: int, window: int, now: real, reply: Reply)
    requires Same(s, s', key)
    ensures HitStep(s, key, limit, window, now, reply).1 == HitStep(s', key, limit, window, now, reply).1
    ensures Same(HitStep(s, key, limit, window, now, reply).0, HitStep(s', key, limit, window, now, reply).0, key)
  {
  }

  predicate Touches(cfg: Config, r: Request, key: string) {
    key == BurstKey(cfg, WhoIs(r)) || key == SustainedKey(cfg, WhoIs(r)) || key == EpKey(cfg, WhoIs(r), EndpointOf(r))
  }

  /** A request touches the three keys of its own identity and endpoint only. */
  lemma CheckFrame(cfg: Config, s: Store, r: Request, other: string)
    requires !Touches(cfg, r, other)
    ensures Same(s, CheckStep(cfg, s, r).0, other)
  {
    var w := WhoIs(r);
    var (s1, burst) := HitStep(s, BurstKey(cfg, w), BurstLimit(cfg, w), BURST_WINDOW, r.now, r.burstReply);
    var s2 := HitStep(s1, SustainedKey(cfg, w), SustainedLimit(cfg, w), SUSTAINED_WINDOW, r.now, r.sustainedReply).0;
    HitFrame(s, BurstKey(cfg, w), BurstLimit(cfg, w), BURST_WINDOW, r.now, r.burstReply, other);
    HitFrame(s1, SustainedKey(cfg, w), SustainedLimit(cfg, w), SUSTAINED_WINDOW, r.now, r.sustainedReply, other);
    HitFrame(s2, EpKey(cfg, w, EndpointOf(r)), cfg.endpointBurst, BURST_WINDOW, r.now, r.endpointReply, other);
  }

  /** Nobody else touches an identity's burst and sustained counters. */
  lemma OwnWindowsUntouched(cfg: Config, r: Request, w: Who)
    requires Scoped(w) && WhoIs(r) != w
    ensures !Touches(cfg, r, BurstKey(cfg, w)) && !Touches(cfg, r, SustainedKey(cfg, w))
  {
    var w' := WhoIs(r);
    if BurstKey(cfg, w) == BurstKey(cfg, w') { BurstKeyInjective(cfg, w, w'); }
    if SustainedKey(cfg, w) == SustainedKey(cfg, w') { SustainedKeyInjective(cfg, w, w'); }
    FamiliesDisjoint(cfg, w, w', EndpointOf(r));
    FamiliesDisjoint(cfg, w', w, EndpointOf(r));
  }

  /** The keys of identities that are apart are different. */
  lemma OthersKeys(cfg: Config, w: Who, r: Request, e: string)
    requires Scoped(w) && Token(r.verb) && WhoIs(r) != w && Apart(w, WhoIs(r)) && IsEndpoint(e)
    ensures !Touches(cfg, r, BurstKey(cfg, w)) && !Touches(cfg, r, SustainedKey(cfg, w))
    ensures !Touches(cfg, r, EpKey(cfg, w, e))
  {
    var w' := WhoIs(r);
    RequestEndpoint(r);
    OwnWindowsUntouched(cfg, r, w);
    if EpKey(cfg, w, e) == EpKey(cfg, w', EndpointOf(r)) { EpKeyInjective(cfg, w, e, w', EndpointOf(r)); }
    FamiliesDisjoint(cfg, w', w, e);
  }

  lemma OthersLeaveAlone(cfg: Config, s: Store, r: Request, w: Who)
    requires Scoped(w) && Token(r.verb) && WhoIs(r) != w && Apart(w, WhoIs(r))
    ensures Agree(cfg, s, CheckStep(cfg, s, r).0, w)
  {
    var s' := CheckStep(cfg, s, r).0;
    forall e | IsEndpoint(e)
      ensures Same(s, s', BurstKey(cfg, w)) && Same(s, s', SustainedKey(cfg, w)) && AgreeAt(cfg, s, s', w, e)
    {
      OthersKeys(cfg, w, r, e);
      CheckFrame(cfg, s, r, BurstKey(cfg, w));
      CheckFrame(cfg, s, r, SustainedKey(cfg, w));
      CheckFrame(cfg, s, r, EpKey(cfg, w, e));
    }
    RequestEndpoint(r);
    assert AgreeAt(cfg, s, s', w, EndpointOf(r));
  }

  lemma AgreeTrans(cfg: Config, s: Store, s': Store, s'': Store, w: Who)
    requires Agree(cfg, s, s', w) && Agree(cfg, s', s'', w)
    ensures Agree(cfg, s, s'', w)
  {
  }

  lemma AgreeSym(cfg: Config, s: Store, s': Store, w: Who)
    requires Agree(cfg, s, s', w)
    ensures Agree(cfg, s', s, w)
  {
  }

  /** Equal effects of one hit on agreeing stores keep the agreement on every key of `w`. */
  lemma HitAgree(cfg: Config, s: Store, s': Store, w: Who, key: string, limit: int, window: int,
                 now: real, reply: Reply)
    requires Agree(cfg, s, s', w) && Same(s, s', key)
    ensures HitStep(s, key, limit, window, now, reply).1 == HitStep(s', key, limit, window, now, reply).1
    ensures Agree(cfg, HitStep(s, key, limit, window, now, reply).0, HitStep(s', key, limit, window, now, reply).0, w)
  {
    HitLocal(s, s', key, limit, window, now, reply);
    var t, t' := HitStep(s, key, limit, window, now, reply).0, HitStep(s', key, limit, window, now, reply).0;
    forall other | Same(s, s', other)
      ensures Same(t, t', other)
    {
      if other != key {
        HitFrame(s, key, limit, window, now, reply, other);
        HitFrame(s', key, limit, window, now, reply, other);
      }
    }
    forall e | IsEndpoint(e) ensures AgreeAt(cfg, t, t', w, e) {
      assert AgreeAt(cfg, s, s', w, e);
    }
  }

  /** The identity's own request gets the same response from agreeing stores, and they keep agreeing. */
  lemma {:induction false} OwnRequestSame(cfg: Config, s: Store, s': Store, r: Request)
    requires Token(r.verb) && Agree(cfg, s, s', WhoIs(r))
    ensures CheckStep(cfg, s, r).1 == CheckStep(cfg, s', r).1
    ensures Agree(cfg, CheckStep(cfg, s, r).0, CheckStep(cfg, s', r).0, WhoIs(r))
  {
    var w := WhoIs(r);
    RequestEndpoint(r);
    HitAgree(cfg, s, s', w, BurstKey(cfg, w), BurstLimit(cfg, w), BURST_WINDOW, r.now, r.burstReply);
    var s1 := HitStep(s, BurstKey(cfg, w), BurstLimit(cfg, w), BURST_WINDOW, r.now, r.burstReply).0;
    var s1' := HitStep(s', BurstKey(cfg, w), BurstLimit(cfg, w), BURST_WINDOW, r.now, r.burstReply).0;
    HitAgree(cfg, s1, s1', w, SustainedKey(cfg, w), SustainedLimit(cfg, w), SUSTAINED_WINDOW, r.now, r.sustainedReply);
    var s2 := HitStep(s1, SustainedKey(cfg, w), SustainedLimit(cfg, w), SUSTAINED_WINDOW, r.now, r.sustainedReply).0;
    var s2' := HitStep(s1', SustainedKey(cfg, w), SustainedLimit(cfg, w), SUSTAINED_WINDOW, r.now, r.sustainedReply).0;
    assert AgreeAt(cfg, s2, s2', w, EndpointOf(r));
    HitAgree(cfg, s2, s2', w, EpKey(cfg, w, EndpointOf(r)), cfg.endpointBurst, BURST_WINDOW, r.now, r.endpointReply);
  }

  // ---------------------------------------------------------------- projection

  function Only(reqs: seq<Request>, w: Who): seq<Request> {
    if reqs == [] then [] else (if WhoIs(reqs[0]) == w then [reqs[0]] else []) + Only(reqs[1..], w)
  }

  function SeenBy(reqs: seq<Request>, rs: seq<Response>, w: Who): seq<Response>
    requires |rs| == |reqs|
  {
    if reqs == [] then [] else (if WhoIs(reqs[0]) == w then [rs[0]] else []) + SeenBy(reqs[1..], rs[1..], w)
  }

  /** HTTP methods are tokens, and everybody else is apart from `w`. */
  ghost predicate ApartFrom(reqs: seq<Request>, w: Who) {
    forall i :: 0 <= i < |reqs| ==> Token(reqs[i].verb) && (WhoIs(reqs[i]) == w || Apart(w, WhoIs(reqs[i])))
  }

  lemma ResponsesCons(cfg: Config, s: Store, r: Request, rest: seq<Request>)
    ensures Responses(cfg, s, [r] + rest) == [CheckStep(cfg, s, r).1] + Responses(cfg, CheckStep(cfg, s, r).0, rest)
  {
  }

  lemma SeenByCons(r: Request, rest: seq<Request>, response: Response, rs: seq<Response>, w: Who)
    requires |rs| == |rest|
    ensures SeenBy([r] + rest, [response] + rs, w) == (if WhoIs(r) == w then [response] else []) + SeenBy(rest, rs, w)
  {
  }

  /**
   * The responses an identity gets in any interleaved run, verdicts and headers, are those of the
   * run of its own requests alone, Redis failures included, from any stores that agree on it,
   * if no other identity in the run extends it or is extended by it.
   */
  lemma {:induction false} IsolationFrom(cfg: Config, s: Store, s': Store, reqs: seq<Request>, w: Who)
    requires Scoped(w) && ApartFrom(reqs, w) && Agree(cfg, s, s', w)
    ensures SeenBy(reqs, Responses(cfg, s, reqs), w) == Responses(cfg, s', Only(reqs, w))
    decreases reqs
  {
    if reqs != [] {
      var r, rest := reqs[0], reqs[1..];
      var t := CheckStep(cfg, s, r).0;
      assert reqs == [r] + rest;
      assert ApartFrom(rest, w) by { assert forall i :: 0 <= i < |rest| ==> rest[i] == reqs[i + 1]; }
      ResponsesCons(cfg, s, r, rest);
      SeenByCons(r, rest, CheckStep(cfg, s, r).1, Responses(cfg, t, rest), w);
      if WhoIs(r) == w {
        OwnRequestSame(cfg, s, s', r);
        IsolationFrom(cfg, t, CheckStep(cfg, s', r).0, rest, w);
        ResponsesCons(cfg, s', r, Only(rest, w));
      } else {
        OthersLeaveAlone(cfg, s, r, w);
        AgreeSym(cfg, s, t, w);
        AgreeTrans(cfg, t, s, s', w);
        IsolationFrom(cfg, t, s', rest, w);
        assert Only(reqs, w) == Only(rest, w);
      }
    }
  }

  lemma Isolation(cfg: Config, s: Store, reqs: seq<Request>, w: Who)
    requires Scoped(w) && ApartFrom(reqs, w)
    ensures SeenBy(reqs, Responses(cfg, s, reqs), w) == Responses(cfg, s, Only(reqs, w))
  {
    IsolationFrom(cfg, s, s, reqs, w);
  }
}
