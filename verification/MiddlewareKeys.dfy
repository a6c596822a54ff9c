/** The key strings of the middleware limiter tell identities and counters apart. */
module MiddlewareKeys {
  import opened Text
  import opened Endpoints
  import opened Middleware

  /** The two scopes that requests have. */
  predicate Scoped(w: Who) { w.scope == "tenant" || w.scope == "ip" }

  predicate IsEndpoint(e: string) {
    exists i :: 0 <= i < |e| - 1 && e[i] == ':' && e[i + 1] == '/' && Token(e[..i])
  }

  lemma DropPrefix(p: string, a: string, b: string)
    requires p + a == p + b
    ensures a == b
  {
    assert (p + a)[|p|..] == a && (p + b)[|p|..] == b;
  }

  lemma DropSuffix(a: string, b: string, p: string)
    requires a + p == b + p
    ensures a == b
  {
    assert (a + p)[..|a|] == a && (b + p)[..|b|] == b;
  }

  lemma ScopeCut(w: Who, t: string, w': Who, t': string)
    requires ':' !in w.scope && ':' !in w'.scope
    requires w.scope + ([':'] + t) == w'.scope + ([':'] + t')
    ensures w.scope == w'.scope && t == t'
  {
    assert w.scope + ([':'] + t) == w.scope + [':'] + t;
    assert w'.scope + ([':'] + t') == w'.scope + [':'] + t';
    FirstCut(w.scope, t, w'.scope, t', ':');
  }

  lemma BurstKeyInjective(cfg: Config, w: Who, w': Who)
    requires ':' !in w.scope && ':' !in w'.scope && BurstKey(cfg, w) == BurstKey(cfg, w')
    ensures w == w'
  {
    var t, t' := w.scope + ([':'] + (w.identity + ":60")), w'.scope + ([':'] + (w'.identity + ":60"));
    DropPrefix(cfg.prefix, ":burst:" + t, ":burst:" + t');
    DropPrefix(":burst:", t, t');
    ScopeCut(w, w.identity + ":60", w', w'.identity + ":60");
    DropSuffix(w.identity, w'.identity, ":60");
  }

  lemma SustainedKeyInjective(cfg: Config, w: Who, w': Who)
    requires ':' !in w.scope && ':' !in w'.scope && SustainedKey(cfg, w) == SustainedKey(cfg, w')
    ensures w == w'
  {
    var t, t' := w.scope + ([':'] + (w.identity + ":3600")), w'.scope + ([':'] + (w'.identity + ":3600"));
    DropPrefix(cfg.prefix, ":sust:" + t, ":sust:" + t');
    DropPrefix(":sust:", t, t');
    ScopeCut(w, w.identity + ":3600", w', w'.identity + ":3600");
    DropSuffix(w.identity, w'.identity, ":3600");
  }

  /** The three families of keys never meet. */
  lemma FamiliesDisjoint(cfg: Config, w: Who, w': Who, e: string)
    ensures BurstKey(cfg, w) != SustainedKey(cfg, w')
    ensures BurstKey(cfg, w) != EpKey(cfg, w', e)
    ensures SustainedKey(cfg, w) != EpKey(cfg, w', e)
  {
    var i := |cfg.prefix| + 1;
    assert BurstKey(cfg, w)[i] == 'b';
    assert BurstKey(cfg, w')[i] == 'b';
    assert SustainedKey(cfg, w)[i] == 's';
    assert SustainedKey(cfg, w')[i] == 's';
    assert EpKey(cfg, w', e)[i] == 'e';
  }

  // ---------------------------------------------------------------- endpoint keys

  /** The longer identity is the shorter one, continued as if by the rest of an endpoint key. */
  ghost predicate Extends(longer: string, shorter: string) {
    exists x :: IsEndpoint(x) && longer == shorter + (":60:" + x)
  }

  /** Neither identity extends the other, or their scopes differ. */
  ghost predicate Apart(w: Who, w': Who) {
    w.scope != w'.scope || (!Extends(w.identity, w'.identity) && !Extends(w'.identity, w.identity))
  }

  /** Some endpoint of the one has the counter of some endpoint of the other. */
  ghost predicate ShareCounter(cfg: Config, w: Who, w': Who) {
    exists e, f :: IsEndpoint(e) && IsEndpoint(f) && EpKey(cfg, w, e) == EpKey(cfg, w', f)
  }

  lemma EpKeyTails(cfg: Config, w: Who, e: string, w': Who, f: string)
    requires Scoped(w) && Scoped(w')
    ensures EpKey(cfg, w, e) == EpKey(cfg, w', f)
       <==> w.scope == w'.scope && w.identity + (":60:" + e) == w'.identity + (":60:" + f)
  {
    if EpKey(cfg, w, e) == EpKey(cfg, w', f) {
      var t, t' := w.identity + (":60:" + e), w'.identity + (":60:" + f);
      var u, u' := w.scope + ([':'] + t), w'.scope + ([':'] + t');
      DropPrefix(cfg.prefix, ":epburst:" + u, ":epburst:" + u');
      DropPrefix(":epburst:", u, u');
      ScopeCut(w, t, w', t');
    }
  }

  /** An endpoint continued by anything is an endpoint. */
  lemma ContinuedEndpoint(x: string, tail: string)
    requires IsEndpoint(x)
    ensures IsEndpoint(x + tail)
  {
    var i :| 0 <= i < |x| - 1 && x[i] == ':' && x[i + 1] == '/' && Token(x[..i]);
    var f := x + tail;
    assert f[i] == ':' && f[i + 1] == '/' && f[..i] == x[..i];
  }

  /** If an endpoint is some text continued by another endpoint key, that text is an endpoint. */
  lemma CutEndpoint(x: string, e: string)
    requires IsEndpoint(x + (":60:" + e))
    ensures IsEndpoint(x)
  {
    var f := x + (":60:" + e);
    var j :| 0 <= j < |f| - 1 && f[j] == ':' && f[j + 1] == '/' && Token(f[..j]);
    assert f[|x|] == ':' && f[|x| + 1] == '6';
    assert j + 1 < |x|;
    assert x[j] == ':' && x[j + 1] == '/' && x[..j] == f[..j];
  }

  /** An endpoint does not begin with a slash. */
  lemma EndpointStart(e: string)
    requires IsEndpoint(e)
    ensures e[0] != '/'
  {
    var i :| 0 <= i < |e| - 1 && e[i] == ':' && e[i + 1] == '/' && Token(e[..i]);
    if 0 < i { assert e[0] in e[..i]; }
  }

  lemma NoEndpoint(e: string)
    requires IsEndpoint(e)
    ensures !IsEndpoint("60:" + e)
  {
    var f := "60:" + e;
    EndpointStart(e);
    assert f[3] == e[0];
    forall j | 0 <= j < |f| - 1 && f[j] == ':' && f[j + 1] == '/'
      ensures !Token(f[..j])
    {
      assert f[..j][2] == ':';
    }
  }

  /** Where a text continued by an endpoint key can begin like one. */
  lemma GapStart(y: string, e: string, f: string)
    requires y != "" && y + (":60:" + e) == ":60:" + f
    ensures |y| < 4 ==> f == "60:" + e
    ensures 4 <= |y| ==> y[..4] == ":60:" && y[4..] + (":60:" + e) == f
  {
    var s := y + (":60:" + e);
    assert s[|y|] == ':' && s == ":60:" + f;
    assert s[1] == '6' && s[2] == '0';
    assert f == s[4..];
    if 4 <= |y| { assert y == s[..|y|]; }
  }

  /** What the longer of two identities that share a counter has more than the shorter. */
  lemma GapIsEndpoint(y: string, e: string, f: string)
    requires IsEndpoint(e) && IsEndpoint(f) && y != "" && y + (":60:" + e) == ":60:" + f
    ensures |y| >= 4 && y[..4] == ":60:" && IsEndpoint(y[4..])
  {
    GapStart(y, e, f);
    if |y| < 4 { NoEndpoint(e); } else { CutEndpoint(y[4..], e); }
  }

  /** The longer of two identities that share a counter extends the shorter. */
  lemma LongerExtends(longer: string, e: string, shorter: string, f: string)
    requires IsEndpoint(e) && IsEndpoint(f) && longer != shorter && |shorter| <= |longer|
    requires longer + (":60:" + e) == shorter + (":60:" + f)
    ensures Extends(longer, shorter)
  {
    var s, y := longer + (":60:" + e), longer[|shorter|..];
    assert longer == s[..|longer|] && shorter == s[..|shorter|];
    assert longer == shorter + y;
    assert y + (":60:" + e) == s[|shorter|..] == ":60:" + f;
    GapIsEndpoint(y, e, f);
    assert longer == shorter + (":60:" + y[4..]);
  }

  /** Two identities share an endpoint counter if and only if one extends the other. */
  lemma SharedIffExtends(cfg: Config, w: Who, w': Who)
    requires Scoped(w) && Scoped(w') && w != w'
    ensures ShareCounter(cfg, w, w') <==> !Apart(w, w')
  {
    forall e, f | IsEndpoint(e) && IsEndpoint(f) && EpKey(cfg, w, e) == EpKey(cfg, w', f)
      ensures !Apart(w, w')
    {
      EpKeyTails(cfg, w, e, w', f);
      if |w'.identity| <= |w.identity| {
        LongerExtends(w.identity, e, w'.identity, f);
      } else {
        LongerExtends(w'.identity, f, w.identity, e);
      }
    }
    if w.scope == w'.scope && Extends(w.identity, w'.identity) {
      ExtendedShares(cfg, w, w');
    } else if w.scope == w'.scope && Extends(w'.identity, w.identity) {
      ExtendedShares(cfg, w', w);
    }
  }

  lemma ExtendedShares(cfg: Config, w: Who, w': Who)
    requires Scoped(w) && Scoped(w') && w.scope == w'.scope && Extends(w.identity, w'.identity)
    ensures ShareCounter(cfg, w, w') && ShareCounter(cfg, w', w)
  {
    var x :| IsEndpoint(x) && w.identity == w'.identity + (":60:" + x);
    var e := "GET:/";
    assert e[3] == ':' && e[4] == '/' && Token(e[..3]);
    ContinuedEndpoint(x, ":60:" + e);
    assert w.identity + (":60:" + e) == w'.identity + (":60:" + (x + (":60:" + e)));
    EpKeyTails(cfg, w, e, w', x + (":60:" + e));
  }

  /** Endpoint keys of identities that are apart, or of one identity, tell everything apart. */
  lemma EpKeyInjective(cfg: Config, w: Who, e: string, w': Who, f: string)
    requires Scoped(w) && Scoped(w') && (w == w' || Apart(w, w')) && IsEndpoint(e) && IsEndpoint(f)
    requires EpKey(cfg, w, e) == EpKey(cfg, w', f)
    ensures w == w' && e == f
  {
    if w != w' { SharedIffExtends(cfg, w, w'); }
    EpKeyTails(cfg, w, e, w', f);
    DropPrefix(w.identity, ":60:" + e, ":60:" + f);
    DropPrefix(":60:", e, f);
  }

  lemma RequestEndpoint(r: Request)
    requires Token(r.verb)
    ensures IsEndpoint(EndpointOf(r))
  {
    UpperToken(r.verb);
    var e, i := EndpointOf(r), |r.verb|;
    assert e[i] == ':' && e[i + 1] == '/' && e[..i] == Upper(r.verb);
  }
}
