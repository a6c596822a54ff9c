/** How a request's method and path become the endpoint part of a rate-limit key. */
module Endpoints {
  import opened Text

  function StripLeft(s: string): string {
    if s != [] && s[0] == '/' then StripLeft(s[1..]) else s
  }

  /** `split("/")`: never empty, and no part holds a slash. */
  function Split(s: string): (parts: seq<string>)
    ensures parts != [] && forall i :: 0 <= i < |parts| ==> '/' !in parts[i]
  {
    if s == [] then [[]]
    else
      var rest := Split(s[1..]);
      if s[0] == '/' then [[]] + rest else [[s[0]] + rest[0]] + rest[1..]
  }

  function Join(parts: seq<string>): string {
    if parts == [] then []
    else if |parts| == 1 then parts[0]
    else parts[0] + ['/'] + Join(parts[1..])
  }

  function Upper(s: string): (r: string)
    ensures |r| == |s|
  {
    if s == [] then []
    else [if 'a' <= s[0] <= 'z' then (s[0] as int - 32) as char else s[0]] + Upper(s[1..])
  }

  /** The path segments that the key keeps. */
  function Segments(path: string): (parts: seq<string>)
    ensures parts != [] && forall i :: 0 <= i < |parts| ==> '/' !in parts[i]
  {
    var trimmed := if StripRight(path) == [] then "/" else StripRight(path);
    var parts := Split(StripLeft(StripRight(trimmed)));
    if |parts| <= 3 then parts else parts[..4]
  }

  function EndpointKey(verb: string, path: string): string {
    Upper(verb) + [':'] + (['/'] + Join(Segments(path)))
  }

  /** An HTTP method is a token (section 5.6.2 of RFC 9110): neither colon nor slash. */
  predicate Token(verb: string) { ':' !in verb && '/' !in verb }

  lemma {:induction false} UpperToken(s: string)
    requires Token(s)
    ensures Token(Upper(s))
  {
    if s != [] { UpperToken(s[1..]); }
  }

  lemma JoinSlash(ps: seq<string>)
    requires ps != [] && '/' !in ps[0]
    ensures '/' in Join(ps) <==> |ps| > 1
  {
  }

  /** Parts without slashes can be read back from their join. */
  lemma {:induction false} JoinInjective(ps: seq<string>, qs: seq<string>)
    requires ps != [] && qs != []
    requires forall i :: 0 <= i < |ps| ==> '/' !in ps[i]
    requires forall i :: 0 <= i < |qs| ==> '/' !in qs[i]
    requires Join(ps) == Join(qs)
    ensures ps == qs
    decreases |ps|
  {
    JoinSlash(ps);
    JoinSlash(qs);
    if |ps| > 1 {
      FirstCut(ps[0], Join(ps[1..]), qs[0], Join(qs[1..]), '/');
      JoinInjective(ps[1..], qs[1..]);
      assert ps == [ps[0]] + ps[1..] && qs == [qs[0]] + qs[1..];
    }
  }

  /** Two requests share an endpoint key exactly when method and kept segments agree. */
  lemma EndpointKeyExact(verb: string, path: string, verb': string, path': string)
    requires Token(verb) && Token(verb')
    ensures EndpointKey(verb, path) == EndpointKey(verb', path')
       <==> Upper(verb) == Upper(verb') && Segments(path) == Segments(path')
  {
    UpperToken(verb);
    UpperToken(verb');
    var t, t' := ['/'] + Join(Segments(path)), ['/'] + Join(Segments(path'));
    if EndpointKey(verb, path) == EndpointKey(verb', path') {
      FirstCut(Upper(verb), t, Upper(verb'), t', ':');
      assert Join(Segments(path)) == t[1..] == t'[1..] == Join(Segments(path'));
      JoinInjective(Segments(path), Segments(path'));
    }
  }

  lemma {:induction false} StripRightSlashes(s: string)
    ensures StripRight(s + ['/']) == StripRight(s)
  {
  }

  /** A trailing slash does not make another endpoint. */
  lemma {:induction false} TrailingSlash(verb: string, path: string)
    ensures EndpointKey(verb, path + ['/']) == EndpointKey(verb, path)
  {
    StripRightSlashes(path);
  }

  // ---------------------------------------------------------------- the key of a plain path

  lemma {:induction false} SplitPlain(p: string)
    requires '/' !in p
    ensures Split(p) == [p]
  {
    if p != [] {
      SplitPlain(p[1..]);
      assert p == [p[0]] + p[1..];
    }
  }

  lemma {:induction false} SplitAtSlash(p: string, rest: string)
    requires '/' !in p
    ensures Split(p + (['/'] + rest)) == [p] + Split(rest)
  {
    if p == [] {
      assert p + (['/'] + rest) == ['/'] + rest;
    } else {
      assert (p + (['/'] + rest))[1..] == p[1..] + (['/'] + rest);
      SplitAtSlash(p[1..], rest);
      assert p == [p[0]] + p[1..];
      assert Split(p + (['/'] + rest)) == [[p[0]] + p[1..]] + Split(rest);
    }
  }

  /** Splitting undoes joining. */
  lemma {:induction false} SplitJoin(parts: seq<string>)
    requires parts != [] && forall i :: 0 <= i < |parts| ==> '/' !in parts[i]
    ensures Split(Join(parts)) == parts
  {
    if |parts| == 1 {
      SplitPlain(parts[0]);
    } else {
      assert parts[0] + ['/'] + Join(parts[1..]) == parts[0] + (['/'] + Join(parts[1..]));
      SplitAtSlash(parts[0], Join(parts[1..]));
      SplitJoin(parts[1..]);
    }
  }

  lemma {:induction false} JoinEnds(parts: seq<string>)
    requires parts != [] && forall i :: 0 <= i < |parts| ==> '/' !in parts[i] && parts[i] != []
    ensures var s := Join(parts); s != [] && s[0] != '/' && s[|s| - 1] != '/'
  {
    if |parts| == 1 {
      assert parts[0][0] in parts[0] && parts[0][|parts[0]| - 1] in parts[0];
    } else {
      assert parts[0][0] in parts[0];
      JoinEnds(parts[1..]);
    }
  }

  // ---------------------------------------------------------------- what the key is

  lemma {:induction false} StripLeftSlashes(n: nat, s: string)
    requires s == [] || s[0] != '/'
    ensures StripLeft(Slashes(n) + s) == s
  {
    if n == 0 {
      assert Slashes(n) + s == s;
    } else {
      assert (Slashes(n) + s)[1..] == Slashes(n - 1) + s;
      StripLeftSlashes(n - 1, s);
    }
  }

  /** The one is the other with its letters in upper case. */
  predicate InUpperCase(upper: string, s: string) {
    && |upper| == |s|
    && forall i :: 0 <= i < |s| ==>
         if 'a' <= s[i] <= 'z' then upper[i] as int == s[i] as int - 32 else upper[i] == s[i]
  }

  lemma {:induction false} UpperIs(upper: string, s: string)
    requires InUpperCase(upper, s)
    ensures Upper(s) == upper
  {
    if s != [] { UpperIs(upper[1..], s[1..]); }
  }

  /** Segments between slashes that begin and end with a segment that is not empty. */
  predicate Framed(parts: seq<string>) {
    && parts != [] && (forall i :: 0 <= i < |parts| ==> '/' !in parts[i])
    && parts[0] != "" && parts[|parts| - 1] != ""
  }

  lemma {:induction false} JoinLast(parts: seq<string>)
    requires parts != [] && parts[|parts| - 1] != "" && '/' !in parts[|parts| - 1]
    ensures var s := Join(parts); s != [] && s[|s| - 1] != '/'
  {
    if |parts| == 1 {
      assert parts[0][|parts[0]| - 1] in parts[0];
    } else {
      JoinLast(parts[1..]);
    }
  }

  lemma JoinFirst(parts: seq<string>)
    requires parts != [] && parts[0] != "" && '/' !in parts[0]
    ensures var s := Join(parts); s != [] && s[0] != '/'
  {
    assert parts[0][0] in parts[0];
    assert |parts| > 1 ==> Join(parts)[0] == parts[0][0];
  }

  lemma SegmentsOf(lead: nat, parts: seq<string>, trail: nat)
    requires Framed(parts)
    ensures Segments(Slashes(lead) + Join(parts) + Slashes(trail)) == if |parts| <= 3 then parts else parts[..4]
  {
    var s := Slashes(lead) + Join(parts);
    JoinLast(parts);
    JoinFirst(parts);
    assert s[|s| - 1] == Join(parts)[|Join(parts)| - 1];
    StripRightAll(s, trail);
    StripRightAll(s, 0);
    assert s + Slashes(0) == s;
    StripLeftSlashes(lead, Join(parts));
    SplitJoin(parts);
  }

  /**
   * The key is the method in upper case, a colon, and the first four segments of the path,
   * whatever slashes the path begins and ends with.
   */
  lemma KeyOfSegments(verb: string, upper: string, lead: nat, parts: seq<string>, trail: nat)
    requires InUpperCase(upper, verb) && Framed(parts)
    ensures EndpointKey(verb, Slashes(lead) + Join(parts) + Slashes(trail))
         == upper + ":" + ("/" + Join(if |parts| <= 4 then parts else parts[..4]))
  {
    UpperIs(upper, verb);
    SegmentsOf(lead, parts, trail);
    assert |parts| == 4 ==> parts[..4] == parts;
  }

  /** All paths without segments are one endpoint. */
  lemma KeyOfRoot(verb: string, upper: string, n: nat)
    requires InUpperCase(upper, verb)
    ensures EndpointKey(verb, Slashes(n)) == upper + ":/"
  {
    UpperIs(upper, verb);
    StripRightAll([], n);
    assert [] + Slashes(n) == Slashes(n);
    assert StripRight("/") == [] by { assert "/"[..0] == []; }
    assert Split([]) == [[]] && Join([[]]) == [];
  }

  /** A path of up to four plain segments is kept as it is. */
  lemma PlainPath(verb: string, parts: seq<string>)
    requires 0 < |parts| <= 4 && forall i :: 0 <= i < |parts| ==> '/' !in parts[i] && parts[i] != []
    ensures EndpointKey(verb, ['/'] + Join(parts)) == Upper(verb) + [':'] + (['/'] + Join(parts))
  {
    var path := ['/'] + Join(parts);
    JoinEnds(parts);
    assert path[|path| - 1] == Join(parts)[|Join(parts)| - 1];
    assert StripRight(path) == path;
    assert path[1..] == Join(parts);
    assert StripLeft(path) == StripLeft(Join(parts)) == Join(parts);
    SplitJoin(parts);
    assert |parts| == 4 ==> parts[..4] == parts;
  }
}
