/**
 * Reset, invite and blacklist tokens: a Redis store with a time to live, and an in-process
 * dictionary without one that is used only while Redis raises. Redeeming a token takes two
 * steps, the read and the delete, between which other requests may run.
 */
module TokenStore {
  import opened Basics
  import opened RedisCounters

  /** A value that Redis drops once the clock is past `lapse`. */
  datatype Timed = Timed(value: string, lapse: real)

  datatype State = State(redis: map<string, Timed>, memory: map<string, string>)

  const RESET_TTL := 3600
  const INVITE_TTL := 172800

  datatype Kind = Reset | Invite

  function TtlOf(kind: Kind): int { if kind.Reset? then RESET_TTL else INVITE_TTL }

  function TokenKey(kind: Kind, token: string): string {
    (if kind.Reset? then "uniops:reset:" else "uniops:invite:") + token
  }

  function BlacklistKey(token: string): string { "uniops:blacklist:" + token }

  // ---------------------------------------------------------------- specification

  function SetStep(s: State, key: string, value: string, ttl: int, now: real, reply: Reply): State {
    State(if reply.Down? then s.redis else s.redis[key := Timed(value, now + ttl as real)],
          if reply.Ok? then s.memory else s.memory[key := value])
  }

  function GetStep(s: State, key: string, now: real, reply: Reply): Option<string> {
    if reply.Ok?
    then if key in s.redis && now <= s.redis[key].lapse then Some(s.redis[key].value) else None
    else if key in s.memory then Some(s.memory[key]) else None
  }

  function DelStep(s: State, key: string, reply: Reply): State {
    State(if reply.Down? then s.redis else s.redis - {key},
          if reply.Ok? then s.memory else s.memory - {key})
  }

  /** What a token is good for: an empty value counts as none. */
  function Resolve(s: State, key: string, now: real, get: Reply): Option<string> {
    match GetStep(s, key, now, get)
    case None => None
    case Some(value) => if value == "" then None else Some(value)
  }

  function BlacklistTtl(exp: int, now: real): int {
    if Trunc(exp as real - now) < 1 then 1 else Trunc(exp as real - now)
  }

  /** An expired token does not decode (section 4.1.4 of RFC 7519), so it is not blacklisted. */
  function LogoutStep(s: State, token: string, exp: int, now: real, reply: Reply): State {
    if exp as real <= now then s
    else SetStep(s, BlacklistKey(token), "1", BlacklistTtl(exp, now), now, reply)
  }

  datatype Refreshed = Revoked | Expired | Accepted

  /** The refresh of a token of type "refresh" whose user is active. */
  function RefreshVerdict(s: State, token: string, exp: int, now: real, reply: Reply): Refreshed {
    match GetStep(s, BlacklistKey(token), now, reply)
    case Some(value) => if value != "" then Revoked else if exp as real <= now then Expired else Accepted
    case None => if exp as real <= now then Expired else Accepted
  }

  datatype ResetOutcome = UserNotFound | Changed

  // ---------------------------------------------------------------- the store itself

  class Tokens {
    var redis: map<string, Timed>
    var memory: map<string, string>
    var passwords: map<string, string>  // hashed password by user id

    ghost function Contents(): State
      reads this
    {
      State(redis, memory)
    }

    constructor (passwords: map<string, string>)
      ensures Contents() == State(map[], map[]) && this.passwords == passwords
    {
      redis, memory := map[], map[];
      this.passwords := passwords;
    }

    method Set(key: string, value: string, ttl: int, now: real, reply: Reply)
      modifies this`redis, this`memory
      ensures Contents() == SetStep(old(Contents()), key, value, ttl, now, reply)
    {
      if !reply.Down? { redis := redis[key := Timed(value, now + ttl as real)]; }
      if !reply.Ok? { memory := memory[key := value]; }
    }

    method Get(key: string, now: real, reply: Reply) returns (value: Option<string>)
      ensures value == GetStep(Contents(), key, now, reply)
    {
      value := None;
      if reply.Ok? {
        if key in redis && now <= redis[key].lapse { value := Some(redis[key].value); }
      } else if key in memory {
        value := Some(memory[key]);
      }
    }

    method Del(key: string, reply: Reply)
      modifies this`redis, this`memory
      ensures Contents() == DelStep(old(Contents()), key, reply)
    {
      if !reply.Down? { redis := redis - {key}; }
      if !reply.Ok? { memory := memory - {key}; }
    }

    /** Resetting a password and registering with an invite begin with this read; `None` is answered with an error. */
    method BeginRedemption(kind: Kind, token: string, now: real, get: Reply) returns (value: Option<string>)
      ensures value == Resolve(Contents(), TokenKey(kind, token), now, get)
    {
      value := Get(TokenKey(kind, token), now, get);
      if value == Some("") { value := None; }
    }

    /** An unknown e-mail address is ignored in silence; `user` is the id found for it. */
    method ForgotPassword(user: Option<string>, token: string, now: real, reply: Reply)
      modifies this`redis, this`memory
      ensures Contents() == if user.None? then old(Contents())
                            else Apply(System(old(Contents()), []), Issue(Reset, token, user.value, now, reply)).store
    {
      if user.Some? { Set(TokenKey(Reset, token), user.value, RESET_TTL, now, reply); }
    }

    method CreateInvite(payload: string, token: string, now: real, reply: Reply)
      modifies this`redis, this`memory
      ensures Contents() == Apply(System(old(Contents()), []), Issue(Invite, token, payload, now, reply)).store
    {
      Set(TokenKey(Invite, token), payload, INVITE_TTL, now, reply);
    }

    /** The rest of a reset that was let in: the token is used up even if its user has vanished. */
    method FinishReset(token: string, user: string, hash: string, del: Reply) returns (outcome: ResetOutcome)
      modifies this
      ensures Contents() == Apply(System(old(Contents()), [Ticket(Reset, token, user, Ok)]), Drop(0, del)).store
      ensures outcome == if user in old(passwords) then Changed else UserNotFound
      ensures passwords == if outcome.Changed? then old(passwords)[user := hash] else old(passwords)
    {
      Del(TokenKey(Reset, token), del);
      if user !in passwords { return UserNotFound; }
      passwords := passwords[user := hash];
      outcome := Changed;
    }

    method Logout(token: string, exp: int, now: real, reply: Reply)
      modifies this`redis, this`memory
      ensures Contents() == Apply(System(old(Contents()), []), Event.Logout(token, exp, now, reply)).store
    {
      if exp as real <= now { return; }
      var ttl := Trunc(exp as real - now);
      if ttl < 1 { ttl := 1; }
      Set(BlacklistKey(token), "1", ttl, now, reply);
    }

    method Refresh(token: string, exp: int, now: real, reply: Reply) returns (verdict: Refreshed)
      ensures verdict == RefreshVerdict(Contents(), token, exp, now, reply)
    {
      var blacklisted := Get(BlacklistKey(token), now, reply);
      if blacklisted != None && blacklisted != Some("") { return Revoked; }
      if exp as real <= now { return Expired; }
      verdict := Accepted;
    }
  }

  // ---------------------------------------------------------------- runs

  /** A redemption that was let in with `value` and has not deleted its token yet. */
  datatype Ticket = Ticket(kind: Kind, token: string, value: string, get: Reply)

  /** The store, and the redemptions between their read and their delete. */
  datatype System = System(store: State, open: seq<Ticket>)

  datatype Event =
    | Issue(kind: Kind, token: string, value: string, now: real, reply: Reply)
    | Read(kind: Kind, token: string, now: real, get: Reply)
    | Drop(ticket: nat, del: Reply)
    | Logout(jwt: string, exp: int, now: real, reply: Reply)

  const EMPTY: System := System(State(map[], map[]), [])

  function Apply(s: System, e: Event): System {
    match e
    case Issue(kind, token, value, now, reply) =>
      s.(store := SetStep(s.store, TokenKey(kind, token), value, TtlOf(kind), now, reply))
    case Read(kind, token, now, get) =>
      var found := Resolve(s.store, TokenKey(kind, token), now, get);
      if found.None? then s else s.(open := s.open + [Ticket(kind, token, found.value, get)])
    case Drop(i, del) =>
      if i < |s.open|
      then System(DelStep(s.store, TokenKey(s.open[i].kind, s.open[i].token), del), s.open[..i] + s.open[i + 1..])
      else s
    case Logout(jwt, exp, now, reply) => s.(store := LogoutStep(s.store, jwt, exp, now, reply))
  }

  function After(s: System, events: seq<Event>): System
    decreases events
  {
    if events == [] then s else After(Apply(s, events[0]), events[1..])
  }

  /** The event lets somebody in with this token. */
  predicate LetsIn(s: System, e: Event, kind: Kind, token: string) {
    e.Read? && e.kind == kind && e.token == token && Resolve(s.store, TokenKey(kind, token), e.now, e.get).Some?
  }

  function LetInCount(s: System, events: seq<Event>, kind: Kind, token: string): nat
    decreases events
  {
    if events == [] then 0
    else (if LetsIn(s, events[0], kind, token) then 1 else 0)
         + LetInCount(Apply(s, events[0]), events[1..], kind, token)
  }

  predicate Issues(e: Event, kind: Kind, token: string) { e.Issue? && e.kind == kind && e.token == token }

  function IssuedCount(events: seq<Event>, kind: Kind, token: string): nat {
    if events == [] then 0
    else (if Issues(events[0], kind, token) then 1 else 0) + IssuedCount(events[1..], kind, token)
  }

  /** In how many of the two places the token lives. */
  function Copies(s: State, key: string): nat {
    (if key in s.redis then 1 else 0) + (if key in s.memory then 1 else 0)
  }

  predicate IsFor(t: Ticket, kind: Kind, token: string) { t.kind == kind && t.token == token }

  /** Some redemption of the token sits between its read and its delete. */
  predicate UnderWay(s: System, kind: Kind, token: string) {
    exists i :: 0 <= i < |s.open| && IsFor(s.open[i], kind, token)
  }

  /** The event lets somebody in while another redemption of the same token is under way. */
  predicate Overlap(s: System, e: Event, kind: Kind, token: string) {
    LetsIn(s, e, kind, token) && UnderWay(s, kind, token)
  }

  predicate Overlaps(s: System, events: seq<Event>, kind: Kind, token: string)
    decreases events
  {
    events != [] && (Overlap(s, events[0], kind, token) || Overlaps(Apply(s, events[0]), events[1..], kind, token))
  }

  /** Redis does not change state between the read and the delete of one redemption. */
  predicate Clean(get: Reply, del: Reply) {
    if get.Ok? then !del.Down? else !del.Ok?
  }

  /** Replies that are clean, or exactly the ones named. */
  predicate Permitted(s: System, e: Event, issue: Reply, get: Reply, del: Reply) {
    match e
    case Issue(_, _, _, _, reply) => !reply.Lost? || reply == issue
    case Drop(i, d) => i < |s.open| ==> Clean(s.open[i].get, d) || (s.open[i].get == get && d == del)
    case _ => true
  }

  /** All replies of the run are permitted, and redemptions of one token overlap only if `overlap`. */
  predicate PermittedRun(s: System, events: seq<Event>, issue: Reply, get: Reply, del: Reply, overlap: bool)
    decreases events
  {
    events == [] ||
    (&& Permitted(s, events[0], issue, get, del)
     && (events[0].Read? && !overlap ==> !Overlap(s, events[0], events[0].kind, events[0].token))
     && PermittedRun(Apply(s, events[0]), events[1..], issue, get, del, overlap))
  }

  predicate CleanRun(s: System, events: seq<Event>) { PermittedRun(s, events, Ok, Ok, Ok, true) }

  // ---------------------------------------------------------------- keys

  lemma KeysApart(kind: Kind, token: string, kind': Kind, token': string)
    requires TokenKey(kind, token) == TokenKey(kind', token')
    ensures kind == kind' && token == token'
  {
    assert TokenKey(kind, token)[7] == if kind.Reset? then 'r' else 'i';
    assert TokenKey(kind', token')[7] == if kind'.Reset? then 'r' else 'i';
    var n := if kind.Reset? then 13 else 14;
    assert token == TokenKey(kind, token)[n..] == TokenKey(kind', token')[n..] == token';
  }

  lemma BlacklistApart(kind: Kind, token: string, jwt: string)
    ensures TokenKey(kind, token) != BlacklistKey(jwt)
  {
    assert TokenKey(kind, token)[7] == if kind.Reset? then 'r' else 'i';
    assert BlacklistKey(jwt)[7] == 'b';
  }

  /** An event changes the copies of a token only by issuing it or by deleting it for one of its own tickets. */
  lemma OtherKey(s: System, e: Event, kind: Kind, token: string)
    requires !Issues(e, kind, token)
    requires e.Drop? && e.ticket < |s.open| ==> !IsFor(s.open[e.ticket], kind, token)
    ensures var key := TokenKey(kind, token);
            && (key in Apply(s, e).store.redis <==> key in s.store.redis)
            && (key in s.store.redis ==> Apply(s, e).store.redis[key] == s.store.redis[key])
            && (key in Apply(s, e).store.memory <==> key in s.store.memory)
            && (key in s.store.memory ==> Apply(s, e).store.memory[key] == s.store.memory[key])
  {
    match e
    case Issue(k, t, _, _, _) => if TokenKey(k, t) == TokenKey(kind, token) { KeysApart(k, t, kind, token); }
    case Drop(i, _) =>
      if i < |s.open| && TokenKey(s.open[i].kind, s.open[i].token) == TokenKey(kind, token) {
        KeysApart(s.open[i].kind, s.open[i].token, kind, token);
      }
    case Logout(jwt, _, _, _) => BlacklistApart(kind, token, jwt);
    case Read(_, _, _, _) =>
  }

  // ---------------------------------------------------------------- single use

  /** The place a ticket was read from still holds its token. */
  predicate Holds(s: State, t: Ticket) {
    if t.get.Ok? then TokenKey(t.kind, t.token) in s.redis else TokenKey(t.kind, t.token) in s.memory
  }

  /** At most one redemption of the token is under way, and what it read is still there. */
  ghost predicate Sound(s: System, kind: Kind, token: string) {
    && (forall i, j :: 0 <= i < j < |s.open| ==> !(IsFor(s.open[i], kind, token) && IsFor(s.open[j], kind, token)))
    && (forall i :: 0 <= i < |s.open| && IsFor(s.open[i], kind, token) ==> Holds(s.store, s.open[i]))
  }

  function Bit(b: bool): nat { if b then 1 else 0 }

  /** A delete takes its ticket away and leaves the other tickets in order. */
  lemma TicketGone(s: System, i: nat, del: Reply, kind: Kind, token: string)
    requires i < |s.open|
    ensures var open := Apply(s, Drop(i, del)).open;
            forall j :: 0 <= j < |open| ==> open[j] == s.open[if j < i then j else j + 1]
    ensures !IsFor(s.open[i], kind, token) ==> UnderWay(Apply(s, Drop(i, del)), kind, token) == UnderWay(s, kind, token)
  {
    var open := Apply(s, Drop(i, del)).open;
    if !IsFor(s.open[i], kind, token) && UnderWay(s, kind, token) {
      var j :| 0 <= j < |s.open| && IsFor(s.open[j], kind, token);
      assert IsFor(open[if j < i then j else j - 1], kind, token);
    }
  }

  /** The delete of a redemption under way: its copy goes, and nobody else is under way. */
  lemma OwnDrop(s: System, i: nat, del: Reply, kind: Kind, token: string)
    requires i < |s.open| && IsFor(s.open[i], kind, token) && Sound(s, kind, token) && Clean(s.open[i].get, del)
    ensures var s' := Apply(s, Drop(i, del));
            && !UnderWay(s', kind, token) && Sound(s', kind, token)
            && Copies(s'.store, TokenKey(kind, token)) < Copies(s.store, TokenKey(kind, token))
  {
    TicketGone(s, i, del, kind, token);
  }

  lemma OtherDrop(s: System, i: nat, del: Reply, kind: Kind, token: string)
    requires i < |s.open| && !IsFor(s.open[i], kind, token) && Sound(s, kind, token)
    ensures Sound(Apply(s, Drop(i, del)), kind, token)
  {
    TicketGone(s, i, del, kind, token);
    OtherKey(s, Drop(i, del), kind, token);
  }

  /**
   * One clean event without overlap: only issuing adds a copy, and who is let in is under way until
   * its copy is gone.
   */
  lemma CleanStepConserves(s: System, e: Event, kind: Kind, token: string)
    requires Sound(s, kind, token) && Permitted(s, e, Ok, Ok, Ok) && !Overlap(s, e, kind, token)
    ensures Sound(Apply(s, e), kind, token)
    ensures Bit(LetsIn(s, e, kind, token)) + Copies(Apply(s, e).store, TokenKey(kind, token))
            + Bit(UnderWay(s, kind, token))
         <= Bit(Issues(e, kind, token)) + Copies(s.store, TokenKey(kind, token))
            + Bit(UnderWay(Apply(s, e), kind, token))
  {
    match e
    case Drop(i, del) =>
      if i < |s.open| {
        if IsFor(s.open[i], kind, token) {
          OwnDrop(s, i, del, kind, token);
        } else {
          OtherDrop(s, i, del, kind, token);
          TicketGone(s, i, del, kind, token);
          OtherKey(s, e, kind, token);
        }
      }
    case Read(_, _, _, _) => ReadConserves(s, e, kind, token);
    case Issue(_, _, _, _, _) => if !Issues(e, kind, token) { OtherKey(s, e, kind, token); }
    case Logout(_, _, _, _) => OtherKey(s, e, kind, token);
  }

  /** One more ticket at the end. */
  lemma TicketAdded(s: System, t: Ticket, kind: Kind, token: string)
    ensures var s' := s.(open := s.open + [t]);
            && (UnderWay(s', kind, token) <==> UnderWay(s, kind, token) || IsFor(t, kind, token))
            && (Sound(s, kind, token) && Holds(s.store, t) && !UnderWay(s, kind, token) ==> Sound(s', kind, token))
            && (Sound(s, kind, token) && !IsFor(t, kind, token) ==> Sound(s', kind, token))
  {
    var open := s.open + [t];
    assert forall j :: 0 <= j < |s.open| ==> open[j] == s.open[j];
    assert open[|s.open|] == t;
    if UnderWay(s, kind, token) {
      var j :| 0 <= j < |s.open| && IsFor(s.open[j], kind, token);
      assert IsFor(open[j], kind, token);
    }
  }

  lemma ReadConserves(s: System, e: Event, kind: Kind, token: string)
    requires e.Read? && Sound(s, kind, token) && !Overlap(s, e, kind, token)
    ensures Sound(Apply(s, e), kind, token)
    ensures Bit(LetsIn(s, e, kind, token)) + Bit(UnderWay(s, kind, token)) <= Bit(UnderWay(Apply(s, e), kind, token))
  {
    var found := Resolve(s.store, TokenKey(e.kind, e.token), e.now, e.get);
    if found.Some? {
      TicketAdded(s, Ticket(e.kind, e.token, found.value, e.get), kind, token);
    }
  }

  /**
   * Conservation, however Redis goes up and down between calls: as long as redemptions of the
   * token do not overlap, those let in and the copies still stored never exceed the tokens
   * issued, except for the one redemption that has yet to delete what it read.
   */
  lemma {:induction false} TokensConserved(s: System, events: seq<Event>, kind: Kind, token: string)
    requires Sound(s, kind, token) && CleanRun(s, events) && !Overlaps(s, events, kind, token)
    ensures Sound(After(s, events), kind, token)
    ensures LetInCount(s, events, kind, token) + Copies(After(s, events).store, TokenKey(kind, token))
            + Bit(UnderWay(s, kind, token))
         <= IssuedCount(events, kind, token) + Copies(s.store, TokenKey(kind, token))
            + Bit(UnderWay(After(s, events), kind, token))
    decreases events
  {
    if events != [] {
      CleanStepConserves(s, events[0], kind, token);
      TokensConserved(Apply(s, events[0]), events[1..], kind, token);
    }
  }

  /** No more are let in with the token than it was issued. */
  predicate NoReuse(events: seq<Event>, kind: Kind, token: string) {
    LetInCount(EMPTY, events, kind, token) <= IssuedCount(events, kind, token)
  }

  lemma SerialRunsConserve(events: seq<Event>, kind: Kind, token: string)
    requires CleanRun(EMPTY, events) && !Overlaps(EMPTY, events, kind, token)
    ensures NoReuse(events, kind, token)
  {
    TokensConserved(EMPTY, events, kind, token);
    var s := After(EMPTY, events);
    if UnderWay(s, kind, token) {
      var i :| 0 <= i < |s.open| && IsFor(s.open[i], kind, token);
      assert Holds(s.store, s.open[i]);
    }
  }

  /** Of two redemptions that overlap, both were let in. */
  lemma {:induction false} OverlapLetsInTwo(s: System, events: seq<Event>, kind: Kind, token: string)
    requires Overlaps(s, events, kind, token)
    ensures 2 <= LetInCount(s, events, kind, token) + Bit(UnderWay(s, kind, token))
    decreases events
  {
    var s' := Apply(s, events[0]);
    if !Overlap(s, events[0], kind, token) {
      OverlapLetsInTwo(s', events[1..], kind, token);
      OnlyReadsOpen(s, events[0], kind, token);
    }
  }

  lemma OnlyReadsOpen(s: System, e: Event, kind: Kind, token: string)
    ensures Bit(UnderWay(Apply(s, e), kind, token)) <= Bit(UnderWay(s, kind, token)) + Bit(LetsIn(s, e, kind, token))
  {
    var s' := Apply(s, e);
    if UnderWay(s', kind, token) {
      var j :| 0 <= j < |s'.open| && IsFor(s'.open[j], kind, token);
      if e.Drop? && e.ticket < |s.open| {
        TicketGone(s, e.ticket, e.del, kind, token);
        assert s'.open[j] in s.open;
      }
    }
  }

  /**
   * In every run of clean calls a token that is issued once lets in at most one redemption if
   * and only if no read finds it between the read and the delete of another redemption.
   */
  lemma SingleUseIffSerial(events: seq<Event>, kind: Kind, token: string)
    requires CleanRun(EMPTY, events) && IssuedCount(events, kind, token) <= 1
    ensures LetInCount(EMPTY, events, kind, token) <= 1 <==> !Overlaps(EMPTY, events, kind, token)
  {
    if Overlaps(EMPTY, events, kind, token) {
      OverlapLetsInTwo(EMPTY, events, kind, token);
    } else {
      SerialRunsConserve(events, kind, token);
    }
  }

  // ---------------------------------------------------------------- replies that break single use

  lemma {:induction false} PermittedIsClean(s: System, events: seq<Event>, issue: Reply, get: Reply, del: Reply,
                                            kind: Kind, token: string)
    requires !issue.Lost? && Clean(get, del) && PermittedRun(s, events, issue, get, del, false)
    ensures CleanRun(s, events) && !Overlaps(s, events, kind, token)
    decreases events
  {
    if events != [] {
      PermittedIsClean(Apply(s, events[0]), events[1..], issue, get, del, kind, token);
    }
  }

  lemma LetInCons(s: System, e: Event, rest: seq<Event>, kind: Kind, token: string)
    ensures LetInCount(s, [e] + rest, kind, token)
         == Bit(LetsIn(s, e, kind, token)) + LetInCount(Apply(s, e), rest, kind, token)
    ensures IssuedCount([e] + rest, kind, token) == Bit(Issues(e, kind, token)) + IssuedCount(rest, kind, token)
  {
    assert ([e] + rest)[1..] == rest;
  }

  lemma PermittedCons(s: System, e: Event, rest: seq<Event>, issue: Reply, get: Reply, del: Reply, overlap: bool)
    requires Permitted(s, e, issue, get, del) && PermittedRun(Apply(s, e), rest, issue, get, del, overlap)
    requires e.Read? && !overlap ==> !Overlap(s, e, e.kind, e.token)
    ensures PermittedRun(s, [e] + rest, issue, get, del, overlap)
  {
    assert ([e] + rest)[1..] == rest;
  }

  /** Issued once, read and deleted, and read again. */
  function Again(token: string, issue: Reply, get: Reply, del: Reply, again: Reply): seq<Event> {
    [Issue(Reset, token, "user", 0.0, issue)]
    + ([Read(Reset, token, 1.0, get)] + ([Drop(0, del)] + ([Read(Reset, token, 2.0, again)] + [])))
  }

  predicate Unclean(issue: Reply, get: Reply, del: Reply, again: Reply) {
    || (issue.Ok? && get.Ok? && del.Down? && again.Ok?)
    || (issue.Down? && !get.Ok? && del.Ok? && again.Down?)
    || (issue.Lost? && get.Ok? && del.Ok? && again.Down?)
  }

  /** The token survives the delete of its redemption. */
  lemma TokenSurvives(token: string, issue: Reply, get: Reply, del: Reply, again: Reply)
    returns (s1: System, s2: System, s3: System)
    requires Unclean(issue, get, del, again)
    ensures s1 == Apply(EMPTY, Issue(Reset, token, "user", 0.0, issue)) && s2 == Apply(s1, Read(Reset, token, 1.0, get))
    ensures s3 == Apply(s2, Drop(0, del))
    ensures s1.open == s3.open == [] && s2.open == [Ticket(Reset, token, "user", get)]
    ensures LetsIn(s1, Read(Reset, token, 1.0, get), Reset, token)
    ensures LetsIn(s3, Read(Reset, token, 2.0, again), Reset, token)
  {
    s1 := Apply(EMPTY, Issue(Reset, token, "user", 0.0, issue));
    s2 := Apply(s1, Read(Reset, token, 1.0, get));
    s3 := Apply(s2, Drop(0, del));
    assert s2.open == [Ticket(Reset, token, "user", get)];
    assert s3.open == [];
  }

  lemma LetInAgain(token: string, issue: Reply, get: Reply, del: Reply, again: Reply)
    requires Unclean(issue, get, del, again)
    ensures PermittedRun(EMPTY, Again(token, issue, get, del, again), issue, get, del, false)
    ensures !NoReuse(Again(token, issue, get, del, again), Reset, token)
  {
    var e0, e1, e2, e3 := Issue(Reset, token, "user", 0.0, issue), Read(Reset, token, 1.0, get), Drop(0, del),
                          Read(Reset, token, 2.0, again);
    var s1, s2, s3 := TokenSurvives(token, issue, get, del, again);
    LetInCons(s3, e3, [], Reset, token);
    LetInCons(s2, e2, [e3] + [], Reset, token);
    LetInCons(s1, e1, [e2] + ([e3] + []), Reset, token);
    LetInCons(EMPTY, e0, [e1] + ([e2] + ([e3] + [])), Reset, token);
    PermittedCons(s3, e3, [], issue, get, del, false);
    PermittedCons(s2, e2, [e3] + [], issue, get, del, false);
    PermittedCons(s1, e1, [e2] + ([e3] + []), issue, get, del, false);
    PermittedCons(EMPTY, e0, [e1] + ([e2] + ([e3] + [])), issue, get, del, false);
  }

  /** The deletes of two redemptions that have both read the token. */
  function BothDrop(): seq<Event> { [Drop(0, Ok)] + ([Drop(0, Ok)] + []) }

  /** Issued once, read twice, and both redemptions go on to delete it, with Redis up all the time. */
  function SideBySide(token: string): seq<Event> {
    [Issue(Reset, token, "user", 0.0, Ok)]
    + ([Read(Reset, token, 1.0, Ok)] + ([Read(Reset, token, 1.0, Ok)] + BothDrop()))
  }

  lemma DropBoth(s: System, token: string, issue: Reply, get: Reply, del: Reply)
    requires s.open == [Ticket(Reset, token, "user", Ok), Ticket(Reset, token, "user", Ok)]
    requires s.store == State(map[TokenKey(Reset, token) := Timed("user", 3600.0)], map[])
    ensures PermittedRun(s, BothDrop(), issue, get, del, true)
    ensures After(s, BothDrop()) == EMPTY && IssuedCount(BothDrop(), Reset, token) == 0
  {
    var e := Drop(0, Ok);
    LetInCons(s, e, [e] + [], Reset, token);
    LetInCons(s, e, [], Reset, token);
    var s1 := Apply(s, e);
    assert map[TokenKey(Reset, token) := Timed("user", 3600.0)] - {TokenKey(Reset, token)} == map[];
    assert s1 == System(State(map[], map[]), [Ticket(Reset, token, "user", Ok)]);
    assert Apply(s1, e) == EMPTY;
    PermittedCons(s1, e, [], issue, get, del, true);
    PermittedCons(s, e, [e] + [], issue, get, del, true);
    AfterCons(s, e, [e] + []);
    AfterCons(s1, e, []);
  }

  lemma LetInSideBySide(token: string, issue: Reply, get: Reply, del: Reply)
    ensures PermittedRun(EMPTY, SideBySide(token), issue, get, del, true)
    ensures !NoReuse(SideBySide(token), Reset, token)
    ensures After(EMPTY, SideBySide(token)) == EMPTY
  {
    var e0, e1 := Issue(Reset, token, "user", 0.0, Ok), Read(Reset, token, 1.0, Ok);
    var s1 := Apply(EMPTY, e0);
    var s2 := Apply(s1, e1);
    var s3 := Apply(s2, e1);
    assert LetsIn(s1, e1, Reset, token) && LetsIn(s2, e1, Reset, token);
    DropBoth(s3, token, issue, get, del);
    LetInCons(s2, e1, BothDrop(), Reset, token);
    LetInCons(s1, e1, [e1] + BothDrop(), Reset, token);
    LetInCons(EMPTY, e0, [e1] + ([e1] + BothDrop()), Reset, token);
    PermittedCons(s2, e1, BothDrop(), issue, get, del, true);
    PermittedCons(s1, e1, [e1] + BothDrop(), issue, get, del, true);
    PermittedCons(EMPTY, e0, [e1] + ([e1] + BothDrop()), issue, get, del, true);
    AfterCons(s2, e1, BothDrop());
    AfterCons(s1, e1, [e1] + BothDrop());
    AfterCons(EMPTY, e0, [e1] + ([e1] + BothDrop()));
  }

  lemma AfterCons(s: System, e: Event, rest: seq<Event>)
    ensures After(s, [e] + rest) == After(Apply(s, e), rest)
  {
    assert ([e] + rest)[1..] == rest;
  }

  /**
   * Besides clean calls, let issuing also get the reply `issue`, redeeming also the replies `get`
   * and `del`, and let redemptions of one token overlap or not. Tokens stay single-use in every
   * run if and only if the reply to the write is not lost after it took effect, Redis does not
   * change state between the read and the delete of one redemption, and no redemption reads a
   * token that another one has read and not yet deleted.
   */
  lemma SingleUseIffClean(issue: Reply, get: Reply, del: Reply, overlap: bool)
    ensures !issue.Lost? && Clean(get, del) && !overlap
       <==> forall events, kind, token ::
              PermittedRun(EMPTY, events, issue, get, del, overlap) ==> NoReuse(events, kind, token)
  {
    if !issue.Lost? && Clean(get, del) && !overlap {
      forall events, kind, token | PermittedRun(EMPTY, events, issue, get, del, overlap)
        ensures NoReuse(events, kind, token)
      {
        PermittedIsClean(EMPTY, events, issue, get, del, kind, token);
        SerialRunsConserve(events, kind, token);
      }
    } else if overlap {
      LetInSideBySide("t", issue, get, del);
    } else if issue.Lost? {
      LetInAgain("t", Lost, Ok, Ok, Down);
      MorePermitted(EMPTY, Again("t", Lost, Ok, Ok, Down), Lost, Ok, Ok, issue, get, del);
    } else if get.Ok? {
      LetInAgain("t", Ok, get, del, Ok);
      MorePermitted(EMPTY, Again("t", Ok, get, del, Ok), Ok, get, del, issue, get, del);
    } else {
      LetInAgain("t", Down, get, del, Down);
      MorePermitted(EMPTY, Again("t", Down, get, del, Down), Down, get, del, issue, get, del);
    }
  }

  /** Replies that are clean anyway need not be named. */
  lemma {:induction false} MorePermitted(s: System, events: seq<Event>, issue: Reply, get: Reply, del: Reply,
                                         issue': Reply, get': Reply, del': Reply)
    requires PermittedRun(s, events, issue, get, del, false)
    requires (issue == issue' || !issue.Lost?) && (Clean(get, del) || (get == get' && del == del'))
    ensures PermittedRun(s, events, issue', get', del', false)
    decreases events
  {
    if events != [] { MorePermitted(Apply(s, events[0]), events[1..], issue, get, del, issue', get', del'); }
  }

  // ---------------------------------------------------------------- time to live

  /** Every redemption let in with the token reads it up to `lapse` and gets `value`. */
  ghost predicate LetInOnlyUpTo(s: System, events: seq<Event>, kind: Kind, token: string, value: string, lapse: real)
    decreases events
  {
    events == [] ||
    (&& (LetsIn(s, events[0], kind, token) ==>
           && events[0].now <= lapse
           && Resolve(s.store, TokenKey(kind, token), events[0].now, events[0].get) == Some(value))
     && LetInOnlyUpTo(Apply(s, events[0]), events[1..], kind, token, value, lapse))
  }

  ghost predicate OnlyInRedis(s: State, key: string, value: string, lapse: real) {
    key !in s.memory && (key in s.redis ==> s.redis[key] == Timed(value, lapse))
  }

  /** Nothing but issuing it gives a token a copy. */
  lemma NoNewCopy(s: System, e: Event, kind: Kind, token: string)
    requires !Issues(e, kind, token)
    ensures var key := TokenKey(kind, token);
            && (key in Apply(s, e).store.redis ==>
                  key in s.store.redis && Apply(s, e).store.redis[key] == s.store.redis[key])
            && (key in Apply(s, e).store.memory ==> key in s.store.memory)
  {
    if !(e.Drop? && e.ticket < |s.open| && IsFor(s.open[e.ticket], kind, token)) { OtherKey(s, e, kind, token); }
  }

  lemma {:induction false} InRedisUntilLapse(s: System, events: seq<Event>, kind: Kind, token: string,
                                             value: string, lapse: real)
    requires OnlyInRedis(s.store, TokenKey(kind, token), value, lapse) && IssuedCount(events, kind, token) == 0
    ensures LetInOnlyUpTo(s, events, kind, token, value, lapse)
    decreases events
  {
    if events != [] {
      NoNewCopy(s, events[0], kind, token);
      InRedisUntilLapse(Apply(s, events[0]), events[1..], kind, token, value, lapse);
    }
  }

  lemma {:induction false} NeverIssuedNowhere(s: System, events: seq<Event>, kind: Kind, token: string)
    requires Copies(s.store, TokenKey(kind, token)) == 0 && IssuedCount(events, kind, token) == 0
    ensures Copies(After(s, events).store, TokenKey(kind, token)) == 0
    decreases events
  {
    if events != [] {
      NoNewCopy(s, events[0], kind, token);
      NeverIssuedNowhere(Apply(s, events[0]), events[1..], kind, token);
    }
  }

  /** The later runs in which the token is not issued again all respect its time to live. */
  ghost predicate Expires(s: System, issue: Event)
    requires issue.Issue?
  {
    forall events :: IssuedCount(events, issue.kind, issue.token) == 0 ==>
      LetInOnlyUpTo(s, events, issue.kind, issue.token, issue.value, issue.now + TtlOf(issue.kind) as real)
  }

  /**
   * A fresh token lets redemptions in only within its time to live, and with its own value, in
   * every later run if and only if its write did not raise: what falls back to memory never
   * lapses. (An empty value lets nobody in.)
   */
  lemma ExpiresIffWritten(before: seq<Event>, issue: Event)
    requires issue.Issue? && IssuedCount(before, issue.kind, issue.token) == 0
    ensures Expires(Apply(After(EMPTY, before), issue), issue) <==> issue.reply.Ok? || issue.value == ""
  {
    var s := Apply(After(EMPTY, before), issue);
    var lapse := issue.now + TtlOf(issue.kind) as real;
    NeverIssuedNowhere(EMPTY, before, issue.kind, issue.token);
    if issue.reply.Ok? {
      forall events | IssuedCount(events, issue.kind, issue.token) == 0
        ensures LetInOnlyUpTo(s, events, issue.kind, issue.token, issue.value, lapse)
      {
        InRedisUntilLapse(s, events, issue.kind, issue.token, issue.value, lapse);
      }
    } else if issue.value == "" {
      forall events | IssuedCount(events, issue.kind, issue.token) == 0
        ensures LetInOnlyUpTo(s, events, issue.kind, issue.token, issue.value, lapse)
      {
        EmptyLetsNobodyIn(s, events, issue.kind, issue.token, lapse);
      }
    } else {
      var late := Read(issue.kind, issue.token, lapse + 1.0, Down);
      assert LetsIn(s, late, issue.kind, issue.token);
      LetInCons(s, late, [], issue.kind, issue.token);
      assert IssuedCount([late] + [], issue.kind, issue.token) == 0;
      assert !LetInOnlyUpTo(s, [late] + [], issue.kind, issue.token, issue.value, lapse);
    }
  }

  ghost predicate OnlyEmpty(s: State, key: string) {
    (key in s.memory ==> s.memory[key] == "") && (key in s.redis ==> s.redis[key].value == "")
  }

  lemma {:induction false} EmptyLetsNobodyIn(s: System, events: seq<Event>, kind: Kind, token: string, lapse: real)
    requires OnlyEmpty(s.store, TokenKey(kind, token)) && IssuedCount(events, kind, token) == 0
    ensures LetInOnlyUpTo(s, events, kind, token, "", lapse)
    decreases events
  {
    if events != [] {
      var e := events[0];
      if !(e.Drop? && e.ticket < |s.open| && IsFor(s.open[e.ticket], kind, token)) { OtherKey(s, e, kind, token); }
      EmptyLetsNobodyIn(Apply(s, e), events[1..], kind, token, lapse);
    }
  }

  // ---------------------------------------------------------------- a token is honoured

  /** The events neither issue the token again nor delete it for one of its redemptions. */
  predicate LeftAlone(s: System, events: seq<Event>, kind: Kind, token: string)
    decreases events
  {
    events == [] ||
    (&& !Issues(events[0], kind, token)
     && !(events[0].Drop? && events[0].ticket < |s.open| && IsFor(s.open[events[0].ticket], kind, token))
     && LeftAlone(Apply(s, events[0]), events[1..], kind, token))
  }

  /** Its copies stay as they are. */
  lemma {:induction false} CopiesStay(s: System, events: seq<Event>, kind: Kind, token: string)
    requires LeftAlone(s, events, kind, token)
    ensures var key, s' := TokenKey(kind, token), After(s, events).store;
            && (key in s'.redis <==> key in s.store.redis)
            && (key in s.store.redis ==> s'.redis[key] == s.store.redis[key])
            && (key in s'.memory <==> key in s.store.memory)
            && (key in s.store.memory ==> s'.memory[key] == s.store.memory[key])
    decreases events
  {
    if events != [] {
      OtherKey(s, events[0], kind, token);
      CopiesStay(Apply(s, events[0]), events[1..], kind, token);
    }
  }

  /**
   * A token is honoured: issued at t by a write that reached Redis, and after any events that
   * neither issue it again nor delete it, a redemption that reads Redis is let in, and with the
   * value issued, exactly up to an hour after t for a reset and 48 hours for an invite. A write
   * that raised is honoured by every redemption that finds Redis down.
   */
  lemma Honoured(s: System, kind: Kind, token: string, value: string, t: real, reply: Reply, events: seq<Event>,
                 u: real, get: Reply)
    requires value != "" && LeftAlone(Apply(s, Issue(kind, token, value, t, reply)), events, kind, token)
    ensures var s' := After(Apply(s, Issue(kind, token, value, t, reply)), events);
            var read := Read(kind, token, u, get);
            var inTime := u <= t + (match kind case Reset => 3600.0 case Invite => 172800.0);
            && (!reply.Down? && get.Ok? ==> (LetsIn(s', read, kind, token) <==> inTime))
            && (!reply.Ok? && !get.Ok? ==> LetsIn(s', read, kind, token))
            && (LetsIn(s', read, kind, token) && (if get.Ok? then !reply.Down? else !reply.Ok?) ==>
                  Apply(s', read).open == s'.open + [Ticket(kind, token, value, get)])
  {
    CopiesStay(Apply(s, Issue(kind, token, value, t, reply)), events, kind, token);
  }

  // ---------------------------------------------------------------- logout

  /** The token is blacklisted in Redis up to less than a second before it expires. */
  ghost predicate Blacklisted(s: State, jwt: string, exp: int) {
    BlacklistKey(jwt) in s.redis && s.redis[BlacklistKey(jwt)].value == "1"
    && exp as real - 1.0 < s.redis[BlacklistKey(jwt)].lapse
  }

  /** Every event that concerns the token knows its one expiry. */
  ghost predicate OneExpiry(events: seq<Event>, jwt: string, exp: int) {
    forall i :: 0 <= i < |events| && events[i].Logout? && events[i].jwt == jwt ==> events[i].exp == exp
  }

  lemma BlacklistKeyInjective(a: string, b: string)
    requires BlacklistKey(a) == BlacklistKey(b)
    ensures a == b
  {
    assert a == BlacklistKey(a)[17..] == BlacklistKey(b)[17..] == b;
  }

  lemma {:induction false} StaysBlacklisted(s: System, events: seq<Event>, jwt: string, exp: int)
    requires Blacklisted(s.store, jwt, exp) && OneExpiry(events, jwt, exp)
    ensures Blacklisted(After(s, events).store, jwt, exp)
    decreases events
  {
    if events != [] {
      var e := events[0];
      match e {
        case Logout(other, _, _, _) =>
          if BlacklistKey(other) == BlacklistKey(jwt) { BlacklistKeyInjective(other, jwt); }
        case Issue(kind, token, _, _, _) => BlacklistApart(kind, token, jwt);
        case Drop(i, _) => if i < |s.open| { BlacklistApart(s.open[i].kind, s.open[i].token, jwt); }
        case Read(_, _, _, _) =>
      }
      assert OneExpiry(events[1..], jwt, exp) by {
        assert forall i :: 0 <= i < |events[1..]| ==> events[1..][i] == events[i + 1];
      }
      StaysBlacklisted(Apply(s, e), events[1..], jwt, exp);
    }
  }

  /**
   * After a logout that reached Redis, and whatever happens to the store afterwards, a refresh
   * that reaches Redis is accepted at most in the last second before the token expires.
   */
  lemma LogoutBound(s: System, jwt: string, exp: int, at: real, between: seq<Event>, t: real)
    requires at < exp as real && OneExpiry(between, jwt, exp)
    requires RefreshVerdict(After(Apply(s, Logout(jwt, exp, at, Ok)), between).store, jwt, exp, t, Ok).Accepted?
    ensures exp as real - 1.0 < t < exp as real
  {
    StaysBlacklisted(Apply(s, Logout(jwt, exp, at, Ok)), between, jwt, exp);
  }

  /**
   * Without a further logout the token is revoked for its truncated remaining lifetime, at least a
   * second, and accepted in what truncating leaves open.
   */
  lemma LogoutGapExact(s: State, jwt: string, exp: int, at: real, t: real)
    requires at < exp as real && at <= t
    ensures RefreshVerdict(LogoutStep(s, jwt, exp, at, Ok), jwt, exp, t, Ok)
         == if t <= at + BlacklistTtl(exp, at) as real then Revoked else if t < exp as real then Accepted else Expired
    ensures at + BlacklistTtl(exp, at) as real < exp as real
       <==> 1.0 < exp as real - at && (exp as real - at).Floor as real != exp as real - at
  {
  }

  /** Logging out an expired token changes nothing. */
  lemma ExpiredLogout(s: System, jwt: string, exp: int, at: real, reply: Reply)
    requires exp as real <= at
    ensures Apply(s, Logout(jwt, exp, at, reply)) == s
  {
  }

  /** A token that was never logged out is accepted exactly until it expires. */
  lemma {:induction false} NeverLoggedOut(s: System, events: seq<Event>, jwt: string, exp: int, t: real, reply: Reply)
    requires BlacklistKey(jwt) !in s.store.redis && BlacklistKey(jwt) !in s.store.memory
    requires forall i :: 0 <= i < |events| ==> !(events[i].Logout? && events[i].jwt == jwt)
    ensures RefreshVerdict(After(s, events).store, jwt, exp, t, reply) == if t < exp as real then Accepted else Expired
    decreases events
  {
    if events != [] {
      var e := events[0];
      match e {
        case Logout(other, _, _, _) =>
          if BlacklistKey(other) == BlacklistKey(jwt) { BlacklistKeyInjective(other, jwt); }
        case Issue(kind, token, _, _, _) => BlacklistApart(kind, token, jwt);
        case Drop(i, _) => if i < |s.open| { BlacklistApart(s.open[i].kind, s.open[i].token, jwt); }
        case Read(_, _, _, _) =>
      }
      assert forall i :: 0 <= i < |events[1..]| ==> events[1..][i] == events[i + 1];
      NeverLoggedOut(Apply(s, e), events[1..], jwt, exp, t, reply);
    }
  }
}
