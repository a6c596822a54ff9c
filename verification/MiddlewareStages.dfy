/**
 * A request waits for Redis three times. When the three pipelines of concurrent requests
 * interleave in any order, exactly as many of an identity's requests pass as one after another.
 */
module MiddlewareStages {
  import opened Windows
  import opened RedisCounters
  import opened Endpoints
  import opened Middleware
  import opened MiddlewareKeys
  import opened MiddlewareIsolation
  import opened MiddlewareBudget
  import opened MiddlewareWindow

  /** Where a request stands: what the pipelines so far left of their windows, and the burst counter's reset. */
  datatype Phase =
    | AtBurst
    | AtSustained(remaining: int, reset: int)
    | AtEndpoint(remaining: int, reset: int)
    | Ended(response: Response)

  datatype Process = Process(req: Request, phase: Phase)

  datatype System = System(redis: Store, procs: seq<Process>)

  /** The request that moves, and when. */
  datatype Move = Move(index: nat, now: real)

  // ---------------------------------------------------------------- one pipeline

  function CounterAt(p: Process): Counter {
    match p.phase
    case AtBurst => Burst
    case AtSustained(_, _) => Sustained
    case _ => Endpoint(EndpointOf(p.req))
  }

  function ReplyAt(p: Process): Reply {
    match p.phase
    case AtBurst => p.req.burstReply
    case AtSustained(_, _) => p.req.sustainedReply
    case _ => p.req.endpointReply
  }

  function ScopeName(c: Counter): string {
    match c
    case Burst => "burst"
    case Sustained => "sustained"
    case Endpoint(_) => "endpoint-burst"
  }

  /** What a pipeline's answer makes of the request. */
  function NextPhase(cfg: Config, p: Process, hit: Hit): Phase {
    var w, c := WhoIs(p.req), CounterAt(p);
    match hit
    case Raised => Ended(Bypass)
    case Counted(false, _, reset) => Ended(Refused(ScopeName(c), LimitOf(cfg, w, c), reset))
    case Counted(true, remaining, reset) =>
      match p.phase
      case AtBurst => AtSustained(remaining, reset)
      case AtSustained(left, first) => AtEndpoint(Min(left, remaining), first)
      case AtEndpoint(left, first) => Ended(Allowed(BurstLimit(cfg, w), Min(left, remaining), first, w.scope))
      case Ended(_) => p.phase
  }

  function StageStep(cfg: Config, s: Store, p: Process, now: real): (Store, Process) {
    if p.phase.Ended? then (s, p)
    else if p.phase.AtBurst? && Exempt(cfg, p.req.path) then (s, p.(phase := Ended(Bypass)))
    else
      var w, c := WhoIs(p.req), CounterAt(p);
      var (s', hit) := HitStep(s, KeyOf(cfg, w, c), LimitOf(cfg, w, c), WindowOf(c), now, ReplyAt(p));
      (s', p.(phase := NextPhase(cfg, p, hit)))
  }

  /** The three pipelines of one request at one instant, with nothing between them, are the whole check. */
  lemma StagesAreCheck(cfg: Config, s: Store, r: Request)
    ensures var (s1, p1) := StageStep(cfg, s, Process(r, AtBurst), r.now);
            var (s2, p2) := StageStep(cfg, s1, p1, r.now);
            var (s3, p3) := StageStep(cfg, s2, p2, r.now);
            s3 == CheckStep(cfg, s, r).0 && p3 == Process(r, Ended(CheckStep(cfg, s, r).1))
  {
  }

  // ---------------------------------------------------------------- runs

  function Start(s: Store, reqs: seq<Request>): System {
    System(s, seq(|reqs|, i requires 0 <= i < |reqs| => Process(reqs[i], AtBurst)))
  }

  function Next(cfg: Config, s: System, m: Move): System {
    if m.index < |s.procs| then
      var (redis, p) := StageStep(cfg, s.redis, s.procs[m.index], m.now);
      System(redis, s.procs[m.index := p])
    else s
  }

  function Run(cfg: Config, s: System, moves: seq<Move>): System
    decreases moves
  {
    if moves == [] then s else Run(cfg, Next(cfg, s, moves[0]), moves[1..])
  }

  // ---------------------------------------------------------------- counting

  /** How many counters the request has hit. */
  function Hits(p: Process): nat {
    match p.phase
    case AtBurst => 0
    case AtSustained(_, _) => 1
    case AtEndpoint(_, _) => 2
    case Ended(Bypass) => 0
    case Ended(Allowed(_, _, _, _)) => 3
    case Ended(Refused(scope, _, _)) => if scope == "burst" then 1 else if scope == "sustained" then 2 else 3
  }

  /** And how many of them let it through. */
  function Passes(p: Process): nat {
    if p.phase.Ended? && p.phase.response.Refused? then Hits(p) - 1 else Hits(p)
  }

  /** It has hit counter `k` of its three, or was let through by it. */
  predicate Marked(p: Process, k: nat, passed: bool) { k < if passed then Passes(p) else Hits(p) }

  /** How many requests of the identity have hit their `k`-th counter, or were let through by it. */
  function Tally(procs: seq<Process>, w: Who, k: nat, passed: bool): nat {
    if procs == [] then 0
    else (if WhoIs(procs[0].req) == w && Marked(procs[0], k, passed) then 1 else 0) + Tally(procs[1..], w, k, passed)
  }

  function Own(procs: seq<Process>, w: Who): nat {
    if procs == [] then 0 else (if WhoIs(procs[0].req) == w then 1 else 0) + Own(procs[1..], w)
  }

  lemma {:induction false} TallyUpdate(procs: seq<Process>, i: nat, p: Process, w: Who, k: nat, passed: bool)
    requires i < |procs| && p.req == procs[i].req
    ensures var before, after := Marked(procs[i], k, passed), Marked(p, k, passed);
            Tally(procs[i := p], w, k, passed)
            == if WhoIs(p.req) != w || before == after then Tally(procs, w, k, passed)
               else if after then Tally(procs, w, k, passed) + 1
               else Tally(procs, w, k, passed) - 1
  {
    if i == 0 {
      assert procs[0 := p][1..] == procs[1..];
    } else {
      TallyUpdate(procs[1..], i - 1, p, w, k, passed);
      assert procs[i := p][1..] == procs[1..][i - 1 := p];
    }
  }

  // ---------------------------------------------------------------- the invariant

  /** The counter of stage `k`. */
  function Stage(e: string, k: nat): Counter { if k == 0 then Burst else if k == 1 then Sustained else Endpoint(e) }

  /** What the counter of stage `k` had left at the start. */
  function Left(cfg: Config, s: Store, w: Who, e: string, k: nat): nat {
    AtLeastZero(LimitOf(cfg, w, Stage(e, k)) - CountOf(s, KeyOf(cfg, w, Stage(e, k))))
  }

  /** The counter runs, has counted the requests that hit it, and has let the first through that it had room for. */
  ghost predicate StageOk(cfg: Config, s0: Store, s: System, w: Who, e: string, horizon: real, k: nat) {
    var key := KeyOf(cfg, w, Stage(e, k));
    && Running(s.redis, key, horizon)
    && CountOf(s.redis, key) == CountOf(s0, key) + Tally(s.procs, w, k, false)
    && Tally(s.procs, w, k, true) == Min(Tally(s.procs, w, k, false), Left(cfg, s0, w, e, k))
  }

  ghost predicate StagesOk(cfg: Config, s0: Store, s: System, w: Who, e: string, horizon: real) {
    forall k: nat :: k < 3 ==> StageOk(cfg, s0, s, w, e, horizon, k)
  }

  /** Requests of the identity are to one endpoint, not exempt, and find Redis up; all others are apart from it. */
  predicate Plain(cfg: Config, r: Request, e: string) { EndpointOf(r) == e && RedisUp(r) && !Exempt(cfg, r.path) }

  ghost predicate AllPlain(cfg: Config, procs: seq<Process>, w: Who, e: string) {
    forall i :: 0 <= i < |procs| ==>
      && Token(procs[i].req.verb)
      && if WhoIs(procs[i].req) == w then Plain(cfg, procs[i].req, e) && !(procs[i].phase == Ended(Bypass))
         else Apart(w, WhoIs(procs[i].req))
  }

  /** A pipeline of another identity leaves the counters alone. */
  lemma OtherMoves(cfg: Config, s: Store, p: Process, now: real, w: Who, e: string, k: nat)
    requires Scoped(w) && IsEndpoint(e) && Token(p.req.verb) && WhoIs(p.req) != w && Apart(w, WhoIs(p.req))
    ensures Same(s, StageStep(cfg, s, p, now).0, KeyOf(cfg, w, Stage(e, k)))
    ensures StageStep(cfg, s, p, now).1.req == p.req
  {
    OthersKeys(cfg, w, p.req, e);
    var v, c := WhoIs(p.req), CounterAt(p);
    HitFrame(s, KeyOf(cfg, v, c), LimitOf(cfg, v, c), WindowOf(c), now, ReplyAt(p), KeyOf(cfg, w, Stage(e, k)));
  }

  /** A pipeline of the identity hits the counter of its stage, and passes exactly if that has room. */
  lemma OwnMoves(cfg: Config, s: Store, p: Process, now: real, e: string, horizon: real)
    requires Plain(cfg, p.req, e) && !p.phase.Ended? && now <= horizon
    requires Running(s, KeyOf(cfg, WhoIs(p.req), Stage(e, Hits(p))), horizon)
    ensures var w, k := WhoIs(p.req), Hits(p);
            var key := KeyOf(cfg, w, Stage(e, k));
            var (s', p') := StageStep(cfg, s, p, now);
            && k < 3 && s' == s[key := s[key].(count := s[key].count + 1)]
            && p'.req == p.req && p'.phase != Ended(Bypass) && Hits(p') == k + 1
            && Passes(p') == if CountOf(s, key) < LimitOf(cfg, w, Stage(e, k)) then k + 1 else k
  {
    var w, k := WhoIs(p.req), Hits(p);
    var c := Stage(e, k);
    RunningHit(s, KeyOf(cfg, w, c), LimitOf(cfg, w, c), WindowOf(c), now, horizon);
  }

  /** The counter that a pipeline of the identity hits. */
  lemma OwnStageHit(cfg: Config, s0: Store, s: System, m: Move, w: Who, e: string, horizon: real, k: nat)
    requires m.index < |s.procs| && WhoIs(s.procs[m.index].req) == w && m.now <= horizon && k < 3
    requires Plain(cfg, s.procs[m.index].req, e) && !s.procs[m.index].phase.Ended?
    requires Hits(s.procs[m.index]) == k && StageOk(cfg, s0, s, w, e, horizon, k)
    ensures StageOk(cfg, s0, Next(cfg, s, m), w, e, horizon, k)
  {
    var p := s.procs[m.index];
    var p' := StageStep(cfg, s.redis, p, m.now).1;
    OwnMoves(cfg, s.redis, p, m.now, e, horizon);
    TallyUpdate(s.procs, m.index, p', w, k, false);
    TallyUpdate(s.procs, m.index, p', w, k, true);
  }

  /** The keys of different stages differ. */
  lemma StageKeys(cfg: Config, w: Who, e: string, j: nat, k: nat)
    requires j < k < 3
    ensures KeyOf(cfg, w, Stage(e, j)) != KeyOf(cfg, w, Stage(e, k))
  {
    FamiliesDisjoint(cfg, w, w, e);
  }

  /** The counters that it does not hit. */
  lemma OwnStageStays(cfg: Config, s0: Store, s: System, m: Move, w: Who, e: string, horizon: real, j: nat, k: nat)
    requires m.index < |s.procs| && WhoIs(s.procs[m.index].req) == w && m.now <= horizon && j != k && k < 3 && j < 3
    requires Plain(cfg, s.procs[m.index].req, e) && !s.procs[m.index].phase.Ended?
    requires Hits(s.procs[m.index]) == j
    requires StageOk(cfg, s0, s, w, e, horizon, j) && StageOk(cfg, s0, s, w, e, horizon, k)
    ensures StageOk(cfg, s0, Next(cfg, s, m), w, e, horizon, k)
  {
    var p := s.procs[m.index];
    var p' := StageStep(cfg, s.redis, p, m.now).1;
    OwnMoves(cfg, s.redis, p, m.now, e, horizon);
    if j < k { StageKeys(cfg, w, e, j, k); } else { StageKeys(cfg, w, e, k, j); }
    TallyUpdate(s.procs, m.index, p', w, k, false);
    TallyUpdate(s.procs, m.index, p', w, k, true);
  }

  lemma OtherStageStays(cfg: Config, s0: Store, s: System, m: Move, w: Who, e: string, horizon: real, k: nat)
    requires Scoped(w) && IsEndpoint(e) && m.index < |s.procs| && AllPlain(cfg, s.procs, w, e)
    requires WhoIs(s.procs[m.index].req) != w && StageOk(cfg, s0, s, w, e, horizon, k)
    ensures StageOk(cfg, s0, Next(cfg, s, m), w, e, horizon, k)
  {
    var p := s.procs[m.index];
    var p' := StageStep(cfg, s.redis, p, m.now).1;
    OtherMoves(cfg, s.redis, p, m.now, w, e, k);
    TallyUpdate(s.procs, m.index, p', w, k, false);
    TallyUpdate(s.procs, m.index, p', w, k, true);
  }

  lemma EndedStays(cfg: Config, s: System, m: Move)
    requires m.index >= |s.procs| || s.procs[m.index].phase.Ended?
    ensures Next(cfg, s, m) == s
  {
    if m.index < |s.procs| { assert s.procs[m.index := s.procs[m.index]] == s.procs; }
  }

  /** Every move keeps the account of every stage. */
  lemma NextStages(cfg: Config, s0: Store, s: System, m: Move, w: Who, e: string, horizon: real)
    requires Scoped(w) && IsEndpoint(e) && m.now <= horizon && AllPlain(cfg, s.procs, w, e)
    requires StagesOk(cfg, s0, s, w, e, horizon)
    ensures StagesOk(cfg, s0, Next(cfg, s, m), w, e, horizon)
  {
    forall k: nat | k < 3 ensures StageOk(cfg, s0, Next(cfg, s, m), w, e, horizon, k) {
      assert StageOk(cfg, s0, s, w, e, horizon, k);
      if m.index >= |s.procs| || s.procs[m.index].phase.Ended? {
        EndedStays(cfg, s, m);
      } else if WhoIs(s.procs[m.index].req) != w {
        OtherStageStays(cfg, s0, s, m, w, e, horizon, k);
      } else {
        var j := Hits(s.procs[m.index]);
        assert StageOk(cfg, s0, s, w, e, horizon, j);
        if j == k { OwnStageHit(cfg, s0, s, m, w, e, horizon, k); }
        else { OwnStageStays(cfg, s0, s, m, w, e, horizon, j, k); }
      }
    }
  }

  /** It changes no request, and lets no request of the identity by. */
  lemma NextPlain(cfg: Config, s0: Store, s: System, m: Move, w: Who, e: string, horizon: real)
    requires m.now <= horizon && AllPlain(cfg, s.procs, w, e) && StagesOk(cfg, s0, s, w, e, horizon)
    ensures AllPlain(cfg, Next(cfg, s, m).procs, w, e) && Own(Next(cfg, s, m).procs, w) == Own(s.procs, w)
  {
    if m.index >= |s.procs| || s.procs[m.index].phase.Ended? {
      EndedStays(cfg, s, m);
    } else {
      var p := s.procs[m.index];
      if WhoIs(p.req) == w {
        assert StageOk(cfg, s0, s, w, e, horizon, Hits(p));
        OwnMoves(cfg, s.redis, p, m.now, e, horizon);
      }
      OwnUpdate(s.procs, m.index, StageStep(cfg, s.redis, p, m.now).1, w);
    }
  }

  lemma {:induction false} OwnUpdate(procs: seq<Process>, i: nat, p: Process, w: Who)
    requires i < |procs| && p.req == procs[i].req
    ensures Own(procs[i := p], w) == Own(procs, w)
  {
    if i == 0 {
      assert procs[0 := p][1..] == procs[1..];
    } else {
      OwnUpdate(procs[1..], i - 1, p, w);
      assert procs[i := p][1..] == procs[1..][i - 1 := p];
    }
  }

  lemma {:induction false} RunStages(cfg: Config, s0: Store, s: System, moves: seq<Move>, w: Who, e: string,
                                     horizon: real)
    requires Scoped(w) && IsEndpoint(e) && (forall i :: 0 <= i < |moves| ==> moves[i].now <= horizon)
    requires AllPlain(cfg, s.procs, w, e) && StagesOk(cfg, s0, s, w, e, horizon)
    ensures var s' := Run(cfg, s, moves);
            StagesOk(cfg, s0, s', w, e, horizon) && AllPlain(cfg, s'.procs, w, e) && Own(s'.procs, w) == Own(s.procs, w)
    decreases moves
  {
    if moves != [] {
      NextStages(cfg, s0, s, moves[0], w, e, horizon);
      NextPlain(cfg, s0, s, moves[0], w, e, horizon);
      assert forall i :: 0 <= i < |moves[1..]| ==> moves[1..][i] == moves[i + 1];
      RunStages(cfg, s0, Next(cfg, s, moves[0]), moves[1..], w, e, horizon);
    }
  }

  // ---------------------------------------------------------------- the budget

  /** How many requests of the identity have passed all three windows. */
  function Passed(procs: seq<Process>, w: Who): nat {
    if procs == [] then 0
    else (if WhoIs(procs[0].req) == w && procs[0].phase.Ended? && procs[0].phase.response.Allowed? then 1 else 0)
         + Passed(procs[1..], w)
  }

  ghost predicate AllEnded(procs: seq<Process>, w: Who) {
    forall i :: 0 <= i < |procs| && WhoIs(procs[i].req) == w ==> procs[i].phase.Ended?
  }

  /** No request of the identity was let by without a verdict. */
  ghost predicate NoneBypassed(procs: seq<Process>, w: Who) {
    forall i :: 0 <= i < |procs| && WhoIs(procs[i].req) == w ==> procs[i].phase != Ended(Bypass)
  }

  /** Each stage is reached at most by those that the one before let through, and by all of them in the end. */
  lemma {:induction false} TallyChain(procs: seq<Process>, w: Who)
    requires NoneBypassed(procs, w)
    ensures Tally(procs, w, 0, false) <= Own(procs, w) && Tally(procs, w, 1, false) <= Tally(procs, w, 0, true)
    ensures Tally(procs, w, 2, false) <= Tally(procs, w, 1, true) && Tally(procs, w, 2, true) == Passed(procs, w)
    ensures AllEnded(procs, w) ==>
              && Tally(procs, w, 0, false) == Own(procs, w) && Tally(procs, w, 1, false) == Tally(procs, w, 0, true)
              && Tally(procs, w, 2, false) == Tally(procs, w, 1, true)
  {
    if procs != [] {
      var rest := procs[1..];
      assert forall i :: 0 <= i < |rest| ==> rest[i] == procs[i + 1];
      TallyChain(rest, w);
    }
  }

  lemma {:induction false} StartTally(procs: seq<Process>, w: Who, k: nat, passed: bool)
    requires forall i :: 0 <= i < |procs| ==> procs[i].phase.AtBurst?
    ensures Tally(procs, w, k, passed) == 0
  {
    if procs != [] { StartTally(procs[1..], w, k, passed); }
  }

  lemma {:induction false} StartOwn(s: Store, reqs: seq<Request>, w: Who)
    ensures Own(Start(s, reqs).procs, w) == |Only(reqs, w)|
  {
    if reqs != [] {
      StartOwn(s, reqs[1..], w);
      assert Start(s, reqs).procs[1..] == Start(s, reqs[1..]).procs;
    }
  }

  lemma StartOk(cfg: Config, s: Store, reqs: seq<Request>, w: Who, e: string, horizon: real)
    requires AllRunning(cfg, s, w, e, horizon)
    ensures StagesOk(cfg, s, Start(s, reqs), w, e, horizon)
  {
    forall k: nat | k < 3 ensures StageOk(cfg, s, Start(s, reqs), w, e, horizon, k) {
      StartTally(Start(s, reqs).procs, w, k, false);
      StartTally(Start(s, reqs).procs, w, k, true);
    }
  }

  lemma MarginIsLeast(cfg: Config, s: Store, w: Who, e: string)
    ensures AtLeastZero(Margin(cfg, s, w, e))
         == Min(Min(Left(cfg, s, w, e, 0), Left(cfg, s, w, e, 1)), Left(cfg, s, w, e, 2))
  {
  }

  /** What the accounts of the three stages come to. */
  lemma StagesAddUp(cfg: Config, s0: Store, s: System, w: Who, e: string, horizon: real)
    requires StagesOk(cfg, s0, s, w, e, horizon) && NoneBypassed(s.procs, w)
    ensures Passed(s.procs, w) <= AtLeastZero(Margin(cfg, s0, w, e))
    ensures AllEnded(s.procs, w) ==> Passed(s.procs, w) == Min(Own(s.procs, w), AtLeastZero(Margin(cfg, s0, w, e)))
  {
    TallyChain(s.procs, w);
    MarginIsLeast(cfg, s0, w, e);
    assert StageOk(cfg, s0, s, w, e, horizon, 0);
    assert StageOk(cfg, s0, s, w, e, horizon, 1);
    assert StageOk(cfg, s0, s, w, e, horizon, 2);
  }

  /**
   * While no counter of the identity at the endpoint lapses and Redis is up, however the pipelines
   * of its requests interleave with each other and with those of identities apart from it: never
   * have more passed than its tightest window has left, and when all have been answered exactly
   * that many have, or all if they are fewer, and the others have been refused.
   */
  lemma InterleavedBudget(cfg: Config, s: Store, reqs: seq<Request>, moves: seq<Move>, w: Who, e: string, horizon: real)
    requires Scoped(w) && ApartFrom(reqs, w) && IsEndpoint(e) && AllRunning(cfg, s, w, e, horizon)
    requires forall i :: 0 <= i < |reqs| && WhoIs(reqs[i]) == w ==> Plain(cfg, reqs[i], e)
    requires forall i :: 0 <= i < |moves| ==> moves[i].now <= horizon
    ensures var procs, room := Run(cfg, Start(s, reqs), moves).procs, AtLeastZero(Margin(cfg, s, w, e));
            && Passed(procs, w) <= room
            && (AllEnded(procs, w) ==> Passed(procs, w) == Min(|Only(reqs, w)|, room))
            && NoneBypassed(procs, w)
  {
    StartOk(cfg, s, reqs, w, e, horizon);
    StartOwn(s, reqs, w);
    RunStages(cfg, s, Start(s, reqs), moves, w, e, horizon);
    StagesAddUp(cfg, s, Run(cfg, Start(s, reqs), moves), w, e, horizon);
  }

  /**
   * `first` passes with X-RateLimit-Remaining r. Of n further requests to the endpoint, whose
   * pipelines interleave in any way, exactly r pass, or all n if they are fewer.
   */
  lemma AdvertisedBudgetInterleaved(cfg: Config, s: Store, first: Request, s': Store, response: Response,
                                    later: seq<Request>, moves: seq<Move>, horizon: real)
    requires CheckStep(cfg, s, first) == (s', response) && response.Allowed? && Token(first.verb)
    requires ApartFrom(later, WhoIs(first))
    requires forall i :: 0 <= i < |later| && WhoIs(later[i]) == WhoIs(first) ==> Plain(cfg, later[i], EndpointOf(first))
    requires AllRunning(cfg, s', WhoIs(first), EndpointOf(first), horizon)
    requires forall i :: 0 <= i < |moves| ==> moves[i].now <= horizon
    ensures var procs := Run(cfg, Start(s', later), moves).procs;
            && Passed(procs, WhoIs(first)) <= response.remaining
            && (AllEnded(procs, WhoIs(first)) ==>
                  Passed(procs, WhoIs(first)) == Min(|Only(later, WhoIs(first))|, response.remaining))
  {
    RemainingIsMargin(cfg, s, first);
    RequestEndpoint(first);
    InterleavedBudget(cfg, s', later, moves, WhoIs(first), EndpointOf(first), horizon);
  }
}
