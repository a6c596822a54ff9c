/**
 * The two-tier intelligence cache: every worker has its own first tier, and all share a second
 * one in Redis. Calls of all workers overlap: each waits for Redis in its middle. A worker's
 * answer can be older than the latest write, but not by much.
 */
module TieredCache {
  import opened Basics
  import opened RedisCounters

  const L1_SECONDS: real := 900.0

  const DEFAULT_TTL := 86400

  /** A value with its expiry: gone from then on in a worker, and after it in Redis. */
  datatype Cell = Cell(expiry: real, value: string)

  type Tier = map<string, Cell>

  predicate Fresh(tier: Tier, id: string, now: real) { id in tier && now < tier[id].expiry }

  /** What Redis still has. */
  predicate Held(tier: Tier, id: string, now: real) { id in tier && now <= tier[id].expiry }

  /** A time to live of zero counts as not given. */
  function ActualTtl(ttl: Option<int>): int {
    if ttl.Some? && ttl.value != 0 then ttl.value else DEFAULT_TTL
  }

  // ---------------------------------------------------------------- specification of one worker

  /** A get begins with the first tier: it answers from a fresh cell, and drops an expired one. */
  function LookAnswer(l1: Tier, id: string, now: real): Option<string> {
    if Fresh(l1, id, now) then Some(l1[id].value) else None
  }

  function Looked(l1: Tier, id: string, now: real): Tier { if Fresh(l1, id, now) then l1 else l1 - {id} }

  /** What Redis answers to a get. */
  function ReadAnswer(l2: Tier, id: string, now: real, reply: Reply): Option<string> {
    if reply.Ok? && Held(l2, id, now) then Some(l2[id].value) else None
  }

  function Kept(l1: Tier, id: string, value: string, now: real): Tier { l1[id := Cell(now + L1_SECONDS, value)] }

  /** Redis refuses a time to live that is not positive. */
  function SetL2(l2: Tier, id: string, value: string, ttl: int, now: real, reply: Reply): Tier {
    if reply.Down? || ttl <= 0 then l2 else l2[id := Cell(now + ttl as real, value)]
  }

  function DeleteL2(l2: Tier, id: string, reply: Reply): Tier {
    if reply.Down? then l2 else l2 - {id}
  }

  class SharedTier {
    var cells: Tier
  }

  /** Each operation comes in its parts, between which others can run, and as a whole. */
  class Worker {
    var l1: Tier
    const shared: SharedTier

    constructor (shared: SharedTier)
      ensures l1 == map[] && this.shared == shared
    {
      l1, this.shared := map[], shared;
    }

    method StartGet(id: string, now: real) returns (value: Option<string>)
      modifies this`l1
      ensures value == LookAnswer(old(l1), id, now) && l1 == Looked(old(l1), id, now)
    {
      if id in l1 {
        if now < l1[id].expiry { return Some(l1[id].value); }
        l1 := l1 - {id};
      }
      value := None;
    }

    method FinishGet(id: string, cached: Option<string>, now: real)
      modifies this`l1
      ensures l1 == if cached.Some? then Kept(old(l1), id, cached.value, now) else old(l1)
    {
      if cached.Some? { l1 := l1[id := Cell(now + L1_SECONDS, cached.value)]; }
    }

    /** A get that nothing comes between; Redis reads at `at`, and the answer arrives at `later`. */
    method Get(id: string, now: real, at: real, later: real, reply: Reply) returns (value: Option<string>)
      modifies this`l1
      ensures var hit, cached := LookAnswer(old(l1), id, now), ReadAnswer(shared.cells, id, at, reply);
              && value == (if hit.Some? then hit else cached)
              && l1 == if hit.Some? then old(l1)
                       else if cached.Some? then Kept(old(l1), id, cached.value, later)
                       else old(l1) - {id}
    {
      value := StartGet(id, now);
      if value.None? {
        if reply.Ok? && Held(shared.cells, id, at) { value := Some(shared.cells[id].value); }
        FinishGet(id, value, later);
      }
    }

    method StartSet(id: string, value: string, now: real)
      modifies this`l1
      ensures l1 == Kept(old(l1), id, value, now)
    {
      l1 := l1[id := Cell(now + L1_SECONDS, value)];
    }

    method FinishSet(id: string, value: string, ttl: Option<int>, now: real, reply: Reply)
      modifies shared
      ensures shared.cells == SetL2(old(shared.cells), id, value, ActualTtl(ttl), now, reply)
    {
      var actual := DEFAULT_TTL;
      if ttl.Some? && ttl.value != 0 { actual := ttl.value; }
      if !reply.Down? && 0 < actual {
        shared.cells := shared.cells[id := Cell(now + actual as real, value)];
      }
    }

    method Set(id: string, value: string, ttl: Option<int>, now: real, later: real, reply: Reply)
      modifies this`l1, shared
      ensures l1 == Kept(old(l1), id, value, now)
      ensures shared.cells == SetL2(old(shared.cells), id, value, ActualTtl(ttl), later, reply)
    {
      StartSet(id, value, now);
      FinishSet(id, value, ttl, later, reply);
    }

    method StartInvalidate(id: string)
      modifies this`l1
      ensures l1 == old(l1) - {id}
    {
      l1 := l1 - {id};
    }

    method FinishInvalidate(id: string, reply: Reply)
      modifies shared
      ensures shared.cells == DeleteL2(old(shared.cells), id, reply)
    {
      if !reply.Down? { shared.cells := shared.cells - {id}; }
    }

    method Invalidate(id: string, reply: Reply)
      modifies this`l1, shared
      ensures l1 == old(l1) - {id}
      ensures shared.cells == DeleteL2(old(shared.cells), id, reply)
    {
      StartInvalidate(id);
      FinishInvalidate(id, reply);
    }
  }

  // ---------------------------------------------------------------- runs of many workers

  /**
   * The parts of all calls, in the order in which they happen. The parts of one call come in the
   * order of the code, but nothing below depends on that.
   */
  datatype Event =
    | Look(worker: nat, id: string, now: real)
    | Read(call: nat, worker: nat, id: string, now: real, reply: Reply)
    | Fill(call: nat, now: real)
    | SetLocal(worker: nat, id: string, value: string, now: real)
    | SetShared(id: string, value: string, ttl: Option<int>, now: real, reply: Reply)
    | DropLocal(worker: nat, id: string, now: real)
    | DropShared(id: string, now: real, reply: Reply)

  /** What a get has read, and when. */
  datatype Found = Found(worker: nat, id: string, value: string, at: real)

  /** First tiers by worker, the shared second tier, and what calls have read but not yet filled in. */
  datatype State = State(l1: map<nat, Tier>, l2: Tier, pending: map<nat, Found>)

  function TierOf(s: State, worker: nat): Tier { if worker in s.l1 then s.l1[worker] else map[] }

  function Apply(s: State, e: Event): State {
    match e
    case Look(w, id, now) => s.(l1 := s.l1[w := Looked(TierOf(s, w), id, now)])
    case Read(call, w, id, now, reply) =>
      var value := ReadAnswer(s.l2, id, now, reply);
      s.(pending := if value.Some? then s.pending[call := Found(w, id, value.value, now)] else s.pending - {call})
    case Fill(call, now) =>
      if call !in s.pending then s
      else
        var f := s.pending[call];
        s.(l1 := s.l1[f.worker := Kept(TierOf(s, f.worker), f.id, f.value, now)], pending := s.pending - {call})
    case SetLocal(w, id, value, now) => s.(l1 := s.l1[w := Kept(TierOf(s, w), id, value, now)])
    case SetShared(id, value, ttl, now, reply) => s.(l2 := SetL2(s.l2, id, value, ActualTtl(ttl), now, reply))
    case DropLocal(w, id, _) => s.(l1 := s.l1[w := TierOf(s, w) - {id}])
    case DropShared(id, _, reply) => s.(l2 := DeleteL2(s.l2, id, reply))
  }

  function After(es: seq<Event>): State {
    if es == [] then State(map[], map[], map[]) else Apply(After(es[..|es| - 1]), es[|es| - 1])
  }

  /** A get answers when it looks, from its first tier, or when it fills in what it has read. */
  function Answer(s: State, e: Event): Option<Found> {
    match e
    case Look(w, id, now) =>
      if Fresh(TierOf(s, w), id, now) then Some(Found(w, id, TierOf(s, w)[id].value, now)) else None
    case Fill(call, now) => if call in s.pending then Some(s.pending[call]) else None
    case _ => None
  }

  ghost predicate InOrder(es: seq<Event>, now: real) {
    && (forall i, j :: 0 <= i <= j < |es| ==> es[i].now <= es[j].now)
    && (forall i :: 0 <= i < |es| ==> es[i].now <= now)
  }

  /** A get fills in what it has read within `delay`. */
  ghost predicate InTime(s: State, e: Event, delay: real) {
    e.Fill? && e.call in s.pending ==> e.now <= s.pending[e.call].at + delay
  }

  ghost predicate Timely(es: seq<Event>, delay: real) {
    es == [] || (Timely(es[..|es| - 1], delay) && InTime(After(es[..|es| - 1]), es[|es| - 1], delay))
  }

  /** The event replaces what Redis holds for `id`. */
  predicate Supersedes(e: Event, id: string) {
    match e
    case SetShared(x, _, ttl, _, reply) => x == id && !reply.Down? && 0 < ActualTtl(ttl)
    case DropShared(x, _, reply) => x == id && !reply.Down?
    case _ => false
  }

  predicate Writes(e: Event, id: string, value: string) {
    (e.SetLocal? || e.SetShared?) && e.id == id && e.value == value
  }

  function LongerOf(x: real, y: real): real { if x < y then y else x }

  /** How long a value written by this event can be seen at most by gets that take no time. */
  function LastSeen(e: Event): real
    requires e.SetLocal? || e.SetShared?
  {
    e.now + (if e.SetShared? then LongerOf(ActualTtl(e.ttl) as real, 0.0) else 0.0) + 900.0
  }

  // ---------------------------------------------------------------- where cells come from

  /** Until `end`, the value does not outlive write `i` too long, nor any write that superseded it. */
  ghost predicate Traced(es: seq<Event>, i: nat, id: string, value: string, end: real) {
    && i < |es| && Writes(es[i], id, value)
    && end <= LastSeen(es[i])
    && forall j :: i < j < |es| && Supersedes(es[j], id) ==> end <= es[j].now + L1_SECONDS
  }

  ghost predicate TracedUntil(es: seq<Event>, id: string, value: string, end: real) {
    exists i :: Traced(es, i, id, value, end)
  }

  /** The cell of a first tier comes from a write. */
  ghost predicate L1Ok(c: Cell, id: string, es: seq<Event>, now: real, delay: real) {
    c.expiry <= now + L1_SECONDS && TracedUntil(es, id, c.value, c.expiry - delay)
  }

  /** The shared cell comes from the last superseding write. */
  ghost predicate FromLast(c: Cell, id: string, es: seq<Event>, i: nat) {
    && i < |es| && Writes(es[i], id, c.value) && Supersedes(es[i], id)
    && c.expiry == es[i].now + ActualTtl(es[i].ttl) as real
    && forall j :: i < j < |es| ==> !Supersedes(es[j], id)
  }

  ghost predicate L2Ok(c: Cell, id: string, es: seq<Event>) {
    exists i :: FromLast(c, id, es, i)
  }

  /** What a get has read comes from a write that was the last one when it read. */
  ghost predicate FoundOk(f: Found, es: seq<Event>, now: real) {
    f.at <= now && TracedUntil(es, f.id, f.value, f.at + L1_SECONDS)
  }

  ghost predicate WorkerOk(s: State, es: seq<Event>, now: real, delay: real, w: nat, id: string) {
    id in TierOf(s, w) ==> L1Ok(TierOf(s, w)[id], id, es, now, delay)
  }

  ghost predicate SharedOk(s: State, es: seq<Event>, id: string) {
    id in s.l2 ==> L2Ok(s.l2[id], id, es)
  }

  ghost predicate CallOk(s: State, es: seq<Event>, now: real, call: nat) {
    call in s.pending ==> FoundOk(s.pending[call], es, now)
  }

  ghost predicate Inv(s: State, es: seq<Event>, now: real, delay: real) {
    && (forall w, id :: WorkerOk(s, es, now, delay, w, id))
    && (forall id :: SharedOk(s, es, id))
    && (forall call :: CallOk(s, es, now, call))
  }

  /** What is traced stays traced while it cannot have outlived an event of now. */
  lemma TracedStays(es: seq<Event>, id: string, value: string, end: real, e: Event)
    requires TracedUntil(es, id, value, end) && end <= e.now + L1_SECONDS
    ensures TracedUntil(es + [e], id, value, end)
  {
    var i :| Traced(es, i, id, value, end);
    assert Traced(es + [e], i, id, value, end);
  }

  lemma TracedShorter(es: seq<Event>, id: string, value: string, end: real, end': real)
    requires TracedUntil(es, id, value, end) && end' <= end
    ensures TracedUntil(es, id, value, end')
  {
    var i :| Traced(es, i, id, value, end);
    assert Traced(es, i, id, value, end');
  }

  lemma L1Stays(c: Cell, id: string, es: seq<Event>, now: real, delay: real, e: Event)
    requires L1Ok(c, id, es, now, delay) && now <= e.now && 0.0 <= delay
    ensures L1Ok(c, id, es + [e], e.now, delay)
  {
    TracedStays(es, id, c.value, c.expiry - delay, e);
  }

  lemma L2Stays(c: Cell, id: string, es: seq<Event>, e: Event)
    requires L2Ok(c, id, es) && !Supersedes(e, id)
    ensures L2Ok(c, id, es + [e])
  {
    var i :| FromLast(c, id, es, i);
    assert FromLast(c, id, es + [e], i);
  }

  lemma FoundStays(f: Found, es: seq<Event>, now: real, e: Event)
    requires FoundOk(f, es, now) && now <= e.now
    ensures FoundOk(f, es + [e], e.now)
  {
    TracedStays(es, f.id, f.value, f.at + L1_SECONDS, e);
  }

  /** A get that reads a live shared cell finds the value of the same write. */
  lemma ReadFinds(c: Cell, id: string, es: seq<Event>, e: Event)
    requires L2Ok(c, id, es) && e.Read? && e.now <= c.expiry
    ensures FoundOk(Found(e.worker, id, c.value, e.now), es + [e], e.now)
  {
    var i :| FromLast(c, id, es, i);
    assert Traced(es + [e], i, id, c.value, e.now + L1_SECONDS);
  }

  /** What it fills in later is as old as the get has taken. */
  lemma FillKeeps(f: Found, es: seq<Event>, now: real, delay: real, e: Event)
    requires FoundOk(f, es, now) && now <= e.now <= f.at + delay
    ensures L1Ok(Cell(e.now + L1_SECONDS, f.value), f.id, es + [e], e.now, delay)
  {
    TracedStays(es, f.id, f.value, f.at + L1_SECONDS, e);
    TracedShorter(es + [e], f.id, f.value, f.at + L1_SECONDS, e.now + L1_SECONDS - delay);
  }

  lemma Written(es: seq<Event>, e: Event, delay: real)
    requires 0.0 <= delay
    ensures e.SetLocal? ==> L1Ok(Cell(e.now + L1_SECONDS, e.value), e.id, es + [e], e.now, delay)
    ensures e.SetShared? && Supersedes(e, e.id) ==>
              L2Ok(Cell(e.now + ActualTtl(e.ttl) as real, e.value), e.id, es + [e])
  {
    if e.SetLocal? { assert Traced(es + [e], |es|, e.id, e.value, e.now + L1_SECONDS - delay); }
    if e.SetShared? && Supersedes(e, e.id) {
      assert FromLast(Cell(e.now + ActualTtl(e.ttl) as real, e.value), e.id, es + [e], |es|);
    }
  }

  lemma WorkerStep(s: State, es: seq<Event>, now: real, delay: real, e: Event, w: nat, id: string)
    requires Inv(s, es, now, delay) && now <= e.now && 0.0 <= delay && InTime(s, e, delay)
    ensures WorkerOk(Apply(s, e), es + [e], e.now, delay, w, id)
  {
    assert WorkerOk(s, es, now, delay, w, id);
    if id in TierOf(s, w) { L1Stays(TierOf(s, w)[id], id, es, now, delay, e); }
    if e.SetLocal? { Written(es, e, delay); }
    if e.Fill? && e.call in s.pending {
      assert CallOk(s, es, now, e.call);
      FillKeeps(s.pending[e.call], es, now, delay, e);
    }
  }

  lemma SharedStep(s: State, es: seq<Event>, now: real, delay: real, e: Event, id: string)
    requires Inv(s, es, now, delay) && 0.0 <= delay
    ensures SharedOk(Apply(s, e), es + [e], id)
  {
    assert SharedOk(s, es, id);
    if id in s.l2 && !Supersedes(e, id) { L2Stays(s.l2[id], id, es, e); }
    Written(es, e, delay);
  }

  lemma CallStep(s: State, es: seq<Event>, now: real, delay: real, e: Event, call: nat)
    requires Inv(s, es, now, delay) && now <= e.now
    ensures CallOk(Apply(s, e), es + [e], e.now, call)
  {
    assert CallOk(s, es, now, call);
    if call in s.pending { FoundStays(s.pending[call], es, now, e); }
    if e.Read? && Held(s.l2, e.id, e.now) {
      assert SharedOk(s, es, e.id);
      ReadFinds(s.l2[e.id], e.id, es, e);
    }
  }

  lemma StepInv(s: State, es: seq<Event>, now: real, delay: real, e: Event)
    requires Inv(s, es, now, delay) && now <= e.now && 0.0 <= delay && InTime(s, e, delay)
    ensures Inv(Apply(s, e), es + [e], e.now, delay)
  {
    forall w, id ensures WorkerOk(Apply(s, e), es + [e], e.now, delay, w, id) {
      WorkerStep(s, es, now, delay, e, w, id);
    }
    forall id ensures SharedOk(Apply(s, e), es + [e], id) { SharedStep(s, es, now, delay, e, id); }
    forall call ensures CallOk(Apply(s, e), es + [e], e.now, call) { CallStep(s, es, now, delay, e, call); }
  }

  lemma InvLater(s: State, es: seq<Event>, now: real, delay: real, later: real)
    requires Inv(s, es, now, delay) && now <= later
    ensures Inv(s, es, later, delay)
  {
    forall w, id ensures WorkerOk(s, es, later, delay, w, id) { assert WorkerOk(s, es, now, delay, w, id); }
    forall call ensures CallOk(s, es, later, call) { assert CallOk(s, es, now, call); }
  }

  lemma InOrderBefore(es: seq<Event>, now: real)
    requires es != [] && InOrder(es, now)
    ensures InOrder(es[..|es| - 1], es[|es| - 1].now) && es[|es| - 1].now <= now
  {
    assert forall i :: 0 <= i < |es| - 1 ==> es[..|es| - 1][i] == es[i];
  }

  lemma {:induction false} RunInv(es: seq<Event>, now: real, delay: real)
    requires InOrder(es, now) && Timely(es, delay) && 0.0 <= delay
    ensures Inv(After(es), es, now, delay)
  {
    if es != [] {
      var before, e := es[..|es| - 1], es[|es| - 1];
      InOrderBefore(es, now);
      RunInv(before, e.now, delay);
      StepInv(After(before), before, e.now, delay, e);
      assert es == before + [e];
      InvLater(After(es), es, e.now, delay, now);
    }
  }

  /** The value answered is that of a write, not too late for it, nor for anything that superseded it. */
  ghost predicate Recent(es: seq<Event>, f: Found, at: real) { exists i :: AnswerTraced(es, i, f, at) }

  /** The value is that of write `i`, at a moment that is too late neither for it nor for what superseded it. */
  ghost predicate AnswerTraced(es: seq<Event>, i: nat, f: Found, at: real) {
    && i < |es| && Writes(es[i], f.id, f.value)
    && at < LastSeen(es[i])
    && forall j :: i < j < |es| && Supersedes(es[j], f.id) ==> at < es[j].now + 900.0
  }

  /**
   * With any number of workers, calls overlapping in any way and Redis failing on any of them: if
   * every get fills in what it has read within `delay`, then what a worker answers was written
   * less than its time to live plus 15 minutes and the delay earlier, and every later overwrite or
   * invalidation by any worker that reached Redis is younger than 15 minutes and the delay.
   */
  lemma StalenessBound(es: seq<Event>, e: Event, delay: real)
    requires InOrder(es + [e], e.now) && Timely(es + [e], delay) && 0.0 <= delay
    requires Answer(After(es), e).Some?
    ensures Recent(es, Answer(After(es), e).value, e.now - delay)
  {
    var s := After(es);
    assert (es + [e])[..|es|] == es;
    InOrderBefore(es + [e], e.now);
    RunInv(es, e.now, delay);
    if e.Look? {
      assert WorkerOk(s, es, e.now, delay, e.worker, e.id);
      var i :| Traced(es, i, e.id, s.l1[e.worker][e.id].value, s.l1[e.worker][e.id].expiry - delay);
      assert AnswerTraced(es, i, Answer(s, e).value, e.now - delay);
    } else {
      assert CallOk(s, es, e.now, e.call);
      var f := s.pending[e.call];
      var i :| Traced(es, i, f.id, f.value, f.at + L1_SECONDS);
      assert AnswerTraced(es, i, f, e.now - delay);
    }
  }

  // ---------------------------------------------------------------- the bound is reached

  /**
   * A value is written for `ttl` seconds; a get reads it as its time to live runs out, at the moment
   * when another value is written; and it fills in what it has read `delay` later.
   */
  function SlowGet(id: string, first: string, second: string, ttl: nat, delay: real): seq<Event> {
    var end := ttl as real;
    [SetShared(id, first, Some(ttl), 0.0, Ok), Read(0, 0, id, end, Ok), SetShared(id, second, None, end, Ok),
     Fill(0, end + delay)]
  }

  lemma AfterSnoc(es: seq<Event>, e: Event)
    ensures After(es + [e]) == Apply(After(es), e)
    ensures forall delay :: Timely(es + [e], delay) <==> Timely(es, delay) && InTime(After(es), e, delay)
  {
    assert (es + [e])[..|es|] == es;
  }

  /** What the run leaves in the first tier. */
  lemma SlowGetCell(id: string, first: string, second: string, ttl: nat, delay: real)
    requires 0 < ttl && 0.0 <= delay
    ensures var es := SlowGet(id, first, second, ttl, delay);
            && Timely(es, delay) && TierOf(After(es), 0) == map[id := Cell(ttl as real + delay + 900.0, first)]
  {
    var end := ttl as real;
    var e0, e1 := SetShared(id, first, Some(ttl), 0.0, Ok), Read(0, 0, id, end, Ok);
    var e2, e3 := SetShared(id, second, None, end, Ok), Fill(0, end + delay);
    AfterSnoc([], e0);
    AfterSnoc([e0], e1);
    AfterSnoc([e0, e1], e2);
    AfterSnoc([e0, e1, e2], e3);
    assert [] + [e0] == [e0] && [e0] + [e1] == [e0, e1] && [e0, e1] + [e2] == [e0, e1, e2];
    assert [e0, e1, e2] + [e3] == SlowGet(id, first, second, ttl, delay);
    assert After([e0, e1]).pending == map[0 := Found(0, id, first, end)];
  }

  /** The bound is exact: until just before it, the old value is answered. */
  lemma StalenessReached(id: string, first: string, second: string, ttl: nat, delay: real, now: real)
    requires 0 < ttl && 0.0 <= delay && ttl as real + delay <= now < ttl as real + 900.0 + delay
    ensures var es, e := SlowGet(id, first, second, ttl, delay), Look(0, id, now);
            && InOrder(es + [e], now) && Timely(es + [e], delay)
            && Answer(After(es), e) == Some(Found(0, id, first, now))
            && Supersedes(es[2], id) && now < es[2].now + 900.0 + delay == LastSeen(es[0]) + delay
  {
    var es, e := SlowGet(id, first, second, ttl, delay), Look(0, id, now);
    SlowGetCell(id, first, second, ttl, delay);
    AfterSnoc(es, e);
  }

  // ---------------------------------------------------------------- the code as written

  /** Every write and delete of the second tier raises before it reaches Redis. */
  ghost predicate WritesRaise(es: seq<Event>) {
    forall i :: 0 <= i < |es| && (es[i].SetShared? || es[i].DropShared?) ==> es[i].reply.Down?
  }

  predicate OwnMove(e: Event, w: nat, id: string) {
    (e.SetLocal? || e.DropLocal?) && e.worker == w && e.id == id
  }

  /** The last write of the worker itself that it has not itself invalidated since. */
  function LastOwn(es: seq<Event>, w: nat, id: string): Option<Event> {
    if es == [] then None
    else
      var e := es[|es| - 1];
      if !OwnMove(e, w, id) then LastOwn(es[..|es| - 1], w, id) else if e.SetLocal? then Some(e) else None
  }

  /** What a cache of one worker alone answers, whose entries live for 15 minutes. */
  function OwnAnswer(es: seq<Event>, w: nat, id: string, now: real): Option<string> {
    match LastOwn(es, w, id)
    case Some(SetLocal(_, _, value, at)) => if now < at + 900.0 then Some(value) else None
    case _ => None
  }

  /** The first tier holds the last own write, or has dropped it after it expired. */
  ghost predicate OwnCell(tier: Tier, es: seq<Event>, w: nat, id: string, clock: real) {
    match LastOwn(es, w, id)
    case Some(SetLocal(_, _, value, at)) =>
      if id in tier then tier[id] == Cell(at + L1_SECONDS, value) else at + L1_SECONDS <= clock
    case _ => id !in tier
  }

  lemma {:induction false} AsWrittenCells(es: seq<Event>, w: nat, id: string, now: real)
    requires WritesRaise(es) && InOrder(es, now)
    ensures After(es).l2 == map[] && After(es).pending == map[] && OwnCell(TierOf(After(es), w), es, w, id, now)
  {
    if es != [] {
      var n, e := |es| - 1, es[|es| - 1];
      InOrderBefore(es, now);
      assert forall i :: 0 <= i < n ==> es[..n][i] == es[i];
      AsWrittenCells(es[..n], w, id, e.now);
    }
  }

  /**
   * As written, the second tier's write passes a keyword that its helper does not take, and its
   * delete names a client that is not imported; both errors are caught. Then the two-tier cache
   * is exactly a 15-minute cache of each worker alone: it answers the worker's own last write if
   * that is less than 15 minutes old and the worker has not invalidated it since, and nothing else.
   */
  lemma AsWrittenIsPrivate(es: seq<Event>, w: nat, id: string, now: real, reply: Reply)
    requires WritesRaise(es) && InOrder(es, now)
    ensures LookAnswer(TierOf(After(es), w), id, now) == OwnAnswer(es, w, id, now)
    ensures ReadAnswer(After(es).l2, id, now, reply) == None && After(es).pending == map[]
  {
    AsWrittenCells(es, w, id, now);
  }

  // ---------------------------------------------------------------- what must be answered

  function AfterFrom(s: State, es: seq<Event>): State
    decreases es
  {
    if es == [] then s else AfterFrom(Apply(s, es[0]), es[1..])
  }

  lemma AfterCons(s: State, e: Event, rest: seq<Event>)
    ensures AfterFrom(s, [e] + rest) == AfterFrom(Apply(s, e), rest)
  {
    assert ([e] + rest)[1..] == rest;
  }

  ghost predicate KeepsShared(e: Event, id: string) { !Supersedes(e, id) }

  /** A write that reached Redis stays shared until it is superseded. */
  lemma {:induction false} StaysShared(s: State, id: string, c: Cell, later: seq<Event>)
    requires id in s.l2 && s.l2[id] == c
    requires forall i :: 0 <= i < |later| ==> KeepsShared(later[i], id)
    ensures id in AfterFrom(s, later).l2 && AfterFrom(s, later).l2[id] == c
    decreases later
  {
    if later != [] {
      assert KeepsShared(later[0], id);
      assert forall i :: 0 <= i < |later[1..]| ==> later[1..][i] == later[i + 1];
      StaysShared(Apply(s, later[0]), id, c, later[1..]);
    }
  }

  /**
   * After a write that reached Redis, and until it is superseded, every get that comes to read
   * Redis, of any worker, finds the written value for as long as the caller asked: a day if it gave
   * no time to live, or zero. A negative one is refused, and a read that raises finds nothing.
   */
  lemma WriteIsSeen(s: State, write: Event, later: seq<Event>, read: Event)
    requires write.SetShared? && !write.reply.Down? && read.Read? && read.id == write.id
    requires forall i :: 0 <= i < |later| ==> KeepsShared(later[i], write.id)
    ensures var seconds := if write.ttl.None? || write.ttl.value == 0 then 86400 else write.ttl.value;
            var written := Apply(s, write);
            var s' := Apply(AfterFrom(written, later), read);
            if seconds < 0 then written.l2 == s.l2
            else if read.reply.Ok? && read.now <= write.now + seconds as real then
              read.call in s'.pending
              && s'.pending[read.call] == Found(read.worker, write.id, write.value, read.now)
            else read.call !in s'.pending
  {
    var cell := Cell(write.now + ActualTtl(write.ttl) as real, write.value);
    if 0 < ActualTtl(write.ttl) { StaysShared(Apply(s, write), write.id, cell, later); }
  }

  /** The event changes what the worker holds for `id`, or finds it expired at `end`. */
  predicate Disturbs(s: State, e: Event, w: nat, id: string, end: real) {
    || OwnMove(e, w, id)
    || (e.Look? && e.worker == w && e.id == id && end <= e.now)
    || (e.Fill? && e.call in s.pending && s.pending[e.call].worker == w && s.pending[e.call].id == id)
  }

  ghost predicate Undisturbed(s: State, later: seq<Event>, w: nat, id: string, end: real)
    decreases later
  {
    later == [] || (!Disturbs(s, later[0], w, id, end) && Undisturbed(Apply(s, later[0]), later[1..], w, id, end))
  }

  lemma {:induction false} ReadsItsOwnWrite(s: State, w: nat, id: string, value: string, end: real, later: seq<Event>)
    requires id in TierOf(s, w) && TierOf(s, w)[id] == Cell(end, value) && Undisturbed(s, later, w, id, end)
    ensures id in TierOf(AfterFrom(s, later), w) && TierOf(AfterFrom(s, later), w)[id] == Cell(end, value)
    decreases later
  {
    if later != [] {
      assert !Disturbs(s, later[0], w, id, end);
      ReadsItsOwnWrite(Apply(s, later[0]), w, id, value, end, later[1..]);
    }
  }

  /**
   * A worker's own write is what it answers for 15 minutes, whatever others do and even without
   * Redis, if no get of its own for the same key fills in what it had read.
   */
  lemma WriterSeesWrite(s: State, write: Event, later: seq<Event>, now: real)
    requires write.SetLocal?
    requires Undisturbed(Apply(s, write), later, write.worker, write.id, write.now + 900.0)
    ensures LookAnswer(TierOf(AfterFrom(Apply(s, write), later), write.worker), write.id, now)
         == if now < write.now + 900.0 then Some(write.value) else None
  {
    ReadsItsOwnWrite(Apply(s, write), write.worker, write.id, write.value, write.now + L1_SECONDS, later);
  }

  /** A get that had read the old value hides the worker's own write behind it, for 15 minutes from its fill on. */
  lemma OverlapHidesWrite(s: State, call: nat, write: Event, shared: Event, fill: real, now: real)
    requires write.SetLocal? && shared.SetShared? && call in s.pending
    requires s.pending[call].worker == write.worker && s.pending[call].id == write.id
    requires now < fill + 900.0
    ensures var s' := AfterFrom(s, [write, shared, Fill(call, fill)]);
            LookAnswer(TierOf(s', write.worker), write.id, now) == Some(s.pending[call].value)
  {
    var e := Fill(call, fill);
    AfterCons(s, write, [shared, e]);
    AfterCons(Apply(s, write), shared, [e]);
    AfterCons(Apply(Apply(s, write), shared), e, []);
    assert [write] + [shared, e] == [write, shared, e] && [shared] + [e] == [shared, e] && [e] + [] == [e];
  }
}
