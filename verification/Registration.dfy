/**
 * Concurrent registrations as a state machine: every database or Redis operation of `register`
 * is one step, and the steps of any number of requests interleave in any order.
 */
module Registration {
  import opened Basics
  import opened Text

  datatype Tenant = Tenant(id: int, slug: string)

  datatype User = User(email: string, username: string, tenantId: int, role: string)

  datatype Database = Database(tenants: seq<Tenant>, users: seq<User>)

  /** What an invite token resolves to. */
  datatype Invite = Invite(tenantId: int, role: string)

  /** `invite` is empty when the request carries no token. */
  datatype Request = Request(email: string, username: string, invite: string)

  datatype Phase =
    | CheckEmail
    | ReadInvite
    | DropInvite(data: Invite)
    | FindTenant(data: Invite)
    | CheckSlug
    | FlushTenant(slug: string, retried: bool)
    | FlushUser(created: Option<Tenant>, tenantId: int, role: string)
    | Commit(created: Option<Tenant>, user: User)
    | Done(created: Option<Tenant>, user: User)
    | Failed(reason: Reason)

  /** What the caller of a failed request is told; a slug conflict and a crash surface as a server error. */
  datatype Reason = EmailConflict | InviteInvalid | TenantMissing | SlugConflict | Crashed

  datatype Process = Process(req: Request, phase: Phase)

  datatype State = State(db: Database, invites: map<string, Invite>, procs: seq<Process>)

  /** What chance or the environment decides in a step: a slug suffix, a row id, a crash. */
  datatype Choice = Choice(suffix: string, id: int, crash: bool)

  // ---------------------------------------------------------------- roles and slugs

  const ROLES: set<string> := {
    "super_admin", "admin", "security_engineer", "security_analyst", "devops_engineer",
    "compliance_manager", "auditor", "executive", "cost_analyst", "developer", "viewer"
  }

  /** Role names of older tenants. */
  const ALIASES: map<string, string> := map[
    "devops" := "devops_engineer", "security" := "security_engineer", "finops" := "cost_analyst"
  ]

  /** A known role is kept, an alias is replaced, anything else becomes "viewer". */
  function InvitedRole(role: string): (r: string)
    ensures r in ROLES
    ensures role in ROLES ==> r == role
    ensures role in ALIASES ==> r == ALIASES[role]
    ensures role !in ROLES && role !in ALIASES ==> r == "viewer"
  {
    var canonical := if role in ALIASES then ALIASES[role] else role;
    if canonical in ROLES then canonical else "viewer"
  }

  function SlugChar(c: char): char {
    if c == ' ' then '-' else LowerChar(c)
  }

  function SlugOf(username: string): string {
    var slug := seq(|username|, i requires 0 <= i < |username| => SlugChar(username[i]));
    if |slug| <= 50 then slug else slug[..50]
  }

  // ---------------------------------------------------------------- pending rows

  /** The tenant row that an open transaction has flushed. */
  function PendingTenant(p: Process): Option<Tenant> {
    match p.phase
    case FlushUser(created, _, _) => created
    case Commit(created, _) => created
    case _ => None
  }

  function PendingUser(p: Process): Option<User> {
    match p.phase
    case Commit(_, user) => Some(user)
    case _ => None
  }

  predicate UsersClash(u: User, v: User) { u.email == v.email || u.username == v.username }

  predicate TenantsClash(t: Tenant, u: Tenant) { t.slug == u.slug || t.id == u.id }

  predicate UserInDb(db: Database, u: User) {
    exists k :: 0 <= k < |db.users| && UsersClash(db.users[k], u)
  }

  predicate TenantInDb(db: Database, t: Tenant) {
    exists k :: 0 <= k < |db.tenants| && TenantsClash(db.tenants[k], t)
  }

  predicate UserHeldBy(p: Process, u: User) {
    PendingUser(p).Some? && UsersClash(PendingUser(p).value, u)
  }

  predicate TenantHeldBy(p: Process, t: Tenant) {
    PendingTenant(p).Some? && TenantsClash(PendingTenant(p).value, t)
  }

  /** Another open transaction has flushed a row with the same unique value: the insert waits for it. */
  predicate UserBlocked(s: State, i: nat, u: User) {
    exists j :: 0 <= j < |s.procs| && j != i && UserHeldBy(s.procs[j], u)
  }

  predicate TenantBlocked(s: State, i: nat, t: Tenant) {
    exists j :: 0 <= j < |s.procs| && j != i && TenantHeldBy(s.procs[j], t)
  }

  /** A generated row id is new. */
  predicate FreshId(s: State, id: int) {
    (forall k :: 0 <= k < |s.db.tenants| ==> s.db.tenants[k].id != id)
    && (forall j :: 0 <= j < |s.procs| && PendingTenant(s.procs[j]).Some? ==>
          PendingTenant(s.procs[j]).value.id != id)
  }

  predicate EmailTaken(db: Database, email: string) {
    exists k :: 0 <= k < |db.users| && db.users[k].email == email
  }

  predicate SlugTaken(db: Database, slug: string) {
    exists k :: 0 <= k < |db.tenants| && db.tenants[k].slug == slug
  }

  predicate TenantExists(db: Database, id: int) {
    exists k :: 0 <= k < |db.tenants| && db.tenants[k].id == id
  }

  // ---------------------------------------------------------------- steps

  function Goto(s: State, i: nat, phase: Phase): State
    requires i < |s.procs|
  {
    s.(procs := s.procs[i := s.procs[i].(phase := phase)])
  }

  function SuffixedSlug(slug: string, c: Choice): string { slug + "-" + c.suffix }

  function TenantStep(s: State, i: nat, slug: string, retried: bool, c: Choice): State
    requires i < |s.procs|
  {
    var t := Tenant(c.id, slug);
    if !FreshId(s, c.id) || TenantBlocked(s, i, t) then s
    else if !SlugTaken(s.db, slug) then Goto(s, i, FlushUser(Some(t), t.id, "admin"))
    else if retried then Goto(s, i, Failed(SlugConflict))
    else Goto(s, i, FlushTenant(SuffixedSlug(slug, c), true))
  }

  function UserStep(s: State, i: nat, created: Option<Tenant>, tenantId: int, role: string): State
    requires i < |s.procs|
  {
    var u := User(s.procs[i].req.email, s.procs[i].req.username, tenantId, role);
    if UserBlocked(s, i, u) then s
    else if UserInDb(s.db, u) then Goto(s, i, Failed(EmailConflict))
    else Goto(s, i, Commit(created, u))
  }

  function CommitStep(s: State, i: nat, created: Option<Tenant>, user: User): State
    requires i < |s.procs|
  {
    Goto(s.(db := Database(s.db.tenants + (if created.Some? then [created.value] else []), s.db.users + [user])),
         i, Done(created, user))
  }

  /** One step of request `i`; a blocked insert leaves the state as it is, a crash rolls back. */
  function Step(s: State, i: nat, c: Choice): State
    requires i < |s.procs|
  {
    var req, phase := s.procs[i].req, s.procs[i].phase;
    if phase.Done? || phase.Failed? then s
    else if c.crash then Goto(s, i, Failed(Crashed))
    else
      match phase
      case CheckEmail =>
        Goto(s, i, if EmailTaken(s.db, req.email) then Failed(EmailConflict)
                   else if req.invite != "" then ReadInvite else CheckSlug)
      case ReadInvite =>
        Goto(s, i, if req.invite in s.invites then DropInvite(s.invites[req.invite]) else Failed(InviteInvalid))
      case DropInvite(data) => Goto(s.(invites := s.invites - {req.invite}), i, FindTenant(data))
      case FindTenant(data) =>
        Goto(s, i, if TenantExists(s.db, data.tenantId) then FlushUser(None, data.tenantId, InvitedRole(data.role))
                   else Failed(TenantMissing))
      case CheckSlug =>
        var slug := SlugOf(req.username);
        Goto(s, i, FlushTenant(if SlugTaken(s.db, slug) then SuffixedSlug(slug, c) else slug, false))
      case FlushTenant(slug, retried) => TenantStep(s, i, slug, retried, c)
      case FlushUser(created, tenantId, role) => UserStep(s, i, created, tenantId, role)
      case Commit(created, user) => CommitStep(s, i, created, user)
      case _ => s
  }

  /** The request that moves, and the choices made. */
  type Move = (nat, Choice)

  function Next(s: State, m: Move): State { if m.0 < |s.procs| then Step(s, m.0, m.1) else s }

  function Run(s: State, schedule: seq<Move>): State
    decreases schedule
  {
    if schedule == [] then s else Run(Next(s, schedule[0]), schedule[1..])
  }

  function Start(db: Database, invites: map<string, Invite>, reqs: seq<Request>): State {
    State(db, invites, seq(|reqs|, i requires 0 <= i < |reqs| => Process(reqs[i], CheckEmail)))
  }

  // ---------------------------------------------------------------- invariants

  ghost predicate UniqueRows(db: Database) {
    && (forall j, k :: 0 <= j < k < |db.users| ==> !UsersClash(db.users[j], db.users[k]))
    && (forall j, k :: 0 <= j < k < |db.tenants| ==> !TenantsClash(db.tenants[j], db.tenants[k]))
  }

  /** A flushed row clashes neither with a committed row nor with one flushed elsewhere. */
  ghost predicate PendingOk(s: State, i: nat)
    requires i < |s.procs|
  {
    var p := s.procs[i];
    && (PendingUser(p).Some? ==>
          !UserInDb(s.db, PendingUser(p).value) && !UserBlocked(s, i, PendingUser(p).value))
    && (PendingTenant(p).Some? ==>
          !TenantInDb(s.db, PendingTenant(p).value) && !TenantBlocked(s, i, PendingTenant(p).value))
  }

  ghost predicate Unique(s: State) {
    UniqueRows(s.db) && forall i :: 0 <= i < |s.procs| ==> PendingOk(s, i)
  }

  /** The invite decides tenant and role. */
  predicate InvitedAs(data: Invite, tenantId: int, role: string) {
    tenantId == data.tenantId && role == InvitedRole(data.role)
  }

  /** The slug of the name, or that with a dash and more. */
  predicate Slugged(slug: string, username: string) { slug == SlugOf(username) || SlugOf(username) + "-" <= slug }

  /** The user row that request `p` may insert, given the tenant row its transaction created. */
  ghost predicate RowOk(db: Database, invites: map<string, Invite>, p: Process,
                        created: Option<Tenant>, tenantId: int, role: string) {
    && role in ROLES
    && (created.Some? <==> p.req.invite == "")
    && (created.Some? ==>
          created.value.id == tenantId && role == "admin" && Slugged(created.value.slug, p.req.username))
    && (created.None? ==>
          p.req.invite in invites && InvitedAs(invites[p.req.invite], tenantId, role) && TenantExists(db, tenantId))
  }

  /** What each phase says about the request, the invites issued and the committed rows. */
  ghost predicate PhaseOk(db: Database, invites: map<string, Invite>, p: Process) {
    match p.phase
    case CheckEmail | Failed(_) => true
    case ReadInvite => p.req.invite != ""
    case DropInvite(data) => p.req.invite != "" && p.req.invite in invites && invites[p.req.invite] == data
    case FindTenant(data) => p.req.invite != "" && p.req.invite in invites && invites[p.req.invite] == data
    case CheckSlug => p.req.invite == ""
    case FlushTenant(slug, _) => p.req.invite == "" && Slugged(slug, p.req.username)
    case FlushUser(created, tenantId, role) => RowOk(db, invites, p, created, tenantId, role)
    case Commit(created, u) =>
      RowOk(db, invites, p, created, u.tenantId, u.role) && u.email == p.req.email && u.username == p.req.username
    case Done(created, u) =>
      && RowOk(db, invites, p, created, u.tenantId, u.role) && u.email == p.req.email && u.username == p.req.username
      && u in db.users && (created.Some? ==> created.value in db.tenants)
  }

  /** `invites` are the invites there were at the start; none is ever added. */
  ghost predicate PhasesOk(s: State, invites: map<string, Invite>) {
    && (forall t :: t in s.invites ==> t in invites && invites[t] == s.invites[t])
    && forall i :: 0 <= i < |s.procs| ==> PhaseOk(s.db, invites, s.procs[i])
  }

  ghost predicate UserExplained(db0: Database, s: State, u: User) {
    u in db0.users || exists i :: 0 <= i < |s.procs| && s.procs[i].phase.Done? && s.procs[i].phase.user == u
  }

  ghost predicate TenantExplained(db0: Database, s: State, t: Tenant) {
    t in db0.tenants || exists i :: 0 <= i < |s.procs| && s.procs[i].phase.Done? && s.procs[i].phase.created == Some(t)
  }

  /** All committed rows were there before, or belong to a request that succeeded. */
  ghost predicate Explained(db0: Database, s: State) {
    && (forall k :: 0 <= k < |s.db.users| ==> UserExplained(db0, s, s.db.users[k]))
    && (forall k :: 0 <= k < |s.db.tenants| ==> TenantExplained(db0, s, s.db.tenants[k]))
  }

  function DoneCount(procs: seq<Process>): nat {
    if procs == [] then 0 else (if procs[0].phase.Done? then 1 else 0) + DoneCount(procs[1..])
  }

  // ---------------------------------------------------------------- uniqueness

  /** Moving on to a phase whose flushed rows clash with nothing keeps all rows unique. */
  lemma GotoUnique(s: State, i: nat, phase: Phase)
    requires i < |s.procs| && Unique(s)
    requires var p := s.procs[i].(phase := phase);
             && (PendingUser(p).Some? ==>
                   !UserInDb(s.db, PendingUser(p).value) && !UserBlocked(s, i, PendingUser(p).value))
             && (PendingTenant(p).Some? ==>
                   !TenantInDb(s.db, PendingTenant(p).value) && !TenantBlocked(s, i, PendingTenant(p).value))
    ensures Unique(Goto(s, i, phase))
  {
    var s' := Goto(s, i, phase);
    forall j | 0 <= j < |s'.procs|
      ensures PendingOk(s', j)
    {
      assert PendingOk(s, j);
      assert forall k :: 0 <= k < |s.procs| && k != i ==> s'.procs[k] == s.procs[k];
      if j != i {
        var p := s.procs[i].(phase := phase);
        assert PendingUser(p).Some? ==> !UserHeldBy(s.procs[j], PendingUser(p).value);
        assert PendingTenant(p).Some? ==> !TenantHeldBy(s.procs[j], PendingTenant(p).value);
      }
    }
  }

  /** Committing keeps all rows unique. */
  lemma CommitUnique(s: State, i: nat, created: Option<Tenant>, user: User)
    requires i < |s.procs| && Unique(s) && s.procs[i].phase == Commit(created, user)
    ensures Unique(CommitStep(s, i, created, user))
  {
    var s' := CommitStep(s, i, created, user);
    assert PendingOk(s, i);
    forall j, k | 0 <= j < k < |s'.db.users| ensures !UsersClash(s'.db.users[j], s'.db.users[k]) {
      if k == |s.db.users| { assert !UsersClash(s.db.users[j], user); }
    }
    forall j, k | 0 <= j < k < |s'.db.tenants| ensures !TenantsClash(s'.db.tenants[j], s'.db.tenants[k]) {
      if k == |s.db.tenants| { assert !TenantsClash(s.db.tenants[j], created.value); }
    }
    forall j | 0 <= j < |s'.procs|
      ensures PendingOk(s', j)
    {
      CommitOthersOk(s, i, created, user, j);
    }
  }

  lemma CommitOthersOk(s: State, i: nat, created: Option<Tenant>, user: User, j: nat)
    requires i < |s.procs| && j < |s.procs| && Unique(s) && s.procs[i].phase == Commit(created, user)
    ensures PendingOk(CommitStep(s, i, created, user), j)
  {
    var s' := CommitStep(s, i, created, user);
    assert PendingOk(s, j);
    assert forall k :: 0 <= k < |s.procs| && k != i ==> s'.procs[k] == s.procs[k];
    if j != i {
      var p := s.procs[j];
      if PendingUser(p).Some? {
        assert !UserHeldBy(s.procs[i], PendingUser(p).value);
        assert forall k :: 0 <= k < |s.db.users| ==> s'.db.users[k] == s.db.users[k];
      }
      if PendingTenant(p).Some? {
        assert !TenantHeldBy(s.procs[i], PendingTenant(p).value);
        assert forall k :: 0 <= k < |s.db.tenants| ==> s'.db.tenants[k] == s.db.tenants[k];
      }
    }
  }

  lemma TenantStepUnique(s: State, i: nat, slug: string, retried: bool, c: Choice)
    requires i < |s.procs| && Unique(s) && s.procs[i].phase == FlushTenant(slug, retried)
    ensures Unique(TenantStep(s, i, slug, retried, c))
  {
    var t := Tenant(c.id, slug);
    if FreshId(s, c.id) && !TenantBlocked(s, i, t) && !SlugTaken(s.db, slug) {
      GotoUnique(s, i, FlushUser(Some(t), t.id, "admin"));
    } else if FreshId(s, c.id) && !TenantBlocked(s, i, t) {
      GotoUnique(s, i, if retried then Failed(SlugConflict) else FlushTenant(SuffixedSlug(slug, c), true));
    }
  }

  lemma UserStepUnique(s: State, i: nat, created: Option<Tenant>, tenantId: int, role: string)
    requires i < |s.procs| && Unique(s) && s.procs[i].phase == FlushUser(created, tenantId, role)
    ensures Unique(UserStep(s, i, created, tenantId, role))
  {
    var u := User(s.procs[i].req.email, s.procs[i].req.username, tenantId, role);
    assert PendingOk(s, i);
    if !UserBlocked(s, i, u) {
      GotoUnique(s, i, if UserInDb(s.db, u) then Failed(EmailConflict) else Commit(created, u));
    }
  }

  lemma InvitesIrrelevant(s: State, invites: map<string, Invite>)
    requires Unique(s)
    ensures Unique(s.(invites := invites))
  {
    forall j | 0 <= j < |s.procs| ensures PendingOk(s.(invites := invites), j) {
      assert PendingOk(s, j);
    }
  }

  /** Every step keeps emails, usernames, slugs and ids unique, committed and flushed. */
  lemma StepUnique(s: State, i: nat, c: Choice)
    requires i < |s.procs| && Unique(s)
    ensures Unique(Step(s, i, c))
  {
    var req, phase := s.procs[i].req, s.procs[i].phase;
    if phase.Done? || phase.Failed? {
    } else if c.crash {
      GotoUnique(s, i, Failed(Crashed));
    } else {
      match phase
      case FlushTenant(slug, retried) => TenantStepUnique(s, i, slug, retried, c);
      case FlushUser(created, tenantId, role) => UserStepUnique(s, i, created, tenantId, role);
      case Commit(created, user) => CommitUnique(s, i, created, user);
      case DropInvite(data) =>
        InvitesIrrelevant(s, s.invites - {req.invite});
        GotoUnique(s.(invites := s.invites - {req.invite}), i, FindTenant(data));
      case Done(_, _) =>
      case Failed(_) =>
      case _ => GotoUnique(s, i, Step(s, i, c).procs[i].phase);
    }
  }

  // ---------------------------------------------------------------- what rows may be there

  lemma PhaseOkGrows(db: Database, db': Database, invites: map<string, Invite>, p: Process)
    requires db.tenants <= db'.tenants && db.users <= db'.users && PhaseOk(db, invites, p)
    ensures PhaseOk(db', invites, p)
  {
  }

  /** A step moves one process on, and the database only grows. */
  lemma StepMovesOne(s: State, i: nat, c: Choice)
    requires i < |s.procs|
    ensures var s' := Step(s, i, c);
            && |s'.procs| == |s.procs|
            && (forall j :: 0 <= j < |s.procs| && j != i ==> s'.procs[j] == s.procs[j])
            && s'.procs[i].req == s.procs[i].req
            && (forall t :: t in s'.invites ==> t in s.invites && s'.invites[t] == s.invites[t])
            && s.db.tenants <= s'.db.tenants && s.db.users <= s'.db.users
  {
  }

  lemma CommitPhaseOk(s: State, invites: map<string, Invite>, i: nat, created: Option<Tenant>, user: User)
    requires i < |s.procs| && s.procs[i].phase == Commit(created, user) && PhaseOk(s.db, invites, s.procs[i])
    ensures PhaseOk(CommitStep(s, i, created, user).db, invites, CommitStep(s, i, created, user).procs[i])
  {
    var s' := CommitStep(s, i, created, user);
    assert s'.db.users[|s.db.users|] == user;
    assert created.Some? ==> s'.db.tenants[|s.db.tenants|] == created.value;
    PhaseOkGrows(s.db, s'.db, invites, s.procs[i]);
  }

  lemma TenantStepPhaseOk(s: State, invites: map<string, Invite>, i: nat, slug: string, retried: bool, c: Choice)
    requires i < |s.procs| && s.procs[i].phase == FlushTenant(slug, retried) && PhaseOk(s.db, invites, s.procs[i])
    ensures PhaseOk(s.db, invites, TenantStep(s, i, slug, retried, c).procs[i])
  {
    assert slug <= SuffixedSlug(slug, c);
  }

  lemma MovedPhaseOk(s: State, invites: map<string, Invite>, i: nat, c: Choice)
    requires i < |s.procs| && PhasesOk(s, invites)
    ensures PhaseOk(Step(s, i, c).db, invites, Step(s, i, c).procs[i])
  {
    assert PhaseOk(s.db, invites, s.procs[i]);
    if !c.crash {
      match s.procs[i].phase
      case FlushTenant(slug, retried) => TenantStepPhaseOk(s, invites, i, slug, retried, c);
      case CheckSlug => assert SlugOf(s.procs[i].req.username) <= SuffixedSlug(SlugOf(s.procs[i].req.username), c);
      case Commit(created, user) => CommitPhaseOk(s, invites, i, created, user);
      case _ =>
    }
  }

  lemma StepPhasesOk(s: State, invites: map<string, Invite>, i: nat, c: Choice)
    requires i < |s.procs| && PhasesOk(s, invites)
    ensures PhasesOk(Step(s, i, c), invites)
  {
    var s' := Step(s, i, c);
    StepMovesOne(s, i, c);
    forall j | 0 <= j < |s'.procs| ensures PhaseOk(s'.db, invites, s'.procs[j]) {
      assert PhaseOk(s.db, invites, s.procs[j]);
      if j == i {
        MovedPhaseOk(s, invites, i, c);
      } else {
        PhaseOkGrows(s.db, s'.db, invites, s.procs[j]);
      }
    }
  }

  /** Only a commit adds rows, and it makes its process Done with exactly these rows. */
  lemma StepAddsRowsOnCommit(s: State, i: nat, c: Choice)
    requires i < |s.procs|
    ensures var s' := Step(s, i, c);
            if s.procs[i].phase.Done? == s'.procs[i].phase.Done? then
              s'.db == s.db && (s.procs[i].phase.Done? ==> s'.procs[i] == s.procs[i])
            else
              && s'.procs[i].phase.Done?
              && s'.db.users == s.db.users + [s'.procs[i].phase.user]
              && s'.db.tenants
                 == s.db.tenants + (if s'.procs[i].phase.created.Some? then [s'.procs[i].phase.created.value] else [])
  {
  }

  lemma StepExplained(db0: Database, s: State, i: nat, c: Choice)
    requires i < |s.procs| && Explained(db0, s)
    ensures Explained(db0, Step(s, i, c))
  {
    var s' := Step(s, i, c);
    StepMovesOne(s, i, c);
    StepAddsRowsOnCommit(s, i, c);
    forall k | 0 <= k < |s'.db.users| ensures UserExplained(db0, s', s'.db.users[k]) {
      if k < |s.db.users| {
        assert UserExplained(db0, s, s.db.users[k]);
        if s.db.users[k] !in db0.users {
          var j :| 0 <= j < |s.procs| && s.procs[j].phase.Done? && s.procs[j].phase.user == s.db.users[k];
          assert s'.procs[j] == s.procs[j];
        }
      } else {
        assert s'.procs[i].phase.user == s'.db.users[k];
      }
    }
    forall k | 0 <= k < |s'.db.tenants| ensures TenantExplained(db0, s', s'.db.tenants[k]) {
      if k < |s.db.tenants| {
        assert TenantExplained(db0, s, s.db.tenants[k]);
        if s.db.tenants[k] !in db0.tenants {
          var j :| 0 <= j < |s.procs| && s.procs[j].phase.Done? && s.procs[j].phase.created == Some(s.db.tenants[k]);
          assert s'.procs[j] == s.procs[j];
        }
      } else {
        assert s'.procs[i].phase.created == Some(s'.db.tenants[k]);
      }
    }
  }

  lemma {:induction false} DoneCountUpdate(procs: seq<Process>, i: nat, p: Process)
    requires i < |procs|
    ensures DoneCount(procs[i := p]) + (if procs[i].phase.Done? then 1 else 0)
         == DoneCount(procs) + (if p.phase.Done? then 1 else 0)
  {
    if i == 0 {
      assert procs[i := p][1..] == procs[1..];
    } else {
      assert procs[i := p][1..] == procs[1..][i - 1 := p];
      DoneCountUpdate(procs[1..], i - 1, p);
    }
  }

  lemma StepCounts(s: State, i: nat, c: Choice)
    requires i < |s.procs|
    ensures |Step(s, i, c).db.users| - DoneCount(Step(s, i, c).procs) == |s.db.users| - DoneCount(s.procs)
  {
    var s' := Step(s, i, c);
    StepMovesOne(s, i, c);
    StepAddsRowsOnCommit(s, i, c);
    DoneCountUpdate(s.procs, i, s'.procs[i]);
    assert s'.procs == s.procs[i := s'.procs[i]];
  }

  // ---------------------------------------------------------------- every interleaving

  ghost predicate Inv(db0: Database, invites: map<string, Invite>, s: State) {
    && Unique(s)
    && PhasesOk(s, invites)
    && Explained(db0, s)
    && |s.db.users| == |db0.users| + DoneCount(s.procs)
  }

  lemma {:induction false} NoneDone(procs: seq<Process>)
    requires forall i :: 0 <= i < |procs| ==> procs[i].phase.CheckEmail?
    ensures DoneCount(procs) == 0
  {
    if procs != [] {
      assert procs[0].phase.CheckEmail?;
      assert forall i :: 0 <= i < |procs[1..]| ==> procs[1..][i] == procs[i + 1];
      NoneDone(procs[1..]);
    }
  }

  lemma StartInv(db: Database, invites: map<string, Invite>, reqs: seq<Request>)
    requires UniqueRows(db)
    ensures Inv(db, invites, Start(db, invites, reqs))
  {
    var s := Start(db, invites, reqs);
    NoneDone(s.procs);
    forall i | 0 <= i < |s.procs| ensures PendingOk(s, i) && PhaseOk(s.db, invites, s.procs[i]) {
      assert s.procs[i] == Process(reqs[i], CheckEmail);
    }
  }

  lemma StepInv(db0: Database, invites: map<string, Invite>, s: State, i: nat, c: Choice)
    requires i < |s.procs| && Inv(db0, invites, s)
    ensures Inv(db0, invites, Step(s, i, c))
  {
    StepUnique(s, i, c);
    StepPhasesOk(s, invites, i, c);
    StepExplained(db0, s, i, c);
    StepCounts(s, i, c);
  }

  lemma {:induction false} RunInv(db0: Database, invites: map<string, Invite>, s: State, schedule: seq<Move>)
    requires Inv(db0, invites, s)
    ensures Inv(db0, invites, Run(s, schedule))
    decreases schedule
  {
    if schedule != [] {
      if schedule[0].0 < |s.procs| { StepInv(db0, invites, s, schedule[0].0, schedule[0].1); }
      RunInv(db0, invites, Next(s, schedule[0]), schedule[1..]);
    }
  }

  /** Whose registration a new row belongs to, and what it may say. */
  ghost predicate RowsOf(s: State, invites: map<string, Invite>, i: nat, u: User)
    requires i < |s.procs|
  {
    var p := s.procs[i];
    && p.phase.Done? && p.phase.user == u && u.email == p.req.email && u.username == p.req.username
    && u.role in ROLES
    && TenantExists(s.db, u.tenantId)
    && (if p.req.invite == "" then u.role == "admin"
        else p.req.invite in invites && InvitedAs(invites[p.req.invite], u.tenantId, u.role))
  }

  /**
   * Under every interleaving of any registrations, with crashes anywhere: emails, usernames, slugs
   * and tenant ids stay unique; every new user is that of a request which succeeded, with a role
   * from ROLES and an existing tenant, which are those of its invite if it brought one; every new
   * tenant was created by a request that also inserted its admin; and there are exactly as many
   * new users as successes, so a request that fails, for example because its invite does not
   * resolve, adds no row.
   */
  lemma RegistrationSafe(db: Database, invites: map<string, Invite>, reqs: seq<Request>, schedule: seq<Move>)
    requires UniqueRows(db)
    ensures var s := Run(Start(db, invites, reqs), schedule);
            && (forall j, k :: 0 <= j < k < |s.db.users| ==>
                  s.db.users[j].email != s.db.users[k].email && s.db.users[j].username != s.db.users[k].username)
            && (forall j, k :: 0 <= j < k < |s.db.tenants| ==>
                  s.db.tenants[j].slug != s.db.tenants[k].slug && s.db.tenants[j].id != s.db.tenants[k].id)
            && (forall k :: 0 <= k < |s.db.users| ==>
                  s.db.users[k] in db.users || exists i :: 0 <= i < |s.procs| && RowsOf(s, invites, i, s.db.users[k]))
            && (forall k :: 0 <= k < |s.db.tenants| ==>
                  s.db.tenants[k] in db.tenants || HasAdmin(s.db, s.db.tenants[k].id))
            && |s.db.users| == |db.users| + DoneCount(s.procs)
  {
    var s := Run(Start(db, invites, reqs), schedule);
    StartInv(db, invites, reqs);
    RunInv(db, invites, Start(db, invites, reqs), schedule);
    forall k | 0 <= k < |s.db.users| && s.db.users[k] !in db.users
      ensures exists i :: 0 <= i < |s.procs| && RowsOf(s, invites, i, s.db.users[k])
    {
      NewUserExplained(db, invites, s, k);
    }
    forall k | 0 <= k < |s.db.tenants| && s.db.tenants[k] !in db.tenants
      ensures HasAdmin(s.db, s.db.tenants[k].id)
    {
      NewTenantHasAdmin(db, invites, s, k);
    }
  }

  /** The first 50 characters of the name, in lower case, with dashes for spaces, and perhaps a dash and more. */
  predicate SlugFrom(slug: string, username: string) {
    var n := if |username| < 50 then |username| else 50;
    && n <= |slug| && (n < |slug| ==> slug[n] == '-')
    && forall k :: 0 <= k < n ==>
         slug[k] == if username[k] == ' ' then '-'
                    else if 'A' <= username[k] <= 'Z' then (username[k] as int + 32) as char else username[k]
  }

  lemma SlugOfStarts(slug: string, username: string)
    requires Slugged(slug, username)
    ensures SlugFrom(slug, username)
  {
    var base := SlugOf(username);
    assert forall k :: 0 <= k < |base| ==> slug[k] == base[k];
    if slug != base { assert slug[|base|] == (base + "-")[|base|]; }
  }

  /**
   * Under every interleaving, a request that succeeded has its user stored with its e-mail and
   * username. Without an invite the user is admin of the tenant that the request created, named
   * after the user; with one it has the invite's tenant and role, older names replaced.
   */
  lemma CommittedUser(db: Database, invites: map<string, Invite>, reqs: seq<Request>, schedule: seq<Move>, i: nat)
    requires UniqueRows(db)
    requires var s := Run(Start(db, invites, reqs), schedule); i < |s.procs| && s.procs[i].phase.Done?
    ensures var s := Run(Start(db, invites, reqs), schedule);
            var user, created, req := s.procs[i].phase.user, s.procs[i].phase.created, s.procs[i].req;
            && user in s.db.users && user.email == req.email && user.username == req.username
            && if req.invite == "" then
                 created.Some? && created.value in s.db.tenants && user.role == "admin"
                 && user.tenantId == created.value.id && SlugFrom(created.value.slug, req.username)
               else
                 created.None? && req.invite in invites && user.tenantId == invites[req.invite].tenantId
                 && var role := invites[req.invite].role;
                    user.role ==
                      if role == "devops" then "devops_engineer"
                      else if role == "security" then "security_engineer"
                      else if role == "finops" then "cost_analyst"
                      else if role in {"super_admin", "admin", "security_engineer", "security_analyst",
                                       "devops_engineer", "compliance_manager", "auditor", "executive",
                                       "cost_analyst", "developer", "viewer"} then role
                      else "viewer"
  {
    var s := Run(Start(db, invites, reqs), schedule);
    StartInv(db, invites, reqs);
    RunInv(db, invites, Start(db, invites, reqs), schedule);
    assert PhaseOk(s.db, invites, s.procs[i]);
    var req := s.procs[i].req;
    if req.invite == "" {
      SlugOfStarts(s.procs[i].phase.created.value.slug, req.username);
    }
  }

  ghost predicate HasAdmin(db: Database, tenantId: int) {
    exists u :: u in db.users && u.tenantId == tenantId && u.role == "admin"
  }

  lemma NewUserExplained(db0: Database, invites: map<string, Invite>, s: State, k: nat)
    requires Inv(db0, invites, s) && k < |s.db.users| && s.db.users[k] !in db0.users
    ensures exists i :: 0 <= i < |s.procs| && RowsOf(s, invites, i, s.db.users[k])
  {
    assert UserExplained(db0, s, s.db.users[k]);
    var i :| 0 <= i < |s.procs| && s.procs[i].phase.Done? && s.procs[i].phase.user == s.db.users[k];
    assert PhaseOk(s.db, invites, s.procs[i]);
    var created := s.procs[i].phase.created;
    if created.Some? {
      var j :| 0 <= j < |s.db.tenants| && s.db.tenants[j] == created.value;
      assert s.db.tenants[j].id == s.db.users[k].tenantId;
    }
    assert RowsOf(s, invites, i, s.db.users[k]);
  }

  lemma NewTenantHasAdmin(db0: Database, invites: map<string, Invite>, s: State, k: nat)
    requires Inv(db0, invites, s) && k < |s.db.tenants| && s.db.tenants[k] !in db0.tenants
    ensures HasAdmin(s.db, s.db.tenants[k].id)
  {
  }

  // ---------------------------------------------------------------- an invite lets in one request

  /** The request has been let in by invite `t`. */
  predicate LetInBy(p: Process, t: string) {
    p.req.invite == t && !p.phase.CheckEmail? && !p.phase.ReadInvite? && !p.phase.Failed?
  }

  /** At most one request is, or has been successful, on the strength of invite `t`. */
  predicate AtMostOneIn(s: State, t: string) {
    forall j, k :: 0 <= j < k < |s.procs| ==> !(LetInBy(s.procs[j], t) && LetInBy(s.procs[k], t))
  }

  /** The move lets a request in by invite `t` while another one has read it and not yet deleted it. */
  predicate Overlap(s: State, m: Move, t: string) {
    && m.0 < |s.procs| && !m.1.crash
    && s.procs[m.0].phase.ReadInvite? && s.procs[m.0].req.invite == t && t in s.invites
    && exists j :: 0 <= j < |s.procs| && s.procs[j].phase.DropInvite? && s.procs[j].req.invite == t
  }

  predicate NeverOverlaps(s: State, schedule: seq<Move>, t: string)
    decreases schedule
  {
    schedule == [] || (!Overlap(s, schedule[0], t) && NeverOverlaps(Next(s, schedule[0]), schedule[1..], t))
  }

  /** In every state of the run. */
  predicate AlwaysAtMostOneIn(s: State, schedule: seq<Move>, t: string)
    decreases schedule
  {
    AtMostOneIn(s, t) && (schedule != [] ==> AlwaysAtMostOneIn(Next(s, schedule[0]), schedule[1..], t))
  }

  /** While the invite is stored nobody is past deleting it, and never are two requests let in. */
  ghost predicate InviteInv(s: State, t: string) {
    && AtMostOneIn(s, t)
    && (t in s.invites ==>
          forall j :: 0 <= j < |s.procs| && LetInBy(s.procs[j], t) ==> s.procs[j].phase.DropInvite?)
    && (forall j :: 0 <= j < |s.procs| && s.procs[j].phase.ReadInvite? ==> s.procs[j].req.invite != "")
    && (forall j :: 0 <= j < |s.procs| && s.procs[j].req.invite != "" ==>
          !s.procs[j].phase.CheckSlug? && !s.procs[j].phase.FlushTenant?)
  }

  /** Which requests are let in changes only by reading the invite. */
  lemma OnlyReadLetsIn(s: State, m: Move, t: string)
    requires InviteInv(s, t) && m.0 < |s.procs| && LetInBy(Next(s, m).procs[m.0], t) && t != ""
    ensures LetInBy(s.procs[m.0], t)
         || (s.procs[m.0].phase.ReadInvite? && t in s.invites && !m.1.crash && Next(s, m).procs[m.0].phase.DropInvite?)
  {
  }

  lemma NextKeepsInvite(s: State, m: Move, t: string)
    requires InviteInv(s, t) && t != "" && !Overlap(s, m, t)
    ensures InviteInv(Next(s, m), t)
  {
    if m.0 < |s.procs| {
      var s' := Next(s, m);
      StepMovesOne(s, m.0, m.1);
      if LetInBy(s'.procs[m.0], t) { OnlyReadLetsIn(s, m, t); }
      forall j, k | 0 <= j < k < |s'.procs| ensures !(LetInBy(s'.procs[j], t) && LetInBy(s'.procs[k], t)) {
        assert !(LetInBy(s.procs[j], t) && LetInBy(s.procs[k], t));
      }
    }
  }

  lemma OverlapLetsInTwo(s: State, m: Move, t: string)
    requires Overlap(s, m, t)
    ensures !AtMostOneIn(Next(s, m), t)
  {
    var j :| 0 <= j < |s.procs| && s.procs[j].phase.DropInvite? && s.procs[j].req.invite == t;
    StepMovesOne(s, m.0, m.1);
    assert LetInBy(Next(s, m).procs[j], t) && LetInBy(Next(s, m).procs[m.0], t);
  }

  lemma {:induction false} AtMostOneIffSerial(s: State, schedule: seq<Move>, t: string)
    requires InviteInv(s, t) && t != ""
    ensures AlwaysAtMostOneIn(s, schedule, t) <==> NeverOverlaps(s, schedule, t)
    decreases schedule
  {
    if schedule != [] {
      if Overlap(s, schedule[0], t) {
        OverlapLetsInTwo(s, schedule[0], t);
      } else {
        NextKeepsInvite(s, schedule[0], t);
        AtMostOneIffSerial(Next(s, schedule[0]), schedule[1..], t);
      }
    }
  }

  /**
   * Under every interleaving, with crashes anywhere: an invite never has two requests let in by
   * it if and only if no request reads it between another one's read and its delete.
   */
  lemma InviteSingleUseIffSerial(db: Database, invites: map<string, Invite>, reqs: seq<Request>,
                                 schedule: seq<Move>, t: string)
    requires t != ""
    ensures AlwaysAtMostOneIn(Start(db, invites, reqs), schedule, t)
       <==> NeverOverlaps(Start(db, invites, reqs), schedule, t)
  {
    AtMostOneIffSerial(Start(db, invites, reqs), schedule, t);
  }

  /** Two requests that the database has room for. */
  predicate RoomFor(db: Database, a: Request, b: Request) {
    && a.email != b.email && a.username != b.username
    && forall k :: 0 <= k < |db.users| ==>
         db.users[k].email !in {a.email, b.email} && db.users[k].username !in {a.username, b.username}
  }

  const GO: Choice := Choice("", 0, false)

  /** Both check their e-mail, both read the invite, both delete it, and then each finishes. */
  function SideBySide(): seq<Move> {
    [(0, GO), (1, GO), (0, GO), (1, GO)] + ([(0, GO), (1, GO), (0, GO), (1, GO)]
    + [(0, GO), (0, GO), (1, GO), (1, GO)])
  }

  lemma {:induction false} RunAppend(s: State, a: seq<Move>, b: seq<Move>)
    ensures Run(s, a + b) == Run(Run(s, a), b)
    decreases a
  {
    if a == [] {
      assert a + b == b;
    } else {
      assert (a + b)[1..] == a[1..] + b;
      RunAppend(Next(s, a[0]), a[1..], b);
    }
  }

  lemma RunCons(s: State, m: Move, rest: seq<Move>)
    ensures Run(s, [m] + rest) == Run(Next(s, m), rest)
  {
    assert ([m] + rest)[1..] == rest;
  }

  lemma RunFour(s: State, m0: Move, m1: Move, m2: Move, m3: Move)
    ensures Run(s, [m0, m1, m2, m3]) == Next(Next(Next(Next(s, m0), m1), m2), m3)
  {
    RunCons(s, m0, [m1, m2, m3]);
    RunCons(Next(s, m0), m1, [m2, m3]);
    RunCons(Next(Next(s, m0), m1), m2, [m3]);
    RunCons(Next(Next(Next(s, m0), m1), m2), m3, []);
    assert [m0, m1, m2, m3] == [m0] + [m1, m2, m3] && [m1, m2, m3] == [m1] + [m2, m3] && [m2, m3] == [m2] + [m3];
  }

  function Two(db: Database, invites: map<string, Invite>, a: Process, b: Process): State { State(db, invites, [a, b]) }

  lemma BothRead(db: Database, invites: map<string, Invite>, a: Request, b: Request)
    requires a.invite == b.invite != "" && a.invite in invites && RoomFor(db, a, b)
    ensures var data := invites[a.invite];
            Run(Start(db, invites, [a, b]), [(0, GO), (1, GO), (0, GO), (1, GO)])
            == Two(db, invites, Process(a, DropInvite(data)), Process(b, DropInvite(data)))
  {
    var s := Start(db, invites, [a, b]);
    assert s == Two(db, invites, Process(a, CheckEmail), Process(b, CheckEmail));
    assert Next(s, (0, GO)) == Two(db, invites, Process(a, ReadInvite), Process(b, CheckEmail));
    RunFour(s, (0, GO), (1, GO), (0, GO), (1, GO));
  }

  lemma BothDrop(db: Database, invites: map<string, Invite>, a: Request, b: Request, data: Invite)
    requires a.invite == b.invite && TenantExists(db, data.tenantId)
    ensures var flush := FlushUser(None, data.tenantId, InvitedRole(data.role));
            Run(Two(db, invites, Process(a, DropInvite(data)), Process(b, DropInvite(data))),
                [(0, GO), (1, GO), (0, GO), (1, GO)])
            == Two(db, invites - {a.invite}, Process(a, flush), Process(b, flush))
  {
    var s := Two(db, invites, Process(a, DropInvite(data)), Process(b, DropInvite(data)));
    var rest := invites - {a.invite};
    assert Next(s, (0, GO)) == Two(db, rest, Process(a, FindTenant(data)), Process(b, DropInvite(data)));
    assert rest - {b.invite} == rest;
    RunFour(s, (0, GO), (1, GO), (0, GO), (1, GO));
  }

  lemma BothFinish(db: Database, invites: map<string, Invite>, a: Request, b: Request, tenantId: int, role: string)
    requires RoomFor(db, a, b)
    ensures var flush := FlushUser(None, tenantId, role);
            var u, v := User(a.email, a.username, tenantId, role), User(b.email, b.username, tenantId, role);
            Run(Two(db, invites, Process(a, flush), Process(b, flush)), [(0, GO), (0, GO), (1, GO), (1, GO)])
            == Two(Database(db.tenants, db.users + [u, v]), invites,
                   Process(a, Done(None, u)), Process(b, Done(None, v)))
  {
    var flush := FlushUser(None, tenantId, role);
    var u, v := User(a.email, a.username, tenantId, role), User(b.email, b.username, tenantId, role);
    var s := Two(db, invites, Process(a, flush), Process(b, flush));
    var db1 := Database(db.tenants, db.users + [u]);
    assert Next(s, (0, GO)) == Two(db, invites, Process(a, Commit(None, u)), Process(b, flush));
    var s2 := Next(Next(s, (0, GO)), (0, GO));
    assert db.tenants + [] == db.tenants;
    assert s2 == Two(db1, invites, Process(a, Done(None, u)), Process(b, flush));
    assert Next(s2, (1, GO)) == Two(db1, invites, Process(a, Done(None, u)), Process(b, Commit(None, v)));
    assert db1.users + [v] == db.users + [u, v];
    RunFour(s, (0, GO), (0, GO), (1, GO), (1, GO));
  }

  /**
   * Two requests that bring the same invite, for any database with room for both: when both read
   * it before either deletes it, both end as members of the tenant that the invite names.
   */
  lemma InviteUsedTwice(db: Database, invites: map<string, Invite>, a: Request, b: Request)
    requires a.invite == b.invite != "" && a.invite in invites && TenantExists(db, invites[a.invite].tenantId)
    requires RoomFor(db, a, b)
    ensures var tenantId, role := invites[a.invite].tenantId, InvitedRole(invites[a.invite].role);
            var u, v := User(a.email, a.username, tenantId, role), User(b.email, b.username, tenantId, role);
            Run(Start(db, invites, [a, b]), SideBySide())
            == Two(Database(db.tenants, db.users + [u, v]), invites - {a.invite},
                   Process(a, Done(None, u)), Process(b, Done(None, v)))
  {
    var data, s, m := invites[a.invite], Start(db, invites, [a, b]), [(0, GO), (1, GO), (0, GO), (1, GO)];
    var end := [(0, GO), (0, GO), (1, GO), (1, GO)];
    RunAppend(s, m, m + end);
    BothRead(db, invites, a, b);
    RunAppend(Run(s, m), m, end);
    BothDrop(db, invites, a, b, data);
    BothFinish(db, invites - {a.invite}, a, b, data.tenantId, InvitedRole(data.role));
  }

  // ---------------------------------------------------------------- why a request fails

  lemma {:induction false} FailedStays(s: State, i: nat, schedule: seq<Move>)
    requires i < |s.procs| && s.procs[i].phase.Failed?
    ensures i < |Run(s, schedule).procs| && Run(s, schedule).procs[i] == s.procs[i]
    decreases schedule
  {
    if schedule != [] {
      if schedule[0].0 < |s.procs| { StepMovesOne(s, schedule[0].0, schedule[0].1); }
      FailedStays(Next(s, schedule[0]), i, schedule[1..]);
    }
  }

  /** A supplied invite that does not resolve fails its request for good, and this step adds no row. */
  lemma UnresolvedInviteFails(s: State, i: nat, c: Choice, schedule: seq<Move>)
    requires i < |s.procs| && s.procs[i].phase.ReadInvite? && s.procs[i].req.invite !in s.invites
    ensures Step(s, i, c).db == s.db
    ensures i < |Run(Step(s, i, c), schedule).procs| && Run(Step(s, i, c), schedule).procs[i].phase.Failed?
  {
    FailedStays(Step(s, i, c), i, schedule);
  }

  /** The state before the `n`-th move. */
  function Before(s: State, schedule: seq<Move>, n: nat): State
    requires n <= |schedule|
  {
    Run(s, schedule[..n])
  }

  /** The request's insert of a tenant with this slug is not kept waiting, and meets the slug of a committed tenant. */
  predicate SlugRefused(s: State, m: Move, i: nat, slug: string, retried: bool) {
    && m.0 == i < |s.procs| && !m.1.crash && s.procs[i].phase == FlushTenant(slug, retried)
    && FreshId(s, m.1.id) && !TenantBlocked(s, i, Tenant(m.1.id, slug)) && SlugTaken(s.db, slug)
  }

  /** Its insert of the user is not kept waiting, and meets the e-mail or the username of a committed user. */
  predicate UserRefused(s: State, m: Move, i: nat) {
    && m.0 == i < |s.procs| && !m.1.crash && s.procs[i].phase.FlushUser?
    && var u := User(s.procs[i].req.email, s.procs[i].req.username, s.procs[i].phase.tenantId, s.procs[i].phase.role);
       !UserBlocked(s, i, u) && UserInDb(s.db, u)
  }

  predicate EmailRefused(s: State, m: Move, i: nat) {
    m.0 == i < |s.procs| && !m.1.crash && s.procs[i].phase.CheckEmail? && EmailTaken(s.db, s.procs[i].req.email)
  }

  /** Move `n` ends the request for this reason; for a slug, an earlier move had found the first one taken too. */
  ghost predicate EndedBy(s: State, schedule: seq<Move>, i: nat, n: nat, reason: Reason)
    requires n < |schedule|
  {
    var s', m := Before(s, schedule, n), schedule[n];
    && m.0 == i < |s'.procs|
    && var phase := s'.procs[i].phase;
       match reason
       case Crashed => m.1.crash && !phase.Done? && !phase.Failed?
       case EmailConflict => EmailRefused(s', m, i) || UserRefused(s', m, i)
       case InviteInvalid => !m.1.crash && phase.ReadInvite? && s'.procs[i].req.invite !in s'.invites
       case TenantMissing => !m.1.crash && phase.FindTenant? && !TenantExists(s'.db, phase.data.tenantId)
       case SlugConflict => exists k: nat, first :: BothSlugsRefused(s, schedule, i, k, n, first)
  }

  /** The first slug is taken when it is tried, and so is the suffixed one of the only retry. */
  ghost predicate BothSlugsRefused(s: State, schedule: seq<Move>, i: nat, k: nat, n: nat, first: string)
    requires n < |schedule|
  {
    && k < n
    && SlugRefused(Before(s, schedule, k), schedule[k], i, first, false)
    && SlugRefused(Before(s, schedule, n), schedule[n], i, SuffixedSlug(first, schedule[k].1), true)
  }

  lemma BeforeSnoc(s: State, schedule: seq<Move>, n: nat)
    requires n < |schedule|
    ensures Before(s, schedule, n + 1) == Next(Before(s, schedule, n), schedule[n])
  {
    assert schedule[..n + 1] == schedule[..n] + [schedule[n]];
    RunAppend(s, schedule[..n], [schedule[n]]);
    assert Run(Before(s, schedule, n), [schedule[n]]) == Next(Before(s, schedule, n), schedule[n]);
  }

  /** A request that tries its suffixed slug has tried the plain one before. */
  lemma {:induction false} RetriedAfterRefusal(s: State, schedule: seq<Move>, i: nat, n: nat)
    requires i < |s.procs| && s.procs[i].phase.CheckEmail? && n <= |schedule|
    ensures |Before(s, schedule, n).procs| == |s.procs|
    ensures var phase := Before(s, schedule, n).procs[i].phase;
            phase.FlushTenant? && phase.retried ==>
              exists k: nat, first :: k < n && SlugRefused(Before(s, schedule, k), schedule[k], i, first, false)
                                 && phase.slug == SuffixedSlug(first, schedule[k].1)
  {
    if n > 0 {
      var s', m := Before(s, schedule, n - 1), schedule[n - 1];
      RetriedAfterRefusal(s, schedule, i, n - 1);
      BeforeSnoc(s, schedule, n - 1);
      if m.0 < |s'.procs| { StepMovesOne(s', m.0, m.1); }
      var phase := Before(s, schedule, n).procs[i].phase;
      if phase.FlushTenant? && phase.retried && phase != s'.procs[i].phase {
        assert SlugRefused(s', m, i, s'.procs[i].phase.slug, false);
      }
    }
  }

  /** One move of the request: it ends for this reason exactly if the reason holds now. */
  lemma MoveFails(s: State, m: Move, i: nat, reason: Reason)
    requires i < |s.procs| && i < |Next(s, m).procs|
    ensures Next(s, m).procs[i].phase == Failed(reason) <==>
            || s.procs[i].phase == Failed(reason)
            || (m.0 == i
                && match reason
                   case Crashed => m.1.crash && !s.procs[i].phase.Done? && !s.procs[i].phase.Failed?
                   case EmailConflict => EmailRefused(s, m, i) || UserRefused(s, m, i)
                   case InviteInvalid =>
                     !m.1.crash && s.procs[i].phase.ReadInvite? && s.procs[i].req.invite !in s.invites
                   case TenantMissing =>
                     !m.1.crash && s.procs[i].phase.FindTenant? && !TenantExists(s.db, s.procs[i].phase.data.tenantId)
                   case SlugConflict =>
                     s.procs[i].phase.FlushTenant? && SlugRefused(s, m, i, s.procs[i].phase.slug, true))
  {
  }

  /** The move `n` alone, in the words of the whole run. */
  lemma MoveEnds(s: State, schedule: seq<Move>, i: nat, n: nat, reason: Reason)
    requires i < |s.procs| && s.procs[i].phase.CheckEmail? && n < |schedule|
    ensures i < |Before(s, schedule, n).procs| && i < |Before(s, schedule, n + 1).procs|
    ensures Before(s, schedule, n + 1).procs[i].phase == Failed(reason)
       <==> Before(s, schedule, n).procs[i].phase == Failed(reason) || EndedBy(s, schedule, i, n, reason)
  {
    var s', m := Before(s, schedule, n), schedule[n];
    BeforeSnoc(s, schedule, n);
    RetriedAfterRefusal(s, schedule, i, n);
    if m.0 < |s'.procs| { StepMovesOne(s', m.0, m.1); }
    MoveFails(s', m, i, reason);
    if reason.SlugConflict? {
      var phase := s'.procs[i].phase;
      if phase.FlushTenant? && SlugRefused(s', m, i, phase.slug, true) {
        var k: nat, first :| k < n && SlugRefused(Before(s, schedule, k), schedule[k], i, first, false)
                        && phase.slug == SuffixedSlug(first, schedule[k].1);
        assert BothSlugsRefused(s, schedule, i, k, n, first);
      }
    }
  }

  /** Some of the first `n` moves ends the request for this reason. */
  ghost predicate EndedWithin(s: State, schedule: seq<Move>, i: nat, n: nat, reason: Reason)
    requires n <= |schedule|
  {
    exists k: nat :: k < n && EndedBy(s, schedule, i, k, reason)
  }

  lemma EndedWithinNext(s: State, schedule: seq<Move>, i: nat, n: nat, reason: Reason)
    requires 0 < n <= |schedule|
    ensures EndedWithin(s, schedule, i, n, reason)
       <==> EndedWithin(s, schedule, i, n - 1, reason) || EndedBy(s, schedule, i, n - 1, reason)
  {
  }

  lemma {:induction false} FailsWithin(s: State, schedule: seq<Move>, i: nat, n: nat, reason: Reason)
    requires i < |s.procs| && s.procs[i].phase.CheckEmail? && n <= |schedule|
    ensures i < |Before(s, schedule, n).procs|
    ensures Before(s, schedule, n).procs[i].phase == Failed(reason) <==> EndedWithin(s, schedule, i, n, reason)
  {
    if n > 0 {
      FailsWithin(s, schedule, i, n - 1, reason);
      MoveEnds(s, schedule, i, n - 1, reason);
      EndedWithinNext(s, schedule, i, n, reason);
    }
  }

  /**
   * Under every interleaving a request ends with a given answer exactly if some move of its own
   * met the cause: the e-mail was taken at the check, or e-mail or username at the insert; the
   * first slug and, at a later move, its one retry were both taken; the invite was not stored;
   * its tenant was gone; or the request crashed.
   */
  lemma FailsExactly(db: Database, invites: map<string, Invite>, reqs: seq<Request>, schedule: seq<Move>,
                     i: nat, reason: Reason)
    requires i < |reqs|
    ensures var s := Start(db, invites, reqs);
            && i < |Run(s, schedule).procs|
            && (Run(s, schedule).procs[i].phase == Failed(reason)
                <==> exists n: nat :: n < |schedule| && EndedBy(s, schedule, i, n, reason))
  {
    FailsWithin(Start(db, invites, reqs), schedule, i, |schedule|, reason);
    assert schedule[..|schedule|] == schedule;
  }

  predicate UsernameTaken(db: Database, username: string) {
    exists k :: 0 <= k < |db.users| && db.users[k].username == username
  }

  lemma {:induction false} RunKeeps(s: State, schedule: seq<Move>, i: nat)
    requires i < |s.procs|
    ensures var s' := Run(s, schedule);
            |s'.procs| == |s.procs| && s'.procs[i].req == s.procs[i].req && s.db.users <= s'.db.users
    decreases schedule
  {
    if schedule != [] {
      if schedule[0].0 < |s.procs| { StepMovesOne(s, schedule[0].0, schedule[0].1); }
      RunKeeps(Next(s, schedule[0]), schedule[1..], i);
    }
  }

  /** The user stands in the way of the request. */
  predicate InTheWay(u: User, req: Request) { u.email == req.email || u.username == req.username }

  lemma ConflictMet(s: State, schedule: seq<Move>, i: nat, n: nat) returns (u: User)
    requires n < |schedule| && EndedBy(s, schedule, i, n, EmailConflict)
    ensures i < |Before(s, schedule, n).procs| && u in Before(s, schedule, n).db.users
    ensures InTheWay(u, Before(s, schedule, n).procs[i].req)
  {
    var s' := Before(s, schedule, n);
    if EmailRefused(s', schedule[n], i) {
      var k :| 0 <= k < |s'.db.users| && s'.db.users[k].email == s'.procs[i].req.email;
      u := s'.db.users[k];
    } else {
      var phase, req := s'.procs[i].phase, s'.procs[i].req;
      var v := User(req.email, req.username, phase.tenantId, phase.role);
      var k :| 0 <= k < |s'.db.users| && UsersClash(s'.db.users[k], v);
      u := s'.db.users[k];
    }
  }

  /**
   * Under every interleaving, a request that is told that its e-mail is registered lost to a user
   * with its e-mail or its username that the database still holds at the end: one who was there
   * before, or the one registered by another request of the run.
   */
  lemma ConflictMeans(db: Database, invites: map<string, Invite>, reqs: seq<Request>, schedule: seq<Move>, i: nat)
    returns (u: User)
    requires UniqueRows(db) && i < |reqs|
    requires var s := Run(Start(db, invites, reqs), schedule);
             i < |s.procs| && s.procs[i].phase == Failed(EmailConflict)
    ensures var s := Run(Start(db, invites, reqs), schedule);
            && u in s.db.users && InTheWay(u, reqs[i])
            && (u in db.users || exists j :: 0 <= j < |s.procs| && j != i && RowsOf(s, invites, j, u))
  {
    var start := Start(db, invites, reqs);
    var s := Run(start, schedule);
    FailsExactly(db, invites, reqs, schedule, i, EmailConflict);
    var n: nat :| n < |schedule| && EndedBy(start, schedule, i, n, EmailConflict);
    u := ConflictMet(start, schedule, i, n);
    RunKeeps(start, schedule[..n], i);
    assert schedule == schedule[..n] + schedule[n..];
    RunAppend(start, schedule[..n], schedule[n..]);
    RunKeeps(Before(start, schedule, n), schedule[n..], i);
    var k :| 0 <= k < |s.db.users| && s.db.users[k] == u;
    RegistrationSafe(db, invites, reqs, schedule);
    if u !in db.users {
      var j :| 0 <= j < |s.procs| && RowsOf(s, invites, j, s.db.users[k]);
    }
  }

  /**
   * A lone request without invite, whose slug is free, is answered with it exactly if either is:
   * the answer is wrong when only the username is taken.
   */
  lemma LoneRequestConflict(db: Database, invites: map<string, Invite>, req: Request, id: int)
    requires req.invite == "" && !SlugTaken(db, SlugOf(req.username))
    requires !exists k :: 0 <= k < |db.tenants| && db.tenants[k].id == id
    ensures var go := (0, Choice("", id, false));
            Run(Start(db, invites, [req]), [go, go, go, go]).procs == [Process(req, Failed(EmailConflict))]
            <==> EmailTaken(db, req.email) || UsernameTaken(db, req.username)
  {
    var s, go := Start(db, invites, [req]), (0, Choice("", id, false));
    var slug := SlugOf(req.username);
    var t, u := Tenant(id, slug), User(req.email, req.username, id, "admin");
    RunFour(s, go, go, go, go);
    assert s.procs == [Process(req, CheckEmail)];
    if EmailTaken(db, req.email) {
      assert Next(s, go).procs == [Process(req, Failed(EmailConflict))];
      assert Next(Next(s, go), go) == Next(s, go);
    } else {
      var s3 := Next(Next(Next(s, go), go), go);
      assert Next(s, go) == State(db, invites, [Process(req, CheckSlug)]);
      assert Next(Next(s, go), go) == State(db, invites, [Process(req, FlushTenant(slug, false))]);
      assert s3 == State(db, invites, [Process(req, FlushUser(Some(t), id, "admin"))]);
      assert UserInDb(db, u) <==> UsernameTaken(db, req.username);
      assert Next(s3, go).procs
          == [Process(req, if UserInDb(db, u) then Failed(EmailConflict) else Commit(Some(t), u))];
    }
  }

  /** A lone request without invite whose slug is taken: three steps, */
  lemma LoneSlugFlushed(db: Database, invites: map<string, Invite>, req: Request, suffix: string, id: int)
    requires req.invite == "" && SlugTaken(db, SlugOf(req.username))
    requires !SlugTaken(db, SlugOf(req.username) + "-" + suffix)
    requires !exists k :: 0 <= k < |db.tenants| && db.tenants[k].id == id
    requires !EmailTaken(db, req.email)
    ensures var go := (0, Choice(suffix, id, false));
            Next(Next(Next(Start(db, invites, [req]), go), go), go)
            == var t := Tenant(id, SlugOf(req.username) + "-" + suffix);
               State(db, invites, [Process(req, FlushUser(Some(t), id, "admin"))])
  {
    var s, go := Start(db, invites, [req]), (0, Choice(suffix, id, false));
    assert s.procs == [Process(req, CheckEmail)];
    assert Next(s, go) == State(db, invites, [Process(req, CheckSlug)]);
    assert Next(Next(s, go), go)
        == State(db, invites, [Process(req, FlushTenant(SlugOf(req.username) + "-" + suffix, false))]);
  }

  /** and the last two. */
  lemma LoneUserCommitted(db: Database, invites: map<string, Invite>, req: Request, suffix: string, t: Tenant)
    requires !EmailTaken(db, req.email) && !UsernameTaken(db, req.username)
    ensures var go, u := (0, Choice(suffix, t.id, false)), User(req.email, req.username, t.id, "admin");
            Next(Next(State(db, invites, [Process(req, FlushUser(Some(t), t.id, "admin"))]), go), go)
            == State(Database(db.tenants + [t], db.users + [u]), invites, [Process(req, Done(Some(t), u))])
  {
    var go, u := (0, Choice(suffix, t.id, false)), User(req.email, req.username, t.id, "admin");
    var s := State(db, invites, [Process(req, FlushUser(Some(t), t.id, "admin"))]);
    assert !UserInDb(db, u);
    assert Next(s, go) == State(db, invites, [Process(req, Commit(Some(t), u))]);
    assert Next(Next(s, go), go).procs == [Process(req, Done(Some(t), u))];
  }

  /**
   * When its slug is taken, a lone request without invite goes on with a suffixed one at once, and
   * ends as admin of a tenant of that slug.
   */
  lemma LoneSlugTaken(db: Database, invites: map<string, Invite>, req: Request, suffix: string, id: int)
    requires req.invite == "" && SlugTaken(db, SlugOf(req.username))
    requires !SlugTaken(db, SlugOf(req.username) + "-" + suffix)
    requires !exists k :: 0 <= k < |db.tenants| && db.tenants[k].id == id
    requires !EmailTaken(db, req.email) && !UsernameTaken(db, req.username)
    ensures var go := (0, Choice(suffix, id, false));
            var t := Tenant(id, SlugOf(req.username) + "-" + suffix);
            var u := User(req.email, req.username, id, "admin");
            Run(Start(db, invites, [req]), [go, go, go, go] + [go])
            == State(Database(db.tenants + [t], db.users + [u]), invites, [Process(req, Done(Some(t), u))])
  {
    var s, go := Start(db, invites, [req]), (0, Choice(suffix, id, false));
    LoneSlugFlushed(db, invites, req, suffix, id);
    LoneUserCommitted(db, invites, req, suffix, Tenant(id, SlugOf(req.username) + "-" + suffix));
    RunAppend(s, [go, go, go, go], [go]);
    RunFour(s, go, go, go, go);
    RunCons(Next(Next(Next(Next(s, go), go), go), go), go, []);
    assert [go] + [] == [go];
  }
}
