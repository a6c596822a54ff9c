/** Alert bulk operations and the statistics accumulated over grouped rows. */
module Alerts {
  import opened Basics

  datatype Alert = Alert(tenant: string, severity: string, category: string, status: string, isRead: bool,
                         resolvedAt: Option<real>)

  /** One row of GROUP BY severity, status, is_read. */
  datatype Group = Group(severity: string, status: string, isRead: bool)

  datatype Row = Row(group: Group, count: nat)

  datatype Stats = Stats(total: nat, active: nat, resolved: nat, critical: nat, high: nat, unread: nat)

  function GroupOf(a: Alert): Group { Group(a.severity, a.status, a.isRead) }

  /** The groups of the tenant's alerts, one entry per alert. */
  function GroupsOf(alerts: seq<Alert>, tenant: string): seq<Group> {
    if alerts == [] then []
    else (if alerts[0].tenant == tenant then [GroupOf(alerts[0])] else []) + GroupsOf(alerts[1..], tenant)
  }

  function CountIf(gs: seq<Group>, p: Group -> bool): nat {
    if gs == [] then 0 else (if p(gs[0]) then 1 else 0) + CountIf(gs[1..], p)
  }

  /** The statistics by counting alert by alert. */
  function Direct(alerts: seq<Alert>, tenant: string): Stats {
    var gs := GroupsOf(alerts, tenant);
    Stats(|gs|, CountIf(gs, Active), CountIf(gs, Resolved), CountIf(gs, Critical), CountIf(gs, High),
          CountIf(gs, Unread))
  }

  predicate Active(g: Group) { g.status == "active" }
  predicate Resolved(g: Group) { g.status == "resolved" }
  predicate Critical(g: Group) { g.severity == "critical" }
  predicate High(g: Group) { g.severity == "high" }
  predicate Unread(g: Group) { !g.isRead }
  predicate Anything(g: Group) { true }

  function Is(g: Group): Group -> bool { x => x == g }

  // ---------------------------------------------------------------- grouping

  function Without(gs: seq<Group>, g: Group): seq<Group> {
    if gs == [] then [] else (if gs[0] == g then [] else [gs[0]]) + Without(gs[1..], g)
  }

  /** The rows, in any order, are the grouping of these entries: each group once, with its exact count. */
  ghost predicate Grouping(rows: seq<Row>, gs: seq<Group>)
    decreases rows
  {
    if rows == [] then gs == []
    else rows[0].count == CountIf(gs, Is(rows[0].group)) && 0 < rows[0].count
         && Grouping(rows[1..], Without(gs, rows[0].group))
  }

  function SumIf(rows: seq<Row>, p: Group -> bool): nat {
    if rows == [] then 0 else (if p(rows[0].group) then rows[0].count else 0) + SumIf(rows[1..], p)
  }

  /** Taking one group out takes exactly its entries out of every count. */
  lemma {:induction false} CountWithout(gs: seq<Group>, g: Group, p: Group -> bool)
    ensures CountIf(gs, p) == CountIf(Without(gs, g), p) + (if p(g) then CountIf(gs, Is(g)) else 0)
  {
    if gs != [] {
      CountWithout(gs[1..], g, p);
      var rest := Without(gs[1..], g);
      assert ([gs[0]] + rest)[1..] == rest;
      assert [] + rest == rest;
      assert Is(g)(gs[0]) == (gs[0] == g);
    }
  }

  /** Sums over grouped rows are counts over the entries. */
  lemma {:induction false} SumIsCount(rows: seq<Row>, gs: seq<Group>, p: Group -> bool)
    requires Grouping(rows, gs)
    ensures SumIf(rows, p) == CountIf(gs, p)
  {
    if rows != [] {
      var g := rows[0].group;
      SumIsCount(rows[1..], Without(gs, g), p);
      CountWithout(gs, g, p);
    }
  }

  lemma {:induction false} CountAll(gs: seq<Group>)
    ensures CountIf(gs, Anything) == |gs|
  {
    if gs != [] { CountAll(gs[1..]); }
  }

  lemma {:induction false} SumSnoc(rows: seq<Row>, n: nat, p: Group -> bool)
    requires n < |rows|
    ensures SumIf(rows[..n + 1], p) == SumIf(rows[..n], p) + if p(rows[n].group) then rows[n].count else 0
  {
    if n == 0 {
      assert rows[..1] == [rows[0]] && rows[..1][1..] == [];
    } else {
      assert rows[..n + 1][1..] == rows[1..][..n] && rows[..n][1..] == rows[1..][..n - 1];
      SumSnoc(rows[1..], n - 1, p);
    }
  }

  /** The statistics as sums over grouped rows. */
  function Summed(rows: seq<Row>): Stats {
    Stats(SumIf(rows, Anything), SumIf(rows, Active), SumIf(rows, Resolved),
          SumIf(rows, Critical), SumIf(rows, High), SumIf(rows, Unread))
  }

  /** One more row adds its count to every statistic it belongs to. */
  lemma SummedSnoc(rows: seq<Row>, n: nat)
    requires n < |rows|
    ensures var s, g, c := Summed(rows[..n]), rows[n].group, rows[n].count;
            Summed(rows[..n + 1])
            == Stats(s.total + c, if Active(g) then s.active + c else s.active,
                     if Resolved(g) then s.resolved + c else s.resolved,
                     if Critical(g) then s.critical + c else s.critical,
                     if High(g) then s.high + c else s.high, if Unread(g) then s.unread + c else s.unread)
  {
    SumSnoc(rows, n, Anything);
    SumSnoc(rows, n, Active);
    SumSnoc(rows, n, Resolved);
    SumSnoc(rows, n, Critical);
    SumSnoc(rows, n, High);
    SumSnoc(rows, n, Unread);
  }

  lemma SummedIsDirect(rows: seq<Row>, alerts: seq<Alert>, tenant: string)
    requires Grouping(rows, GroupsOf(alerts, tenant))
    ensures Summed(rows) == Direct(alerts, tenant)
  {
    var gs := GroupsOf(alerts, tenant);
    SumIsCount(rows, gs, Anything);
    SumIsCount(rows, gs, Active);
    SumIsCount(rows, gs, Resolved);
    SumIsCount(rows, gs, Critical);
    SumIsCount(rows, gs, High);
    SumIsCount(rows, gs, Unread);
    CountAll(gs);
  }

  /** The statistics of a tenant, alert by alert. */
  function Tallied(alerts: seq<Alert>, tenant: string): Stats {
    if alerts == [] then Stats(0, 0, 0, 0, 0, 0)
    else
      var a, s := alerts[0], Tallied(alerts[1..], tenant);
      if a.tenant != tenant then s
      else Stats(s.total + 1, if a.status == "active" then s.active + 1 else s.active,
                 if a.status == "resolved" then s.resolved + 1 else s.resolved,
                 if a.severity == "critical" then s.critical + 1 else s.critical,
                 if a.severity == "high" then s.high + 1 else s.high, if a.isRead then s.unread else s.unread + 1)
  }

  lemma {:induction false} DirectIsTallied(alerts: seq<Alert>, tenant: string)
    ensures Direct(alerts, tenant) == Tallied(alerts, tenant)
  {
    if alerts != [] {
      DirectIsTallied(alerts[1..], tenant);
      var gs := GroupsOf(alerts[1..], tenant);
      if alerts[0].tenant == tenant {
        assert ([GroupOf(alerts[0])] + gs)[1..] == gs;
      } else {
        assert [] + gs == gs;
      }
    }
  }

  /** The accumulator loop over the grouped rows gives the direct statistics, in whatever order the rows come. */
  method GetStats(rows: seq<Row>, ghost alerts: seq<Alert>, ghost tenant: string) returns (stats: Stats)
    requires Grouping(rows, GroupsOf(alerts, tenant))
    ensures stats == Tallied(alerts, tenant)
  {
    stats := Stats(0, 0, 0, 0, 0, 0);
    for i := 0 to |rows|
      invariant stats == Summed(rows[..i])
    {
      SummedSnoc(rows, i);
      var Row(g, count) := rows[i];
      stats := stats.(total := stats.total + count);
      if g.status == "active" { stats := stats.(active := stats.active + count); }
      if g.status == "resolved" { stats := stats.(resolved := stats.resolved + count); }
      if g.severity == "critical" { stats := stats.(critical := stats.critical + count); }
      if g.severity == "high" { stats := stats.(high := stats.high + count); }
      if !g.isRead { stats := stats.(unread := stats.unread + count); }
    }
    assert rows[..|rows|] == rows;
    SummedIsDirect(rows, alerts, tenant);
    DirectIsTallied(alerts, tenant);
  }

  // ---------------------------------------------------------------- bulk operations

  function ReadOne(a: Alert, tenant: string): Alert {
    if a.tenant == tenant && !a.isRead then a.(isRead := true) else a
  }

  /** UPDATE ... SET is_read, and the number of rows it touched. */
  function MarkAllRead(alerts: seq<Alert>, tenant: string): (seq<Alert>, nat) {
    if alerts == [] then ([], 0)
    else
      var (rest, n) := MarkAllRead(alerts[1..], tenant);
      ([ReadOne(alerts[0], tenant)] + rest, n + if ReadOne(alerts[0], tenant) != alerts[0] then 1 else 0)
  }

  predicate ToResolve(a: Alert, tenant: string, category: string) {
    a.tenant == tenant && a.status == "active" && (category != "" ==> a.category == category)
  }

  function ResolveAll(alerts: seq<Alert>, tenant: string, category: string, now: real): (seq<Alert>, nat) {
    if alerts == [] then ([], 0)
    else
      var (rest, n) := ResolveAll(alerts[1..], tenant, category, now);
      if ToResolve(alerts[0], tenant, category)
      then ([alerts[0].(status := "resolved", resolvedAt := Some(now))] + rest, n + 1)
      else ([alerts[0]] + rest, n)
  }

  lemma GroupsCons(a: Alert, rest: seq<Alert>, tenant: string)
    ensures GroupsOf([a] + rest, tenant) == (if a.tenant == tenant then [GroupOf(a)] else []) + GroupsOf(rest, tenant)
  {
  }

  lemma CountCons(g: Group, gs: seq<Group>, p: Group -> bool)
    ensures CountIf([g] + gs, p) == (if p(g) then 1 else 0) + CountIf(gs, p)
  {
  }

  /** How one alert contributes to a count of its tenant. */
  lemma CountFirst(a: Alert, rest: seq<Alert>, tenant: string, p: Group -> bool)
    ensures CountIf(GroupsOf([a] + rest, tenant), p)
         == (if a.tenant == tenant && p(GroupOf(a)) then 1 else 0) + CountIf(GroupsOf(rest, tenant), p)
  {
    GroupsCons(a, rest, tenant);
    if a.tenant == tenant { CountCons(GroupOf(a), GroupsOf(rest, tenant), p); }
    else { assert [] + GroupsOf(rest, tenant) == GroupsOf(rest, tenant); }
  }

  /** It returns the unread count there was, leaves none, and keeps every other count. */
  lemma {:induction false} MarkAllReadCounts(alerts: seq<Alert>, tenant: string, p: Group -> bool)
    requires forall g: Group, r: bool :: p(g.(isRead := r)) == p(g)
    ensures var (alerts', n) := MarkAllRead(alerts, tenant);
            && n == CountIf(GroupsOf(alerts, tenant), Unread)
            && CountIf(GroupsOf(alerts', tenant), Unread) == 0
            && CountIf(GroupsOf(alerts', tenant), p) == CountIf(GroupsOf(alerts, tenant), p)
            && |alerts'| == |alerts|
            && forall i :: 0 <= i < |alerts| && alerts[i].tenant != tenant ==> alerts'[i] == alerts[i]
  {
    if alerts != [] {
      var a, rest := alerts[0], alerts[1..];
      MarkAllReadCounts(rest, tenant, p);
      assert alerts == [a] + rest;
      CountFirst(a, rest, tenant, Unread);
      CountFirst(a, rest, tenant, p);
      CountFirst(ReadOne(a, tenant), MarkAllRead(rest, tenant).0, tenant, Unread);
      CountFirst(ReadOne(a, tenant), MarkAllRead(rest, tenant).0, tenant, p);
      assert GroupOf(ReadOne(a, tenant)) == GroupOf(a).(isRead := ReadOne(a, tenant).isRead);
    }
  }

  /** It marks exactly the tenant's alerts as read, in place. */
  lemma {:induction false} MarkAllReadRows(alerts: seq<Alert>, tenant: string)
    ensures var alerts' := MarkAllRead(alerts, tenant).0;
            && |alerts'| == |alerts|
            && forall i :: 0 <= i < |alerts| ==>
                 alerts'[i] == if alerts[i].tenant == tenant then alerts[i].(isRead := true) else alerts[i]
  {
    if alerts != [] { MarkAllReadRows(alerts[1..], tenant); }
  }

  /** It moves exactly its row count from active to resolved and keeps the total, for any category. */
  lemma {:induction false} ResolveAllMoves(alerts: seq<Alert>, tenant: string, category: string, now: real)
    ensures var (alerts', n) := ResolveAll(alerts, tenant, category, now);
            && CountIf(GroupsOf(alerts', tenant), Active) + n == CountIf(GroupsOf(alerts, tenant), Active)
            && CountIf(GroupsOf(alerts', tenant), Resolved) == CountIf(GroupsOf(alerts, tenant), Resolved) + n
            && CountIf(GroupsOf(alerts', tenant), Anything) == CountIf(GroupsOf(alerts, tenant), Anything)
            && (category == "" ==> CountIf(GroupsOf(alerts', tenant), Active) == 0)
  {
    if alerts != [] {
      var a, rest := alerts[0], alerts[1..];
      var rest' := ResolveAll(rest, tenant, category, now).0;
      var a' := if ToResolve(a, tenant, category) then a.(status := "resolved", resolvedAt := Some(now)) else a;
      ResolveAllMoves(rest, tenant, category, now);
      assert alerts == [a] + rest;
      CountFirst(a, rest, tenant, Active);
      CountFirst(a, rest, tenant, Resolved);
      CountFirst(a, rest, tenant, Anything);
      CountFirst(a', rest', tenant, Active);
      CountFirst(a', rest', tenant, Resolved);
      CountFirst(a', rest', tenant, Anything);
    }
  }

  /** It changes exactly the tenant's active alerts of the category, or of every category, in place. */
  lemma {:induction false} ResolveAllRows(alerts: seq<Alert>, tenant: string, category: string, now: real)
    ensures var alerts' := ResolveAll(alerts, tenant, category, now).0;
            && |alerts'| == |alerts|
            && forall i :: 0 <= i < |alerts| ==>
                 if alerts[i].tenant == tenant && alerts[i].status == "active" && category in {"", alerts[i].category}
                 then alerts'[i] == alerts[i].(status := "resolved", resolvedAt := Some(now))
                 else alerts'[i] == alerts[i]
  {
    if alerts != [] { ResolveAllRows(alerts[1..], tenant, category, now); }
  }

  // ---------------------------------------------------------------- the table

  /** Whoever is resolved has a time of resolution. */
  predicate Dated(a: Alert) { a.status == "resolved" ==> a.resolvedAt.Some? }

  ghost predicate AllDated(alerts: seq<Alert>) { forall i :: 0 <= i < |alerts| ==> Dated(alerts[i]) }

  lemma {:induction false} ResolveAllDated(alerts: seq<Alert>, tenant: string, category: string, now: real)
    requires AllDated(alerts)
    ensures AllDated(ResolveAll(alerts, tenant, category, now).0)
  {
    if alerts != [] {
      assert Dated(alerts[0]);
      assert forall i :: 0 <= i < |alerts[1..]| ==> alerts[1..][i] == alerts[i + 1];
      ResolveAllDated(alerts[1..], tenant, category, now);
    }
  }

  lemma {:induction false} MarkAllReadDated(alerts: seq<Alert>, tenant: string)
    requires AllDated(alerts)
    ensures AllDated(MarkAllRead(alerts, tenant).0)
  {
    if alerts != [] {
      assert Dated(alerts[0]);
      assert forall i :: 0 <= i < |alerts[1..]| ==> alerts[1..][i] == alerts[i + 1];
      MarkAllReadDated(alerts[1..], tenant);
    }
  }

  class AlertTable {
    var alerts: seq<Alert>

    ghost predicate Valid()
      reads this
    {
      AllDated(alerts)
    }

    constructor ()
      ensures Valid() && alerts == []
    {
      alerts := [];
    }

    method Create(tenant: string, severity: string, category: string)
      requires Valid()
      modifies this
      ensures Valid() && alerts == old(alerts) + [Alert(tenant, severity, category, "active", false, None)]
    {
      alerts := alerts + [Alert(tenant, severity, category, "active", false, None)];
    }

    /** `owner` is the caller's tenant, if it is checked; false stands for the not-found error. */
    method Update(i: nat, status: Option<string>, isRead: Option<bool>, owner: Option<string>, now: real)
      returns (found: bool)
      requires Valid()
      modifies this
      ensures Valid() && |alerts| == |old(alerts)|
      ensures found <==> i < |alerts| && (owner.Some? ==> old(alerts)[i].tenant == owner.value)
      ensures !found ==> alerts == old(alerts)
      ensures found ==> forall j :: 0 <= j < |alerts| && j != i ==> alerts[j] == old(alerts)[j]
      ensures found ==> alerts[i] == old(alerts)[i].(
                status := if status.Some? then status.value else old(alerts)[i].status,
                isRead := if isRead.Some? then isRead.value else old(alerts)[i].isRead,
                resolvedAt := if status == Some("resolved") && old(alerts)[i].resolvedAt.None? then Some(now)
                              else old(alerts)[i].resolvedAt)
    {
      if i >= |alerts| || (owner.Some? && alerts[i].tenant != owner.value) { return false; }
      assert Dated(alerts[i]);
      var a := alerts[i];
      if status.Some? {
        a := a.(status := status.value);
        if status.value == "resolved" && a.resolvedAt.None? { a := a.(resolvedAt := Some(now)); }
      }
      if isRead.Some? { a := a.(isRead := isRead.value); }
      alerts := alerts[i := a];
      found := true;
    }

    method MarkRead(tenant: string) returns (n: nat)
      requires Valid()
      modifies this
      ensures Valid() && (alerts, n) == MarkAllRead(old(alerts), tenant)
    {
      MarkAllReadDated(alerts, tenant);
      var result := MarkAllRead(alerts, tenant);
      alerts, n := result.0, result.1;
    }

    method Resolve(tenant: string, category: string, now: real) returns (n: nat)
      requires Valid()
      modifies this
      ensures Valid() && (alerts, n) == ResolveAll(old(alerts), tenant, category, now)
    {
      ResolveAllDated(alerts, tenant, category, now);
      var result := ResolveAll(alerts, tenant, category, now);
      alerts, n := result.0, result.1;
    }
  }
}
