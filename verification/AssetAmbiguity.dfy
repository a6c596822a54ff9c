/**
 * If a lookup of the asset synchronisation has two answers, a second synchronisation that reads
 * the rows in another order can change risks or relationships: the exact condition.
 */
module AssetAmbiguity {
  import opened Basics
  import opened Text
  import opened Shuffles
  import opened Assets
  import opened AssetRisk
  import opened AssetRelations
  import opened AssetSync
  import opened AssetOrder

  // ---------------------------------------------------------------- another risk in another order

  /** A second synchronisation that reads the table in the order `u` and the repositories in the order `rs`. */
  lemma SyncsInOrder(rows: seq<Asset>, edges: seq<Edge>, tenant: string, us: seq<Report>, stamps: seq<Stamp>,
                     repos: seq<Repo>, fs: seq<Finding>, t: seq<Asset>, rs: seq<Repo>, t': seq<Asset>)
    requires |stamps| == |us| && Shuffled(UpsertAll(rows, us, stamps), t) && Shuffled(repos, rs)
    requires Shuffled(Recompute(t, tenant, rs, fs), t')
    ensures Syncs(rows, edges, tenant, us, stamps, repos, fs,
                  Recompute(t, tenant, rs, fs), BuildEdges(edges, t', tenant))
  {
  }

  /** The last repository of the list that is taken for asset `j`. */
  function LastRater(t: seq<Asset>, j: nat, tenant: string, repos: seq<Repo>): Option<Repo> {
    if repos == [] then None
    else if Target(t, tenant, repos[|repos| - 1]) == Some(j) then Some(repos[|repos| - 1])
    else LastRater(t, j, tenant, repos[..|repos| - 1])
  }

  lemma {:induction false} FindingsByLastRater(t: seq<Asset>, j: nat, row: Asset, tenant: string, repos: seq<Repo>,
                                               fs: seq<Finding>)
    ensures var last := LastRater(t, j, tenant, repos);
            && (last.Some? ==> last.value in repos && Target(t, tenant, last.value) == Some(j))
            && RateRow(t, j, row, tenant, repos, fs).openFindings
               == if last.Some? then TotalOpen(fs, last.value.id) else row.openFindings
  {
    if repos != [] {
      var n := |repos| - 1;
      FindingsByLastRater(t, j, row, tenant, repos[..n], fs);
      RateRowSnoc(t, j, row, tenant, repos[..n], repos[n], fs);
      assert repos == repos[..n] + [repos[n]];
    }
  }

  function OpenFindings(repo: string, n: nat): seq<Finding> {
    if n == 0 then [] else [Finding(repo, "critical", "open", true)] + OpenFindings(repo, n - 1)
  }

  lemma {:induction false} OpenFindingsCount(repo: string, n: nat, other: string)
    ensures TotalOpen(OpenFindings(repo, n), other) == if other == repo then n else 0
  {
    if n > 0 { OpenFindingsCount(repo, n - 1, other); }
  }

  /** Moved to the end of its table, an asset that answers is found. */
  lemma AnswerAtEnd(t: seq<Asset>, tenant: string, repo: Repo)
    requires t != [] && Answers(t, tenant, repo, t[|t| - 1])
    ensures Target(t, tenant, repo) == Some(|t| - 1)
  {
    LastSound(t, tenant, repo.fullName);
  }

  lemma LastRates(t: seq<Asset>, tenant: string, rs: seq<Repo>, fs: seq<Finding>)
    requires rs != [] && t != [] && Answers(t, tenant, rs[|rs| - 1], t[|t| - 1])
    ensures var r := Recompute(t, tenant, rs, fs);
            |r| == |t| && r[|t| - 1].openFindings == TotalOpen(fs, rs[|rs| - 1].id) && SameShape(r[|t| - 1], t[|t| - 1])
  {
    var n := |rs| - 1;
    AnswerAtEnd(t, tenant, rs[n]);
    RecomputeRowwise(t, t, tenant, rs, fs);
    RateRowSnoc(t, |t| - 1, t[|t| - 1], tenant, rs[..n], rs[n], fs);
    assert rs == rs[..n] + [rs[n]];
    RecomputedShapes(t, tenant, rs, fs);
  }

  /** In tables that are the same, one key has one number of findings. */
  lemma RowsAgree(a: seq<Asset>, b: seq<Asset>, i: nat, j: nat)
    requires UniqueKeys(a) && i < |a| && j < |b| && a[i].key == b[j].key && SameRows(a, b)
    ensures a[i].openFindings == b[j].openFindings
  {
    ShuffledMembers(BareAll(a), BareAll(b));
    assert BareAll(b)[j] in BareAll(a);
    var k :| 0 <= k < |a| && BareAll(a)[k] == BareAll(b)[j];
    assert a[k].key == Bare(a[k]).key == Bare(b[j]).key == a[i].key;
    assert k == i;
  }

  /** Two synchronisations that end differently. */
  lemma NotStable(rows: seq<Asset>, tenant: string, us: seq<Report>, stamps: seq<Stamp>, repos: seq<Repo>,
                  fs: seq<Finding>, once: seq<Asset>, e1: seq<Edge>, twice: seq<Asset>, e2: seq<Edge>)
    requires |stamps| == |us|
    requires Syncs(rows, [], tenant, us, stamps, repos, fs, once, e1)
    requires Syncs(once, e1, tenant, us, stamps, repos, fs, twice, e2)
    requires !SameRows(once, twice) || e2 != e1
    ensures !Stable(rows, tenant, us, stamps, repos)
  {
    assert TwoSyncs(rows, [], tenant, us, stamps, repos, fs, once, e1, once, stamps, twice, e2);
  }

  /** The second synchronisation can rate asset `j` last by repository `i`. */
  lemma RatedLast(t: seq<Asset>, once: seq<Asset>, upserted: seq<Asset>, tenant: string, repos: seq<Repo>,
                  fs: seq<Finding>, j: nat, i: nat)
    returns (u: seq<Asset>, rs: seq<Repo>)
    requires UniqueKeys(t) && once == Recompute(t, tenant, repos, fs) && i < |repos| && j < |t|
    requires |upserted| == |t| && SameShapes(once, upserted) && Alike(t, upserted)
    requires Answers(t, tenant, repos[i], t[j])
    ensures Shuffled(upserted, u) && Shuffled(repos, rs)
    ensures |Recompute(u, tenant, rs, fs)| == |t|
    ensures var last := Recompute(u, tenant, rs, fs)[|t| - 1];
            last.key == t[j].key && last.openFindings == TotalOpen(fs, repos[i].id)
  {
    u, rs := MoveLast(upserted, j), MoveLast(repos, i);
    MoveLastShuffles(upserted, j);
    MoveLastShuffles(repos, i);
    MovedAnswers(t, once, upserted, u, tenant, repos, fs, j, repos[i]);
    LastRates(u, tenant, rs, fs);
  }

  /** Two tables that differ in the findings of one key. */
  lemma FindingsDiffer(a: seq<Asset>, b: seq<Asset>, j: nat, k: nat)
    requires UniqueKeys(a) && j < |a| && k < |b| && a[j].key == b[k].key && a[j].openFindings != b[k].openFindings
    ensures !SameRows(a, b)
  {
    if SameRows(a, b) { RowsAgree(a, b, j, k); }
  }

  /** Findings of a repository whose number is not what the first synchronisation gives asset `j`. */
  lemma NewFindings(t: seq<Asset>, j: nat, tenant: string, repos: seq<Repo>, r: Repo) returns (fs: seq<Finding>)
    requires UniqueRepos(repos) && j < |t| && r in repos && LastRater(t, j, tenant, repos) != Some(r)
    ensures |Recompute(t, tenant, repos, fs)| == |t|
    ensures Recompute(t, tenant, repos, fs)[j].openFindings != TotalOpen(fs, r.id)
  {
    var n := if t[j].openFindings < 0 then 1 else t[j].openFindings + 1;
    fs := OpenFindings(r.id, n);
    RecomputeRowwise(t, t, tenant, repos, fs);
    FindingsByLastRater(t, j, t[j], tenant, repos, fs);
    OpenFindingsCount(r.id, n, r.id);
    var last := LastRater(t, j, tenant, repos);
    if last.Some? {
      assert last.value.id != r.id;
      OpenFindingsCount(r.id, n, last.value.id);
    }
  }

  /** What of upserting again is needed to rate a row another time. */
  lemma UpsertedShapes(t: seq<Asset>, tenant: string, repos: seq<Repo>, fs: seq<Finding>, us: seq<Report>,
                       once: seq<Asset>, stamps: seq<Stamp>)
    requires |stamps| == |us| && AllSettled(t, us) && once == Recompute(t, tenant, repos, fs)
    ensures UniqueKeys(t) && Between(t, once, UpsertAll(once, us, stamps))
  {
    UpsertedAgain(t, tenant, repos, fs, us, once, stamps);
    Recomputed(t, tenant, repos, fs);
    assert forall j :: 0 <= j < |t| ==> SameShape(t[j], once[j]);
  }

  /** A rated table, and what it is upserted to. */
  ghost predicate Between(t: seq<Asset>, once: seq<Asset>, upserted: seq<Asset>) {
    && UniqueKeys(once) && |once| == |t| == |upserted| && (forall j :: 0 <= j < |t| ==> once[j].key == t[j].key)
    && SameShapes(once, upserted) && Alike(t, upserted)
  }

  lemma RatedApart(t: seq<Asset>, once: seq<Asset>, upserted: seq<Asset>, tenant: string, repos: seq<Repo>,
                   fs: seq<Finding>, j: nat, i: nat)
    returns (u: seq<Asset>, rs: seq<Repo>)
    requires UniqueKeys(t) && Between(t, once, upserted) && i < |repos| && j < |t|
    requires once == Recompute(t, tenant, repos, fs) && once[j].openFindings != TotalOpen(fs, repos[i].id)
    requires Answers(t, tenant, repos[i], t[j])
    ensures Shuffled(upserted, u) && Shuffled(repos, rs)
    ensures !SameRows(once, Recompute(u, tenant, rs, fs))
  {
    u, rs := RatedLast(t, once, upserted, tenant, repos, fs, j, i);
    FindingsDiffer(once, Recompute(u, tenant, rs, fs), j, |t| - 1);
  }

  /**
   * An asset answers a repository that is not its last rater in the first synchronisation: with
   * findings of that repository, the second can rate it by them.
   */
  lemma RiskChanges(t: seq<Asset>, tenant: string, us: seq<Report>, stamps: seq<Stamp>, repos: seq<Repo>,
                    j: nat, i: nat) returns (fs: seq<Finding>, u: seq<Asset>, rs: seq<Repo>)
    requires |stamps| == |us| && UniqueRepos(repos) && i < |repos| && AllSettled(t, us) && j < |t|
    requires Answers(t, tenant, repos[i], t[j]) && LastRater(t, j, tenant, repos) != Some(repos[i])
    ensures Shuffled(UpsertAll(Recompute(t, tenant, repos, fs), us, stamps), u) && Shuffled(repos, rs)
    ensures !SameRows(Recompute(t, tenant, repos, fs), Recompute(u, tenant, rs, fs))
  {
    fs := NewFindings(t, j, tenant, repos, repos[i]);
    var once := Recompute(t, tenant, repos, fs);
    UpsertedShapes(t, tenant, repos, fs, us, once, stamps);
    u, rs := RatedApart(t, once, UpsertAll(once, us, stamps), tenant, repos, fs, j, i);
  }

  lemma RiskUnstable(rows: seq<Asset>, tenant: string, us: seq<Report>, stamps: seq<Stamp>, repos: seq<Repo>,
                     t: seq<Asset>, j: nat, i: nat)
    requires |stamps| == |us| && UniqueRepos(repos) && i < |repos| && j < |t|
    requires t == UpsertAll(rows, us, stamps) && AllSettled(t, us)
    requires Answers(t, tenant, repos[i], t[j]) && LastRater(t, j, tenant, repos) != Some(repos[i])
    ensures !Stable(rows, tenant, us, stamps, repos)
  {
    var fs, u, rs := RiskChanges(t, tenant, us, stamps, repos, j, i);
    var once, twice := Recompute(t, tenant, repos, fs), Recompute(u, tenant, rs, fs);
    var e1 := BuildEdges([], once, tenant);
    SyncsInOrder(rows, [], tenant, us, stamps, repos, fs, t, repos, once);
    SyncsInOrder(once, e1, tenant, us, stamps, repos, fs, u, rs, twice);
    NotStable(rows, tenant, us, stamps, repos, fs, once, e1, twice, BuildEdges(e1, twice, tenant));
  }

  lemma MovedAnswers(t: seq<Asset>, once: seq<Asset>, u: seq<Asset>, u': seq<Asset>, tenant: string,
                     repos: seq<Repo>, fs: seq<Finding>, j: nat, r: Repo)
    requires UniqueKeys(t) && j < |t| && Answers(t, tenant, r, t[j]) && once == Recompute(t, tenant, repos, fs)
    requires SameShapes(once, u) && Alike(t, u) && |u| == |t| && u' == MoveLast(u, j)
    ensures Answers(u', tenant, r, u'[|u'| - 1]) && u'[|u'| - 1].key == t[j].key == once[j].key
  {
    Recomputed(t, tenant, repos, fs);
    assert SameShape(t[j], once[j]) && SameShape(once[j], u[j]);
    assert SameShape(t[j], u[j]);
    AnswersByShape(t, u, tenant, r, t[j], u[j]);
    MoveLastShuffles(u, j);
    ShuffledMembers(u, u');
    assert u'[|u'| - 1] == u[j];
  }

  /** Some asset answers a repository that is not the last to rate it. */
  lemma NotOneToOne(t: seq<Asset>, tenant: string, repos: seq<Repo>) returns (j: nat, i: nat)
    requires !OneToOne(t, tenant, repos)
    ensures j < |t| && i < |repos| && Answers(t, tenant, repos[i], t[j])
    ensures LastRater(t, j, tenant, repos) != Some(repos[i])
  {
    var r1, r2, a1, a2 :|
      && r1 in repos && r2 in repos && Answers(t, tenant, r1, a1) && Answers(t, tenant, r2, a2)
      && (r1 == r2) != (a1 == a2);
    var j1, j2 := IndexIn(t, a1), IndexIn(t, a2);
    FindingsByLastRater(t, j1, a1, tenant, repos, []);
    FindingsByLastRater(t, j2, a2, tenant, repos, []);
    var r := r1;
    if LastRater(t, j1, tenant, repos) != Some(r1) {
      j := j1;
    } else {
      j, r := j2, r2;
    }
    i :| 0 <= i < |repos| && repos[i] == r;
  }

  // ---------------------------------------------------------------- another edge in another order

  lemma {:induction false} InferredFrom(t: seq<Asset>, tenant: string, from: nat, e: Edge)
    requires from <= |t| && e in Inferred(t, tenant, from)
    ensures exists p :: p in t && IsPod(p, tenant) && e in PodEdges(t, tenant, p)
    decreases |t| - from
  {
    if !(IsPod(t[from], tenant) && e in PodEdges(t, tenant, t[from])) { InferredFrom(t, tenant, from + 1, e); }
  }

  lemma SameIdSameRow(t: seq<Asset>, x: Asset, y: Asset)
    requires UniqueIds(t) && x in t && y in t && x.id == y.id
    ensures x == y
  {
  }

  /** The pod that an inferred edge belongs to, and the lookups it came from. */
  lemma EdgeLookups(t: seq<Asset>, tenant: string, e: Edge) returns (q: Asset)
    requires e in Inferred(t, tenant, 0)
    ensures q in t && IsPod(q, tenant)
    ensures NamespaceId(t, tenant, q.details.cluster.value, q.details.namespace.value) == Some(e.target)
    ensures e.source == q.id || ClusterId(t, tenant, q.details.cluster.value) == Some(e.source)
  {
    InferredFrom(t, tenant, 0, e);
    q :| q in t && IsPod(q, tenant) && e in PodEdges(t, tenant, q);
  }

  /** The lookup of a cluster name finds a cluster of that name. */
  lemma ClusterOfName(t: seq<Asset>, tenant: string, name: string) returns (c: Asset)
    requires ClusterId(t, tenant, name).Some?
    ensures c in t && IsCluster(c, tenant, name) && ClusterId(t, tenant, name) == Some(c.id)
  {
    LookupsSound(t, tenant, name, "");
    var k :| 0 <= k < |t| && IsCluster(t[k], tenant, name) && t[k].id == ClusterId(t, tenant, name).value;
    c := t[k];
  }

  /** An edge that starts at a pod ends at the namespace that its lookup finds. */
  lemma PodEdgeEnds(t: seq<Asset>, tenant: string, p: Asset, e: Edge)
    requires UniqueIds(t) && p in t && IsPod(p, tenant) && e in Inferred(t, tenant, 0) && e.source == p.id
    ensures NamespaceId(t, tenant, p.details.cluster.value, p.details.namespace.value) == Some(e.target)
  {
    var q := EdgeLookups(t, tenant, e);
    if e.source == q.id {
      SameIdSameRow(t, p, q);
    } else {
      var c := ClusterOfName(t, tenant, q.details.cluster.value);
      SameIdSameRow(t, p, c);
    }
  }

  /** An edge that starts at a cluster starts at the one that the lookup of its name finds. */
  lemma ClusterEdgeStarts(t: seq<Asset>, tenant: string, c: Asset, e: Edge)
    requires UniqueIds(t) && c in t && IsCluster(c, tenant, c.name) && e in Inferred(t, tenant, 0) && e.source == c.id
    ensures ClusterId(t, tenant, c.name) == Some(c.id)
  {
    var q := EdgeLookups(t, tenant, e);
    if ClusterId(t, tenant, q.details.cluster.value) == Some(e.source) {
      var k := ClusterOfName(t, tenant, q.details.cluster.value);
      SameIdSameRow(t, c, k);
    } else {
      SameIdSameRow(t, c, q);
    }
  }

  /** The pod in a table of the same shapes, in another order. */
  lemma PodMoved(a: seq<Asset>, b: seq<Asset>, p: Asset, k: nat) returns (i: nat)
    requires SameShapes(a, b) && k < |a| && p in a
    ensures i < |b| && SameShape(p, MoveLast(b, k)[i])
  {
    MoveLastShuffles(b, k);
    ShuffledMembers(b, MoveLast(b, k));
    var j := IndexIn(a, p);
    assert SameShape(a[j], b[j]) && b[j] in b;
    i := IndexIn(MoveLast(b, k), b[j]);
  }

  lemma NotInferred(t: seq<Asset>, tenant: string, e: Edge)
    requires forall x :: SameEdge(x, e) ==> x !in Inferred(t, tenant, 0)
    ensures !Wanted(Inferred(t, tenant, 0), e)
  {
  }

  /** With another namespace last, the pod gets an edge to that one. */
  lemma OtherNamespace(a: seq<Asset>, b: seq<Asset>, tenant: string, p: Asset, k: nat) returns (e: Edge)
    requires UniqueIds(a) && SameShapes(a, b) && k < |a| && p in a && RunsIn(p, a[k], tenant)
    requires NamespaceId(a, tenant, p.details.cluster.value, p.details.namespace.value) != Some(a[k].id)
    ensures e in Inferred(MoveLast(b, k), tenant, 0) && !Wanted(Inferred(a, tenant, 0), e)
  {
    var b' := MoveLast(b, k);
    var i := PodMoved(a, b, p, k);
    assert SameShape(a[k], b[k]);
    e := Edge(tenant, p.id, a[k].id, "contains");
    forall x | SameEdge(x, e) ensures x !in Inferred(a, tenant, 0) {
      if x in Inferred(a, tenant, 0) { PodEdgeEnds(a, tenant, p, x); }
    }
    NotInferred(a, tenant, e);
    assert PodEdges(b', tenant, b'[i])[0] == e;
    InferredHas(b', tenant, 0, i, e);
  }

  /** With another cluster last, the pod's namespace gets an edge from that one. */
  lemma OtherCluster(a: seq<Asset>, b: seq<Asset>, tenant: string, p: Asset, n: Asset, k: nat) returns (e: Edge)
    requires UniqueIds(a) && SameShapes(a, b) && k < |a| && p in a && n in a && RunsIn(p, n, tenant)
    requires RunsOn(p, a[k], tenant) && ClusterId(a, tenant, p.details.cluster.value) != Some(a[k].id)
    ensures e in Inferred(MoveLast(b, k), tenant, 0) && !Wanted(Inferred(a, tenant, 0), e)
  {
    var b' := MoveLast(b, k);
    var i := PodMoved(a, b, p, k);
    var j := PodMoved(a, b, n, k);
    assert SameShape(a[k], b[k]);
    var cluster, name := p.details.cluster.value, p.details.namespace.value;
    assert IsNamespace(b'[j], tenant, cluster, name);
    LookupsSound(b', tenant, cluster, name);
    e := Edge(tenant, a[k].id, NamespaceId(b', tenant, cluster, name).value, "contains");
    forall x | SameEdge(x, e) ensures x !in Inferred(a, tenant, 0) {
      if x in Inferred(a, tenant, 0) { ClusterEdgeStarts(a, tenant, a[k], x); }
    }
    NotInferred(a, tenant, e);
    assert PodEdges(b', tenant, b'[i])[1] == e;
    InferredHas(b', tenant, 0, i, e);
  }

  /** In the table with row `k` last, there is an edge that there is not in the table as it was. */
  lemma OtherEdge(a: seq<Asset>, b: seq<Asset>, tenant: string) returns (k: nat, e: Edge)
    requires UniqueIds(a) && SameShapes(a, b) && !OneLookup(a, tenant)
    ensures k < |b| && e in Inferred(MoveLast(b, k), tenant, 0) && !Wanted(Inferred(a, tenant, 0), e)
  {
    if p, n1, n2 :| TwoNamespaces(a, tenant, p, n1, n2) {
      k := IndexIn(a, n1);
      if NamespaceId(a, tenant, p.details.cluster.value, p.details.namespace.value) == Some(n1.id) {
        k := IndexIn(a, n2);
        if n1.id == n2.id { SameIdSameRow(a, n1, n2); }
      }
      e := OtherNamespace(a, b, tenant, p, k);
    } else {
      var p, n, c1, c2 :| TwoClusters(a, tenant, p, n, c1, c2);
      k := IndexIn(a, c1);
      if ClusterId(a, tenant, p.details.cluster.value) == Some(c1.id) {
        k := IndexIn(a, c2);
        if c1.id == c2.id { SameIdSameRow(a, c1, c2); }
      }
      e := OtherCluster(a, b, tenant, p, n, k);
    }
  }

  /** Relationships built in two orders of tables of the same shapes. */
  lemma EdgesChange(a: seq<Asset>, b: seq<Asset>, tenant: string) returns (b': seq<Asset>)
    requires UniqueIds(a) && SameShapes(a, b) && !OneLookup(a, tenant)
    ensures Shuffled(b, b') && BuildEdges(BuildEdges([], a, tenant), b', tenant) != BuildEdges([], a, tenant)
  {
    var k, e := OtherEdge(a, b, tenant);
    b' := MoveLast(b, k);
    MoveLastShuffles(b, k);
    var es, es' := Inferred(a, tenant, 0), Inferred(b', tenant, 0);
    assert UniqueEdges([]) && !Stored([], e);
    UpsertEdgesStores([], es);
    UpsertEdgesStores(BuildEdges([], a, tenant), es');
    var i :| 0 <= i < |es'| && es'[i] == e;
    assert SameEdge(es'[i], e);
    assert Wanted(es', e);
  }

  lemma IdsByShape(a: seq<Asset>, b: seq<Asset>)
    requires SameShapes(a, b) && UniqueIds(a)
    ensures UniqueIds(b)
  {
    forall i, j | 0 <= i < j < |b| ensures b[i].id != b[j].id {
      assert SameShape(a[i], b[i]) && SameShape(a[j], b[j]);
    }
  }

  lemma ShapesVia(a: seq<Asset>, b: seq<Asset>, c: seq<Asset>)
    requires SameShapes(a, b) && SameShapes(c, b)
    ensures SameShapes(a, c)
  {
    forall j | 0 <= j < |a| ensures SameShape(a[j], c[j]) {
      assert SameShape(a[j], b[j]) && SameShape(c[j], b[j]);
    }
  }

  /** Reading the rows as they are in the first synchronisation, and one asset last in the second. */
  lemma EdgesUnstable(rows: seq<Asset>, tenant: string, us: seq<Report>, stamps: seq<Stamp>, repos: seq<Repo>,
                      t: seq<Asset>)
    requires |stamps| == |us| && t == UpsertAll(rows, us, stamps) && AllSettled(t, us)
    requires UniqueIds(t) && !OneLookup(t, tenant)
    ensures !Stable(rows, tenant, us, stamps, repos)
  {
    var once := Recompute(t, tenant, repos, []);
    var u := UpsertAll(once, us, stamps);
    var twice := Recompute(u, tenant, repos, []);
    UpsertedShapes(t, tenant, repos, [], us, once, stamps);
    Recomputed(t, tenant, repos, []);
    RecomputedShapes(u, tenant, repos, []);
    IdsByShape(t, once);
    ShapesAlike(t, once);
    AlikeSym(t, once);
    if OneLookup(once, tenant) { OneLookupByShape(once, t, tenant); }
    ShapesVia(once, u, twice);
    var b' := EdgesChange(once, twice, tenant);
    var e1 := BuildEdges([], once, tenant);
    SyncsInOrder(rows, [], tenant, us, stamps, repos, [], t, repos, once);
    SyncsInOrder(once, e1, tenant, us, stamps, repos, [], u, repos, b');
    NotStable(rows, tenant, us, stamps, repos, [], once, e1, twice, BuildEdges(e1, b', tenant));
  }

  // ---------------------------------------------------------------- the condition

  /** Row ids are unique, and new rows get new ones. */
  ghost predicate FreshIds(rows: seq<Asset>, stamps: seq<Stamp>) {
    && UniqueIds(rows)
    && (forall i, j :: 0 <= i < j < |stamps| ==> stamps[i].id != stamps[j].id)
    && (forall i, j :: 0 <= i < |rows| && 0 <= j < |stamps| ==> rows[i].id != stamps[j].id)
  }

  lemma {:induction false} UpsertedIds(rows: seq<Asset>, us: seq<Report>, stamps: seq<Stamp>)
    requires |stamps| == |us| && FreshIds(rows, stamps)
    ensures UniqueIds(UpsertAll(rows, us, stamps))
    decreases us
  {
    if us != [] {
      var rows' := Upsert(rows, us[0], stamps[0]);
      assert forall i :: 0 <= i < |rows'| ==> rows'[i].id == if i < |rows| then rows[i].id else stamps[0].id;
      UpsertedIds(rows', us[1..], stamps[1..]);
    }
  }

  lemma Settles(rows: seq<Asset>, us: seq<Report>, stamps: seq<Stamp>)
    requires |stamps| == |us| && UniqueKeys(rows)
    ensures AllSettled(UpsertAll(rows, us, stamps), us)
  {
    StartSettled(rows);
    assert us == [] + us;
    SyncSettles(rows, [], us, us, stamps);
  }

  lemma StableIf(rows: seq<Asset>, tenant: string, us: seq<Report>, stamps: seq<Stamp>, repos: seq<Repo>, t: seq<Asset>)
    requires |stamps| == |us| && UniqueRepos(repos) && t == UpsertAll(rows, us, stamps) && AllSettled(t, us)
    requires OneToOne(t, tenant, repos) && OneLookup(t, tenant)
    ensures Stable(rows, tenant, us, stamps, repos)
  {
    forall fs, edges, once, e1, o, stamps', twice, e2 |
      TwoSyncs(rows, edges, tenant, us, stamps, repos, fs, once, e1, o, stamps', twice, e2)
      ensures SameRows(once, twice) && e2 == e1
    {
      var s, rs, s' :|
        && Shuffled(t, s) && Shuffled(repos, rs) && once == Recompute(s, tenant, rs, fs)
        && Shuffled(once, s') && e1 == BuildEdges(edges, s', tenant);
      var u, rs', u' :|
        && Shuffled(UpsertAll(o, us, stamps'), u) && Shuffled(repos, rs') && twice == Recompute(u, tenant, rs', fs)
        && Shuffled(twice, u') && e2 == BuildEdges(e1, u', tenant);
      PairStable(t, edges, tenant, us, repos, fs, once, e1, o, stamps', twice, e2, s, rs, s', u, rs', u');
    }
  }

  /**
   * Whatever the findings and in whatever order the queries return their rows, a second
   * synchronisation changes nothing but last_synced_at, if and only if no lookup has two answers.
   */
  lemma SyncAllStableIff(rows: seq<Asset>, tenant: string, us: seq<Report>, stamps: seq<Stamp>, repos: seq<Repo>)
    requires |stamps| == |us| && UniqueKeys(rows) && FreshIds(rows, stamps) && UniqueRepos(repos)
    ensures Stable(rows, tenant, us, stamps, repos) <==>
            OneToOne(UpsertAll(rows, us, stamps), tenant, repos) && OneLookup(UpsertAll(rows, us, stamps), tenant)
  {
    var t := UpsertAll(rows, us, stamps);
    Settles(rows, us, stamps);
    UpsertedIds(rows, us, stamps);
    if !OneToOne(t, tenant, repos) {
      var j, i := NotOneToOne(t, tenant, repos);
      RiskUnstable(rows, tenant, us, stamps, repos, t, j, i);
    } else if !OneLookup(t, tenant) {
      EdgesUnstable(rows, tenant, us, stamps, repos, t);
    } else {
      StableIf(rows, tenant, us, stamps, repos, t);
    }
  }

  // ---------------------------------------------------------------- two inputs with two answers

  ghost predicate UniqueReports(us: seq<Report>) {
    forall i, j :: 0 <= i < j < |us| ==> us[i].key != us[j].key
  }

  /** Reports of different keys that no row has are all inserted, in order. */
  lemma {:induction false} AllInserted(rows: seq<Asset>, us: seq<Report>, stamps: seq<Stamp>)
    requires |stamps| == |us| && UniqueReports(us) && forall k :: 0 <= k < |us| ==> !HasKey(rows, us[k].key)
    ensures |UpsertAll(rows, us, stamps)| == |rows| + |us|
    ensures forall j :: 0 <= j < |rows| ==> UpsertAll(rows, us, stamps)[j] == rows[j]
    ensures forall k :: 0 <= k < |us| ==> UpsertAll(rows, us, stamps)[|rows| + k] == Insert(us[k], stamps[k])
    decreases us
  {
    if us != [] {
      var rows' := rows + [Insert(us[0], stamps[0])];
      assert Upsert(rows, us[0], stamps[0]) == rows' by { assert !HasKey(rows, us[0].key); }
      forall k | 0 <= k < |us[1..]| ensures !HasKey(rows', us[1..][k].key) { NotInserted(rows, us, stamps[0], k + 1); }
      AllInserted(rows', us[1..], stamps[1..]);
      LaterInserted(rows, us, stamps, UpsertAll(rows', us[1..], stamps[1..]));
    }
  }

  lemma LaterInserted(rows: seq<Asset>, us: seq<Report>, stamps: seq<Stamp>, t: seq<Asset>)
    requires us != [] && |stamps| == |us| && |t| == |rows| + |us| && t[|rows|] == Insert(us[0], stamps[0])
    requires forall k :: 0 <= k < |us[1..]| ==> t[|rows| + 1 + k] == Insert(us[1..][k], stamps[1..][k])
    ensures forall k :: 0 <= k < |us| ==> t[|rows| + k] == Insert(us[k], stamps[k])
  {
    forall k | 0 < k < |us| ensures t[|rows| + k] == Insert(us[k], stamps[k]) {
      assert t[|rows| + 1 + (k - 1)] == Insert(us[1..][k - 1], stamps[1..][k - 1]);
    }
  }

  lemma NotInserted(rows: seq<Asset>, us: seq<Report>, stamp: Stamp, k: nat)
    requires UniqueReports(us) && 0 < k < |us| && !HasKey(rows, us[k].key)
    ensures !HasKey(rows + [Insert(us[0], stamp)], us[k].key)
  {
    assert us[k].key != us[0].key;
  }

  const NoDetails := Details(None, None, None, None, None, None, None, None)

  function ClusterKey(tenant: string, integration: string, rest: string): Key {
    Key(tenant, "kubernetes", "k8s-cluster-" + integration + rest)
  }

  /** What a Kubernetes integration reports: its cluster, a namespace and a pod in it. */
  function Kubernetes(tenant: string, integration: string, cluster: string, ns: string, pod: string, env: string)
    : (us: seq<Report>)
    ensures |us| == 3
  {
    [Report(ClusterKey(tenant, integration, ""), Some(integration), "k8s_cluster", cluster, "production",
            NoDetails, map[], map[], None, false),
     Report(ClusterKey(tenant, integration, "/" + ns), Some(integration), "k8s_namespace", ns, env,
            NoDetails.(cluster := Some(cluster)), map[], map["cluster" := cluster], None, false),
     Report(ClusterKey(tenant, integration, "/" + ns + "/" + pod), Some(integration), "k8s_pod", pod, env,
            NoDetails.(cluster := Some(cluster), namespace := Some(ns)), map[], map["cluster" := cluster], None, false)]
  }

  /** A key tells its integration. */
  lemma ClusterKeyCut(tenant: string, i1: string, i2: string, a: string, b: string)
    requires '/' !in i1 && '/' !in i2 && (a == "" || a[0] == '/') && (b == "" || b[0] == '/')
    requires ClusterKey(tenant, i1, a) == ClusterKey(tenant, i2, b)
    ensures i1 == i2
  {
    var prefix := "k8s-cluster-";
    assert (prefix + i1 + a)[|prefix|..] == i1 + a && (prefix + i2 + b)[|prefix|..] == i2 + b;
    assert a + "/" == ['/'] + (a + "/")[1..] && b + "/" == ['/'] + (b + "/")[1..];
    assert i1 + ['/'] + (a + "/")[1..] == i1 + a + "/" == i2 + b + "/" == i2 + ['/'] + (b + "/")[1..];
    FirstCut(i1, (a + "/")[1..], i2, (b + "/")[1..], '/');
  }

  lemma KubernetesKeys(tenant: string, i1: string, i2: string, cluster: string, ns: string, pod: string, env: string)
    requires i1 != i2 && '/' !in i1 && '/' !in i2
    ensures UniqueReports(Kubernetes(tenant, i1, cluster, ns, pod, env) + Kubernetes(tenant, i2, cluster, ns, pod, env))
  {
    var a, b := Kubernetes(tenant, i1, cluster, ns, pod, env), Kubernetes(tenant, i2, cluster, ns, pod, env);
    var rests := ["", "/" + ns, "/" + ns + "/" + pod];
    assert forall k :: 0 <= k < 3 ==> a[k].key == ClusterKey(tenant, i1, rests[k]);
    assert forall k :: 0 <= k < 3 ==> b[k].key == ClusterKey(tenant, i2, rests[k]);
    forall k, l | 0 <= k < 3 && 0 <= l < 3 ensures a[k].key != b[l].key {
      if a[k].key == b[l].key { ClusterKeyCut(tenant, i1, i2, rests[k], rests[l]); }
    }
    forall k, l | 0 <= k < l < 3 ensures a[k].key != a[l].key && b[k].key != b[l].key {
      assert |a[k].key.externalId| < |a[l].key.externalId| && |b[k].key.externalId| < |b[l].key.externalId|;
    }
  }

  /** Two Kubernetes integrations with one cluster name, each with the same pod: its namespace exists twice. */
  lemma OneNameTwoClusters(tenant: string, i1: string, i2: string, cluster: string, ns: string, pod: string,
                           env: string, stamps: seq<Stamp>, repos: seq<Repo>)
    requires i1 != i2 && '/' !in i1 && '/' !in i2
    requires |stamps| == 6 && FreshIds([], stamps) && UniqueRepos(repos)
    ensures var us := Kubernetes(tenant, i1, cluster, ns, pod, env) + Kubernetes(tenant, i2, cluster, ns, pod, env);
            !Stable([], tenant, us, stamps, repos)
  {
    var us := Kubernetes(tenant, i1, cluster, ns, pod, env) + Kubernetes(tenant, i2, cluster, ns, pod, env);
    var t := UpsertAll([], us, stamps);
    KubernetesKeys(tenant, i1, i2, cluster, ns, pod, env);
    AllInserted([], us, stamps);
    assert t[0 + 1] == Insert(us[1], stamps[1]) && t[0 + 2] == Insert(us[2], stamps[2]);
    assert t[0 + 4] == Insert(us[4], stamps[4]);
    assert us[1].key != us[4].key;
    assert TwoNamespaces(t, tenant, t[2], t[1], t[4]);
    SyncAllStableIff([], tenant, us, stamps, repos);
  }

  /** One repository in GitHub and in GitLab under one name: two assets have it. */
  lemma OneNameTwoRepos(tenant: string, g: Report, l: Report, stamps: seq<Stamp>, repos: seq<Repo>, r: Repo)
    requires g.kind == "github_repo" && g.key.source == "github" && g.key.tenant == tenant
    requires l.kind == "gitlab_repo" && l.key.source == "gitlab" && l.key.tenant == tenant
    requires r in repos && g.name == l.name == r.fullName
    requires |stamps| == 2 && FreshIds([], stamps) && UniqueRepos(repos)
    ensures !Stable([], tenant, [g, l], stamps, repos)
  {
    var t := UpsertAll([], [g, l], stamps);
    AllInserted([], [g, l], stamps);
    assert t[0 + 0] == Insert(g, stamps[0]) && t[0 + 1] == Insert(l, stamps[1]);
    assert Answers(t, tenant, r, t[0]) && Answers(t, tenant, r, t[1]) && t[0].key != t[1].key;
    SyncAllStableIff([], tenant, [g, l], stamps, repos);
  }
}
