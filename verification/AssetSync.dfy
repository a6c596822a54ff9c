/** The whole asset synchronisation: upsert all reports, recompute risks, infer relationships. */
module AssetSync {
  import opened Basics
  import opened Text
  import opened Assets
  import opened AssetRisk
  import opened AssetRelations

  function SyncRows(rows: seq<Asset>, tenant: string, us: seq<Report>, stamps: seq<Stamp>,
                    repos: seq<Repo>, fs: seq<Finding>): seq<Asset>
    requires |stamps| == |us|
  {
    Recompute(UpsertAll(rows, us, stamps), tenant, repos, fs)
  }

  class AssetService {
    var rows: seq<Asset>
    var edges: seq<Edge>

    method UpsertAsset(u: Report, stamp: Stamp)
      modifies this`rows
      ensures rows == Upsert(old(rows), u, stamp)
    {
      var i := IndexOf(rows, u.key);
      if i < |rows| {
        var row := rows[i];
        row := row.(name := u.name, kind := u.kind);
        if u.environment != "" { row := row.(environment := u.environment); }
        row := row.(details := u.details.OrElse(row.details));
        if u.tags != map[] { row := row.(tags := u.tags); }
        if u.meta != map[] { row := row.(meta := u.meta); }
        row := row.(syncedAt := stamp.now);
        if u.scannedAt.Some? { row := row.(scannedAt := u.scannedAt); }
        if u.critical { row := row.(critical := true); }
        rows := rows[i := row];
      } else {
        rows := rows + [Insert(u, stamp)];
      }
    }

    method SyncReports(us: seq<Report>, stamps: seq<Stamp>)
      requires |stamps| == |us|
      modifies this`rows
      ensures rows == UpsertAll(old(rows), us, stamps)
    {
      for i := 0 to |us|
        invariant UpsertAll(rows, us[i..], stamps[i..]) == UpsertAll(old(rows), us, stamps)
      {
        assert us[i..][1..] == us[i + 1..] && stamps[i..][1..] == stamps[i + 1..];
        UpsertAsset(us[i], stamps[i]);
      }
    }

    /** The lookup tables by name and by url; later rows overwrite earlier ones. */
    method RepoTables(tenant: string) returns (byName: map<string, nat>, byUrl: map<string, nat>)
      ensures forall text :: LastNamed(rows, tenant, text) == if text in byName then Some(byName[text]) else None
      ensures forall text :: LastLocated(rows, tenant, text) == if text in byUrl then Some(byUrl[text]) else None
    {
      byName, byUrl := map[], map[];
      for i := 0 to |rows|
        invariant forall text ::
                    LastNamed(rows[..i], tenant, text) == if text in byName then Some(byName[text]) else None
        invariant forall text ::
                    LastLocated(rows[..i], tenant, text) == if text in byUrl then Some(byUrl[text]) else None
      {
        var row := rows[i];
        assert rows[..i + 1][..i] == rows[..i];
        if IsRepo(row, tenant) {
          byName := byName[row.name := i];
          if row.details.url.Some? && row.details.url.value != "" {
            byUrl := byUrl[StripRight(row.details.url.value) := i];
          }
        }
      }
      assert rows[..|rows|] == rows;
    }

    method RecomputeRiskLevels(tenant: string, repos: seq<Repo>, fs: seq<Finding>)
      modifies this`rows
      ensures rows == Recompute(old(rows), tenant, repos, fs)
    {
      var byName, byUrl := RepoTables(tenant);
      ghost var table := rows;
      for i := 0 to |repos|
        invariant |rows| == |table|
        invariant RecomputeFrom(table, rows, tenant, repos[i..], fs) == Recompute(table, tenant, repos, fs)
      {
        var repo := repos[i];
        assert repos[i..][1..] == repos[i + 1..];
        TargetInRange(table, tenant, repo.fullName);
        TargetInRange(table, tenant, UrlOf(repo));
        var target := if repo.fullName in byName then Some(byName[repo.fullName])
                      else if UrlOf(repo) in byUrl then Some(byUrl[UrlOf(repo)])
                      else None;
        if target.Some? {
          var row := rows[target.value].(openFindings := TotalOpen(fs, repo.id), risk := RiskOf(fs, repo.id));
          if repo.lastScan.Some? { row := row.(scannedAt := repo.lastScan); }
          rows := rows[target.value := row];
        }
      }
    }

    method UpsertRelationship(e: Edge)
      modifies this`edges
      ensures edges == UpsertEdge(old(edges), e)
    {
      if !exists i :: 0 <= i < |edges| && SameEdge(edges[i], e) {
        edges := edges + [e];
      }
    }

    method RelatePod(tenant: string, pod: Asset)
      requires IsPod(pod, tenant)
      modifies this`edges
      ensures edges == UpsertEdges(old(edges), PodEdges(rows, tenant, pod))
    {
      var cluster := pod.details.cluster.value;
      var ns := NamespaceId(rows, tenant, cluster, pod.details.namespace.value);
      if ns.Some? {
        UpsertRelationship(Edge(tenant, pod.id, ns.value, "contains"));
        var c := ClusterId(rows, tenant, cluster);
        UpsertSplit(old(edges), [Edge(tenant, pod.id, ns.value, "contains")],
                    if c.Some? then [Edge(tenant, c.value, ns.value, "contains")] else []);
        if c.Some? {
          UpsertRelationship(Edge(tenant, c.value, ns.value, "contains"));
        }
      }
    }

    method BuildRelationships(tenant: string)
      modifies this`edges
      ensures edges == BuildEdges(old(edges), rows, tenant)
    {
      for i := 0 to |rows|
        invariant UpsertEdges(edges, Inferred(rows, tenant, i)) == BuildEdges(old(edges), rows, tenant)
      {
        if IsPod(rows[i], tenant) {
          UpsertSplit(edges, PodEdges(rows, tenant, rows[i]), Inferred(rows, tenant, i + 1));
          RelatePod(tenant, rows[i]);
        } else {
          assert Inferred(rows, tenant, i) == Inferred(rows, tenant, i + 1);
        }
      }
    }

    method SyncAll(tenant: string, us: seq<Report>, stamps: seq<Stamp>, repos: seq<Repo>, fs: seq<Finding>)
      requires |stamps| == |us|
      modifies this
      ensures rows == SyncRows(old(rows), tenant, us, stamps, repos, fs)
      ensures edges == BuildEdges(old(edges), rows, tenant)
    {
      SyncReports(us, stamps);
      RecomputeRiskLevels(tenant, repos, fs);
      BuildRelationships(tenant);
    }
  }

  lemma {:induction false} UpsertSplit(edges: seq<Edge>, a: seq<Edge>, b: seq<Edge>)
    ensures UpsertEdges(edges, a + b) == UpsertEdges(UpsertEdges(edges, a), b)
    decreases a
  {
    if a == [] {
      assert a + b == b;
    } else {
      assert (a + b)[1..] == a[1..] + b;
      UpsertSplit(UpsertEdge(edges, a[0]), a[1..], b);
    }
  }

  // ---------------------------------------------------------------- idempotence of the whole

  lemma RecomputedRow(rows: seq<Asset>, tenant: string, repos: seq<Repo>, fs: seq<Finding>, j: nat)
    requires j < |rows|
    ensures |Recompute(rows, tenant, repos, fs)| == |rows|
    ensures Recompute(rows, tenant, repos, fs)[j] == Rate(rows[j], RatingOf(rows, j, tenant, repos, fs))
  {
    RecomputeRowwise(rows, rows, tenant, repos, fs);
    RateRowIsRating(rows, j, rows[j], tenant, repos, fs);
  }

  lemma RecomputedShapes(rows: seq<Asset>, tenant: string, repos: seq<Repo>, fs: seq<Finding>)
    ensures SameShapes(Recompute(rows, tenant, repos, fs), rows)
  {
    RecomputeRowwise(rows, rows, tenant, repos, fs);
    forall j | 0 <= j < |rows| ensures SameShape(Recompute(rows, tenant, repos, fs)[j], rows[j]) {
      RateRowByShape(rows, rows, j, rows[j], tenant, repos, fs);
    }
  }

  /** Rows of equal shape are rated alike. */
  lemma RatedByShape(a: seq<Asset>, b: seq<Asset>, tenant: string, repos: seq<Repo>, fs: seq<Finding>, j: nat)
    requires SameShapes(a, b) && j < |a|
    ensures |Recompute(b, tenant, repos, fs)| == |b|
    ensures Recompute(b, tenant, repos, fs)[j] == Rate(b[j], RatingOf(a, j, tenant, repos, fs))
  {
    RecomputeRowwise(b, b, tenant, repos, fs);
    RateRowByShape(a, b, j, b[j], tenant, repos, fs);
    RateRowIsRating(a, j, b[j], tenant, repos, fs);
  }

  /** Reporting a rated row again and rating it again gives the rated row back. */
  lemma RateMergeRate(u: Report, row: Asset, r: Rating)
    requires Merge(u, row, 0.0) == row
    ensures Rate(Merge(u, Rate(row, r), 0.0), r) == Rate(row, r)
    ensures SameShape(Merge(u, Rate(row, r), 0.0), row)
  {
  }

  lemma BareRate(row: Asset, r: Rating)
    ensures Bare(Rate(row, r)) == Rate(Bare(row), r)
  {
  }

  /** One row through the second pass: its shape stays, and rating it again gives what it was. */
  lemma SecondPassRow(row: Asset, us: seq<Report>, r: Rating)
    requires Settled(row, us)
    ensures var again := Fold(Bare(Rate(row, r)), us);
            Rate(again, r) == Bare(Rate(row, r)) && SameShape(again, row)
  {
    SettledFixed(row, us);
    BareRate(row, r);
    FoldIsSummary(Bare(row), us);
    FoldIsSummary(Rate(Bare(row), r), us);
    var s := Summary(us, row.key);
    if s.Some? { RateMergeRate(s.value, Bare(row), r); }
  }

  lemma KeysByShape(a: seq<Asset>, b: seq<Asset>)
    requires SameShapes(a, b) && UniqueKeys(a)
    ensures UniqueKeys(b) && forall key :: HasKey(a, key) ==> HasKey(b, key)
  {
  }

  lemma ShapesSym(a: seq<Asset>, b: seq<Asset>)
    requires SameShapes(a, b)
    ensures SameShapes(b, a)
  {
  }

  /** The second upsert pass keeps all shapes, and row by row it is the fold. */
  lemma SecondUpsert(r1: seq<Asset>, tenant: string, us: seq<Report>, stamps: seq<Stamp>,
                     repos: seq<Repo>, fs: seq<Finding>)
    requires |stamps| == |us| && AllSettled(r1, us)
    ensures var r2 := Recompute(r1, tenant, repos, fs);
            var r3 := UpsertAll(r2, us, stamps);
            && SameShapes(r2, r1) && SameShapes(r1, r3)
            && forall j :: 0 <= j < |r1| ==>
                 Rate(Bare(r3[j]), RatingOf(r1, j, tenant, repos, fs)) == Bare(r2[j])
  {
    var r2 := Recompute(r1, tenant, repos, fs);
    var r3 := UpsertAll(r2, us, stamps);
    RecomputedShapes(r1, tenant, repos, fs);
    ShapesSym(r2, r1);
    KeysByShape(r1, r2);
    SyncInPlace(r2, us, stamps);
    forall j | 0 <= j < |r1|
      ensures SameShape(r1[j], r3[j]) && Rate(Bare(r3[j]), RatingOf(r1, j, tenant, repos, fs)) == Bare(r2[j])
    {
      RecomputedRow(r1, tenant, repos, fs, j);
      SecondPassRow(r1[j], us, RatingOf(r1, j, tenant, repos, fs));
    }
  }

  lemma SecondRecompute(r1: seq<Asset>, tenant: string, us: seq<Report>, stamps: seq<Stamp>,
                        repos: seq<Repo>, fs: seq<Finding>)
    requires |stamps| == |us| && AllSettled(r1, us)
    ensures var r2 := Recompute(r1, tenant, repos, fs);
            var r4 := SyncRows(r2, tenant, us, stamps, repos, fs);
            BareAll(r4) == BareAll(r2) && SameShapes(r2, r4)
  {
    var r2 := Recompute(r1, tenant, repos, fs);
    var r3 := UpsertAll(r2, us, stamps);
    var r4 := Recompute(r3, tenant, repos, fs);
    SecondUpsert(r1, tenant, us, stamps, repos, fs);
    RecomputeRowwise(r3, r3, tenant, repos, fs);
    forall j | 0 <= j < |r2| ensures Bare(r4[j]) == Bare(r2[j]) {
      RatedByShape(r1, r3, tenant, repos, fs, j);
      BareRate(r3[j], RatingOf(r1, j, tenant, repos, fs));
    }
    forall j | 0 <= j < |r2| ensures SameShape(r2[j], r4[j]) {
      assert Bare(r4[j]) == Bare(r2[j]);
    }
  }

  /**
   * Running the whole synchronisation again with the same reports, repositories and findings,
   * when both runs read the rows in one order, changes nothing but last_synced_at: not the rows,
   * not their risks, not the relationships.
   */
  lemma SyncAllIdempotent(rows: seq<Asset>, edges: seq<Edge>, tenant: string, us: seq<Report>,
                          stamps: seq<Stamp>, stamps': seq<Stamp>, repos: seq<Repo>, fs: seq<Finding>)
    requires UniqueKeys(rows) && UniqueEdges(edges) && |stamps| == |us| && |stamps'| == |us|
    ensures var once := SyncRows(rows, tenant, us, stamps, repos, fs);
            var twice := SyncRows(once, tenant, us, stamps', repos, fs);
            && BareAll(twice) == BareAll(once)
            && BuildEdges(BuildEdges(edges, once, tenant), twice, tenant) == BuildEdges(edges, once, tenant)
  {
    var r1 := UpsertAll(rows, us, stamps);
    var once := SyncRows(rows, tenant, us, stamps, repos, fs);
    var twice := SyncRows(once, tenant, us, stamps', repos, fs);
    StartSettled(rows);
    assert us == [] + us;
    SyncSettles(rows, [], us, us, stamps);
    SecondRecompute(r1, tenant, us, stamps', repos, fs);
    InferredByShape(once, twice, tenant, 0);
    BuildEdgesTwice(edges, once, tenant);
  }
}
