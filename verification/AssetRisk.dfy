/** Recomputing the risk of repository assets from their open findings. */
module AssetRisk {
  import opened Basics
  import opened Text
  import opened Assets

  /** A repository row of the tenant. */
  datatype Repo = Repo(id: string, fullName: string, cloneUrl: Option<string>, lastScan: Option<real>)

  /** A threat or vulnerability row of the tenant. */
  datatype Finding = Finding(repoId: string, severity: string, status: string, threat: bool)

  predicate Open(f: Finding) {
    f.status !in {"resolved", "suppressed"} && (f.threat || f.status != "patched")
  }

  function CountOpen(fs: seq<Finding>, repoId: string, severity: string): nat {
    if fs == [] then 0
    else (if Open(fs[0]) && fs[0].repoId == repoId && fs[0].severity == severity then 1 else 0)
         + CountOpen(fs[1..], repoId, severity)
  }

  function TotalOpen(fs: seq<Finding>, repoId: string): nat {
    if fs == [] then 0
    else (if Open(fs[0]) && fs[0].repoId == repoId then 1 else 0) + TotalOpen(fs[1..], repoId)
  }

  function RiskFromFindings(critical: int, high: int, medium: int, low: int): string {
    if critical > 0 then "critical"
    else if high > 0 then "high"
    else if medium > 0 then "medium"
    else if low > 0 then "low"
    else "none"
  }

  function RiskOf(fs: seq<Finding>, repoId: string): string {
    RiskFromFindings(CountOpen(fs, repoId, "critical"), CountOpen(fs, repoId, "high"),
                     CountOpen(fs, repoId, "medium"), CountOpen(fs, repoId, "low"))
  }

  /** Position in the order of risks; severities outside it do not count. */
  function Rank(severity: string): nat {
    if severity == "critical" then 4
    else if severity == "high" then 3
    else if severity == "medium" then 2
    else if severity == "low" then 1
    else 0
  }

  ghost predicate OpenAt(f: Finding, repoId: string, severity: string) {
    Open(f) && f.repoId == repoId && f.severity == severity
  }

  lemma {:induction false} CountOpenPositive(fs: seq<Finding>, repoId: string, severity: string)
    ensures 0 < CountOpen(fs, repoId, severity) <==> exists i :: 0 <= i < |fs| && OpenAt(fs[i], repoId, severity)
  {
    if fs != [] {
      CountOpenPositive(fs[1..], repoId, severity);
      if 0 < CountOpen(fs[1..], repoId, severity) {
        var i :| 0 <= i < |fs[1..]| && OpenAt(fs[1..][i], repoId, severity);
        assert OpenAt(fs[i + 1], repoId, severity);
      }
      if i :| 0 <= i < |fs| && OpenAt(fs[i], repoId, severity) {
        if i > 0 { assert OpenAt(fs[1..][i - 1], repoId, severity); }
      }
    }
  }

  /** The risk is the highest severity among the open findings of the repository, or "none". */
  lemma RiskIsWorstOpen(fs: seq<Finding>, repoId: string)
    ensures var risk := RiskOf(fs, repoId);
            && (forall i :: 0 <= i < |fs| && Open(fs[i]) && fs[i].repoId == repoId ==>
                  Rank(fs[i].severity) <= Rank(risk))
            && (risk == "none" || exists i :: 0 <= i < |fs| && OpenAt(fs[i], repoId, risk))
  {
    CountOpenPositive(fs, repoId, "critical");
    CountOpenPositive(fs, repoId, "high");
    CountOpenPositive(fs, repoId, "medium");
    CountOpenPositive(fs, repoId, "low");
    forall i | 0 <= i < |fs| && Open(fs[i]) && fs[i].repoId == repoId
      ensures Rank(fs[i].severity) <= Rank(RiskOf(fs, repoId))
    {
      assert OpenAt(fs[i], repoId, fs[i].severity);
    }
  }

  // ---------------------------------------------------------------- which asset a repository is

  predicate IsRepo(row: Asset, tenant: string) {
    row.key.tenant == tenant && row.kind in {"github_repo", "gitlab_repo"}
  }

  predicate NamedBy(row: Asset, tenant: string, name: string) { IsRepo(row, tenant) && row.name == name }

  predicate LocatedBy(row: Asset, tenant: string, url: string) {
    && IsRepo(row, tenant) && row.details.url.Some? && row.details.url.value != ""
    && StripRight(row.details.url.value) == url
  }

  /** The last row with this name: later rows overwrite earlier ones in the lookup table. */
  function LastNamed(rows: seq<Asset>, tenant: string, name: string): Option<nat> {
    if rows == [] then None
    else if NamedBy(rows[|rows| - 1], tenant, name) then Some(|rows| - 1)
    else LastNamed(rows[..|rows| - 1], tenant, name)
  }

  function LastLocated(rows: seq<Asset>, tenant: string, url: string): Option<nat> {
    if rows == [] then None
    else if LocatedBy(rows[|rows| - 1], tenant, url) then Some(|rows| - 1)
    else LastLocated(rows[..|rows| - 1], tenant, url)
  }

  function UrlOf(repo: Repo): string { if repo.cloneUrl.Some? then repo.cloneUrl.value else "" }

  function Target(rows: seq<Asset>, tenant: string, repo: Repo): Option<nat> {
    var named := LastNamed(rows, tenant, repo.fullName);
    if named.Some? then named else LastLocated(rows, tenant, UrlOf(repo))
  }

  lemma {:induction false} TargetInRange(rows: seq<Asset>, tenant: string, name: string)
    ensures LastNamed(rows, tenant, name).Some? ==> LastNamed(rows, tenant, name).value < |rows|
    ensures LastLocated(rows, tenant, name).Some? ==> LastLocated(rows, tenant, name).value < |rows|
  {
    if rows != [] { TargetInRange(rows[..|rows| - 1], tenant, name); }
  }

  /** What one repository row does to its asset. */
  function Rated(row: Asset, repo: Repo, fs: seq<Finding>): Asset {
    row.(openFindings := TotalOpen(fs, repo.id), risk := RiskOf(fs, repo.id),
         scannedAt := OrTime(repo.lastScan, row.scannedAt))
  }

  /** The loop over repository rows; the lookup is by the rows as they were before it. */
  function RecomputeFrom(table: seq<Asset>, rows: seq<Asset>, tenant: string, repos: seq<Repo>, fs: seq<Finding>)
    : seq<Asset>
    requires |rows| == |table|
    decreases repos
  {
    if repos == [] then rows
    else
      var target := Target(table, tenant, repos[0]);
      var rows' := if target.Some? && target.value < |rows|
                   then rows[target.value := Rated(rows[target.value], repos[0], fs)] else rows;
      RecomputeFrom(table, rows', tenant, repos[1..], fs)
  }

  function Recompute(rows: seq<Asset>, tenant: string, repos: seq<Repo>, fs: seq<Finding>): seq<Asset> {
    RecomputeFrom(rows, rows, tenant, repos, fs)
  }

  /** What the loop does to row `j` alone. */
  function RateRow(table: seq<Asset>, j: nat, row: Asset, tenant: string, repos: seq<Repo>, fs: seq<Finding>): Asset
    decreases repos
  {
    if repos == [] then row
    else RateRow(table, j, if Target(table, tenant, repos[0]) == Some(j) then Rated(row, repos[0], fs) else row,
                 tenant, repos[1..], fs)
  }

  lemma {:induction false} RecomputeRowwise(table: seq<Asset>, rows: seq<Asset>, tenant: string,
                                            repos: seq<Repo>, fs: seq<Finding>)
    requires |rows| == |table|
    ensures |RecomputeFrom(table, rows, tenant, repos, fs)| == |rows|
    ensures forall j :: 0 <= j < |rows| ==>
              RecomputeFrom(table, rows, tenant, repos, fs)[j] == RateRow(table, j, rows[j], tenant, repos, fs)
    decreases repos
  {
    if repos != [] {
      var target := Target(table, tenant, repos[0]);
      var rows' := if target.Some? && target.value < |rows|
                   then rows[target.value := Rated(rows[target.value], repos[0], fs)] else rows;
      RecomputeRowwise(table, rows', tenant, repos[1..], fs);
    }
  }

  // ---------------------------------------------------------------- what recomputing depends on

  /** The columns that decide which asset a repository is. */
  ghost predicate SameShape(a: Asset, b: Asset) {
    a.key == b.key && a.kind == b.kind && a.name == b.name && a.details == b.details && a.id == b.id
  }

  ghost predicate SameShapes(a: seq<Asset>, b: seq<Asset>) {
    |a| == |b| && forall j :: 0 <= j < |a| ==> SameShape(a[j], b[j])
  }

  lemma {:induction false} LastByShape(a: seq<Asset>, b: seq<Asset>, tenant: string, text: string)
    requires SameShapes(a, b)
    ensures LastNamed(a, tenant, text) == LastNamed(b, tenant, text)
    ensures LastLocated(a, tenant, text) == LastLocated(b, tenant, text)
  {
    if a != [] {
      assert SameShape(a[|a| - 1], b[|b| - 1]);
      LastByShape(a[..|a| - 1], b[..|b| - 1], tenant, text);
    }
  }

  lemma {:induction false} RateRowByShape(a: seq<Asset>, b: seq<Asset>, j: nat, row: Asset, tenant: string,
                                          repos: seq<Repo>, fs: seq<Finding>)
    requires SameShapes(a, b)
    ensures RateRow(a, j, row, tenant, repos, fs) == RateRow(b, j, row, tenant, repos, fs)
    ensures SameShape(RateRow(a, j, row, tenant, repos, fs), row)
    decreases repos
  {
    if repos != [] {
      LastByShape(a, b, tenant, repos[0].fullName);
      LastByShape(a, b, tenant, UrlOf(repos[0]));
      RateRowByShape(a, b, j, if Target(a, tenant, repos[0]) == Some(j) then Rated(row, repos[0], fs) else row,
                     tenant, repos[1..], fs);
    }
  }

  /** The loop's effect on a row: new findings and risk if any repository is this asset, and its last known scan. */
  datatype Rating = Rating(rated: bool, openFindings: int, risk: string, scan: Option<real>)

  function RatingOf(table: seq<Asset>, j: nat, tenant: string, repos: seq<Repo>, fs: seq<Finding>): Rating {
    if repos == [] then Rating(false, 0, "none", None)
    else
      var n := |repos| - 1;
      var r := RatingOf(table, j, tenant, repos[..n], fs);
      if Target(table, tenant, repos[n]) != Some(j) then r
      else Rating(true, TotalOpen(fs, repos[n].id), RiskOf(fs, repos[n].id), OrTime(repos[n].lastScan, r.scan))
  }

  function Rate(row: Asset, r: Rating): Asset {
    row.(openFindings := if r.rated then r.openFindings else row.openFindings,
         risk := if r.rated then r.risk else row.risk,
         scannedAt := OrTime(r.scan, row.scannedAt))
  }

  lemma {:induction false} RateRowSnoc(table: seq<Asset>, j: nat, row: Asset, tenant: string, repos: seq<Repo>,
                                       repo: Repo, fs: seq<Finding>)
    ensures var row' := RateRow(table, j, row, tenant, repos, fs);
            RateRow(table, j, row, tenant, repos + [repo], fs)
            == if Target(table, tenant, repo) == Some(j) then Rated(row', repo, fs) else row'
    decreases repos
  {
    if repos == [] {
      assert repos + [repo] == [repo] && [repo][1..] == [];
    } else {
      assert (repos + [repo])[1..] == repos[1..] + [repo];
      RateRowSnoc(table, j, if Target(table, tenant, repos[0]) == Some(j) then Rated(row, repos[0], fs) else row,
                  tenant, repos[1..], repo, fs);
    }
  }

  lemma {:induction false} RateRowIsRating(table: seq<Asset>, j: nat, row: Asset, tenant: string,
                                           repos: seq<Repo>, fs: seq<Finding>)
    ensures RateRow(table, j, row, tenant, repos, fs) == Rate(row, RatingOf(table, j, tenant, repos, fs))
  {
    if repos != [] {
      var n := |repos| - 1;
      RateRowIsRating(table, j, row, tenant, repos[..n], fs);
      RateRowSnoc(table, j, row, tenant, repos[..n], repos[n], fs);
      assert repos == repos[..n] + [repos[n]];
    }
  }

  // ---------------------------------------------------------------- which asset, spelled out

  /** A lookup finds an asset that answers it, if there is one. */
  lemma {:induction false} LastSound(t: seq<Asset>, tenant: string, text: string)
    ensures match LastNamed(t, tenant, text)
            case Some(j) => j < |t| && NamedBy(t[j], tenant, text)
            case None => forall x :: x in t ==> !NamedBy(x, tenant, text)
    ensures match LastLocated(t, tenant, text)
            case Some(j) => j < |t| && LocatedBy(t[j], tenant, text)
            case None => forall x :: x in t ==> !LocatedBy(x, tenant, text)
  {
    if t != [] {
      LastSound(t[..|t| - 1], tenant, text);
      assert t == t[..|t| - 1] + [t[|t| - 1]];
    }
  }

  /**
   * When one repository asset is all there is, a repository is that asset exactly if it has its
   * name, or its clone address is the asset's address without the slashes at its end.
   */
  lemma OnlyAssetFound(rows: seq<Asset>, tenant: string, repo: Repo, j: nat)
    requires j < |rows|
    requires forall l :: 0 <= l < |rows| ==>
               ((rows[l].key.tenant == tenant && rows[l].kind in {"github_repo", "gitlab_repo"}) <==> l == j)
    ensures var clone := if repo.cloneUrl.Some? then repo.cloneUrl.value else "";
            var here := || rows[j].name == repo.fullName
                        || (rows[j].details.url.Some? && rows[j].details.url.value != ""
                            && (clone == "" || clone[|clone| - 1] != '/')
                            && exists n: nat :: rows[j].details.url.value == clone + Slashes(n));
            Target(rows, tenant, repo) == if here then Some(j) else None
  {
    var clone := UrlOf(repo);
    LastSound(rows, tenant, repo.fullName);
    LastSound(rows, tenant, clone);
    assert rows[j] in rows;
    if rows[j].details.url.Some? {
      var url := rows[j].details.url.value;
      StripRightIs(url);
      if (clone == "" || clone[|clone| - 1] != '/') {
        if n: nat :| url == clone + Slashes(n) { StripRightAll(clone, n); }
      }
    }
  }

  // ---------------------------------------------------------------- one repository per asset

  /** Repositories that are other assets leave a row alone. */
  lemma {:induction false} RateRowNone(t: seq<Asset>, j: nat, row: Asset, tenant: string, repos: seq<Repo>,
                                       fs: seq<Finding>)
    requires forall i :: 0 <= i < |repos| ==> Target(t, tenant, repos[i]) != Some(j)
    ensures RateRow(t, j, row, tenant, repos, fs) == row
    decreases repos
  {
    if repos != [] { RateRowNone(t, j, row, tenant, repos[1..], fs); }
  }

  lemma {:induction false} RateRowOnce(t: seq<Asset>, j: nat, row: Asset, tenant: string, repos: seq<Repo>,
                                       fs: seq<Finding>, i: nat)
    requires i < |repos| && Target(t, tenant, repos[i]) == Some(j)
    requires forall k :: 0 <= k < |repos| && k != i ==> Target(t, tenant, repos[k]) != Some(j)
    ensures RateRow(t, j, row, tenant, repos, fs) == Rated(row, repos[i], fs)
    decreases repos
  {
    if i == 0 {
      assert forall k :: 0 <= k < |repos[1..]| ==> repos[1..][k] == repos[k + 1];
      RateRowNone(t, j, Rated(row, repos[0], fs), tenant, repos[1..], fs);
    } else {
      assert forall k :: 0 <= k < |repos[1..]| ==> repos[1..][k] == repos[k + 1];
      RateRowOnce(t, j, row, tenant, repos[1..], fs, i - 1);
    }
  }

  // ---------------------------------------------------------------- what a finding does

  lemma {:induction false} CountOpenAppend(a: seq<Finding>, b: seq<Finding>, repoId: string, severity: string)
    ensures CountOpen(a + b, repoId, severity) == CountOpen(a, repoId, severity) + CountOpen(b, repoId, severity)
    ensures TotalOpen(a + b, repoId) == TotalOpen(a, repoId) + TotalOpen(b, repoId)
  {
    if a == [] {
      assert a + b == b;
    } else {
      assert (a + b)[1..] == a[1..] + b;
      CountOpenAppend(a[1..], b, repoId, severity);
    }
  }

  /** The findings with one more among them. */
  function Among(fs: seq<Finding>, k: nat, f: Finding): seq<Finding>
    requires k <= |fs|
  {
    fs[..k] + [f] + fs[k..]
  }

  lemma AmongCounts(fs: seq<Finding>, k: nat, f: Finding, repoId: string, severity: string)
    requires k <= |fs|
    ensures CountOpen(Among(fs, k, f), repoId, severity)
         == CountOpen(fs, repoId, severity) + if Open(f) && f.repoId == repoId && f.severity == severity then 1 else 0
    ensures TotalOpen(Among(fs, k, f), repoId)
         == TotalOpen(fs, repoId) + if Open(f) && f.repoId == repoId then 1 else 0
  {
    CountOpenAppend(fs[..k], [f], repoId, severity);
    CountOpenAppend(fs[..k] + [f], fs[k..], repoId, severity);
    CountOpenAppend(fs[..k], fs[k..], repoId, severity);
    assert fs == fs[..k] + fs[k..];
  }

  /** The worse of a risk and a severity; a severity that is none of the four is not worse than any. */
  function Worse(risk: string, severity: string): string {
    if severity == "critical" || (severity == "high" && risk != "critical")
       || (severity == "medium" && risk !in {"critical", "high"}) || (severity == "low" && risk == "none")
    then severity else risk
  }

  lemma AmongRisk(fs: seq<Finding>, k: nat, f: Finding, repoId: string)
    requires k <= |fs|
    ensures RiskOf(Among(fs, k, f), repoId)
         == if Open(f) && f.repoId == repoId then Worse(RiskOf(fs, repoId), f.severity) else RiskOf(fs, repoId)
  {
    AmongCounts(fs, k, f, repoId, "critical");
    AmongCounts(fs, k, f, repoId, "high");
    AmongCounts(fs, k, f, repoId, "medium");
    AmongCounts(fs, k, f, repoId, "low");
  }

  /** Findings that count alike for every repository that is asset `j` rate it alike. */
  lemma {:induction false} RateRowAlike(table: seq<Asset>, j: nat, row: Asset, tenant: string, repos: seq<Repo>,
                                        fs: seq<Finding>, fs': seq<Finding>)
    requires forall i :: 0 <= i < |repos| && Target(table, tenant, repos[i]) == Some(j) ==>
               && TotalOpen(fs', repos[i].id) == TotalOpen(fs, repos[i].id)
               && RiskOf(fs', repos[i].id) == RiskOf(fs, repos[i].id)
    ensures RateRow(table, j, row, tenant, repos, fs') == RateRow(table, j, row, tenant, repos, fs)
    decreases repos
  {
    if repos != [] {
      assert forall i :: 0 <= i < |repos[1..]| ==> repos[1..][i] == repos[i + 1];
      RateRowAlike(table, j, if Target(table, tenant, repos[0]) == Some(j) then Rated(row, repos[0], fs) else row,
                   tenant, repos[1..], fs, fs');
    }
  }

  lemma RecomputeAlike(rows: seq<Asset>, tenant: string, repos: seq<Repo>, fs: seq<Finding>, fs': seq<Finding>, j: nat)
    requires j < |rows|
    requires forall i :: 0 <= i < |repos| && Target(rows, tenant, repos[i]) == Some(j) ==>
               && TotalOpen(fs', repos[i].id) == TotalOpen(fs, repos[i].id)
               && RiskOf(fs', repos[i].id) == RiskOf(fs, repos[i].id)
    ensures |Recompute(rows, tenant, repos, fs)| == |Recompute(rows, tenant, repos, fs')| == |rows|
    ensures Recompute(rows, tenant, repos, fs')[j] == Recompute(rows, tenant, repos, fs)[j]
  {
    RecomputeRowwise(rows, rows, tenant, repos, fs);
    RecomputeRowwise(rows, rows, tenant, repos, fs');
    RateRowAlike(rows, j, rows[j], tenant, repos, fs, fs');
  }

  /** A resolved or suppressed finding, or a patched vulnerability, or one of no repository, changes no row. */
  lemma ClosedFinding(rows: seq<Asset>, tenant: string, repos: seq<Repo>, fs: seq<Finding>, k: nat, f: Finding)
    requires k <= |fs|
    requires f.status == "resolved" || f.status == "suppressed" || (f.status == "patched" && !f.threat)
             || forall i :: 0 <= i < |repos| ==> repos[i].id != f.repoId
    ensures Recompute(rows, tenant, repos, Among(fs, k, f)) == Recompute(rows, tenant, repos, fs)
  {
    var before, after := Recompute(rows, tenant, repos, fs), Recompute(rows, tenant, repos, Among(fs, k, f));
    RecomputeRowwise(rows, rows, tenant, repos, fs);
    RecomputeRowwise(rows, rows, tenant, repos, Among(fs, k, f));
    forall j | 0 <= j < |rows| ensures after[j] == before[j] {
      forall i | 0 <= i < |repos|
        ensures TotalOpen(Among(fs, k, f), repos[i].id) == TotalOpen(fs, repos[i].id)
        ensures RiskOf(Among(fs, k, f), repos[i].id) == RiskOf(fs, repos[i].id)
      {
        AmongCounts(fs, k, f, repos[i].id, "");
        AmongRisk(fs, k, f, repos[i].id);
      }
      RecomputeAlike(rows, tenant, repos, fs, Among(fs, k, f), j);
    }
  }

  /** Repository `i` is asset `j`, and no other repository is. */
  ghost predicate OnlyRepo(rows: seq<Asset>, tenant: string, repos: seq<Repo>, i: nat, j: nat) {
    && i < |repos| && j < |rows| && Target(rows, tenant, repos[i]) == Some(j)
    && (forall l :: 0 <= l < |repos| && l != i ==> Target(rows, tenant, repos[l]) != Some(j))
    && (forall l :: 0 <= l < |repos| && l != i ==> repos[l].id != repos[i].id)
  }

  /**
   * Any other finding of a repository is one more open finding of its asset, whose risk becomes the
   * worse of what it was and the finding's severity; all other rows stay.
   */
  lemma OpenFinding(rows: seq<Asset>, tenant: string, repos: seq<Repo>, fs: seq<Finding>, k: nat, f: Finding,
                    i: nat, j: nat)
    requires k <= |fs| && OnlyRepo(rows, tenant, repos, i, j) && f.repoId == repos[i].id
    requires f.status != "resolved" && f.status != "suppressed" && (f.status != "patched" || f.threat)
    ensures var before, after := Recompute(rows, tenant, repos, fs), Recompute(rows, tenant, repos, Among(fs, k, f));
            && |before| == |after| == |rows|
            && after[j] == before[j].(openFindings := before[j].openFindings + 1,
                                      risk := Worse(before[j].risk, f.severity))
            && forall l :: 0 <= l < |rows| && l != j ==> after[l] == before[l]
  {
    var fs' := Among(fs, k, f);
    RecomputeRowwise(rows, rows, tenant, repos, fs);
    RecomputeRowwise(rows, rows, tenant, repos, fs');
    RateRowOnce(rows, j, rows[j], tenant, repos, fs, i);
    RateRowOnce(rows, j, rows[j], tenant, repos, fs', i);
    AmongCounts(fs, k, f, repos[i].id, "");
    AmongRisk(fs, k, f, repos[i].id);
    forall l | 0 <= l < |rows| && l != j
      ensures Recompute(rows, tenant, repos, fs')[l] == Recompute(rows, tenant, repos, fs)[l]
    {
      forall m | 0 <= m < |repos| && Target(rows, tenant, repos[m]) == Some(l)
        ensures TotalOpen(fs', repos[m].id) == TotalOpen(fs, repos[m].id)
        ensures RiskOf(fs', repos[m].id) == RiskOf(fs, repos[m].id)
      {
        AmongCounts(fs, k, f, repos[m].id, "");
        AmongRisk(fs, k, f, repos[m].id);
      }
      RecomputeAlike(rows, tenant, repos, fs, fs', l);
    }
  }

  /** Without findings an asset that is a repository has none open and risk "none". */
  lemma NoFinding(rows: seq<Asset>, tenant: string, repos: seq<Repo>, i: nat, j: nat)
    requires OnlyRepo(rows, tenant, repos, i, j)
    ensures var after := Recompute(rows, tenant, repos, []);
            |after| == |rows| && after[j].openFindings == 0 && after[j].risk == "none"
  {
    RecomputeRowwise(rows, rows, tenant, repos, []);
    RateRowOnce(rows, j, rows[j], tenant, repos, [], i);
  }
}
