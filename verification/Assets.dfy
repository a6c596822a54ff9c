/** The asset table and its keyed upsert, where the last truthy value of a column wins. */
module Assets {
  import opened Basics

  /** The unique key of an asset row. */
  datatype Key = Key(tenant: string, source: string, externalId: string)

  /** Python's `a or b` for a column that may be null or empty. */
  function Or(a: Option<string>, b: Option<string>): Option<string> {
    if a.Some? && a.value != "" then a else b
  }

  /** The optional text columns. */
  datatype Details = Details(owner: Option<string>, team: Option<string>, description: Option<string>,
                             url: Option<string>, region: Option<string>, account: Option<string>,
                             namespace: Option<string>, cluster: Option<string>)
  {
    function OrElse(d: Details): Details {
      Details(Or(owner, d.owner), Or(team, d.team), Or(description, d.description), Or(url, d.url),
              Or(region, d.region), Or(account, d.account), Or(namespace, d.namespace), Or(cluster, d.cluster))
    }
  }

  /** What a provider reports about one asset. */
  datatype Report = Report(key: Key, integration: Option<string>, kind: string, name: string, environment: string,
                           details: Details, tags: map<string, string>, meta: map<string, string>,
                           scannedAt: Option<real>, critical: bool)

  /** The new row id and the clock reading that an upsert would use. */
  datatype Stamp = Stamp(id: string, now: real)

  datatype Asset = Asset(id: string, key: Key, integration: Option<string>, kind: string, name: string,
                         environment: string, status: string, risk: string, details: Details,
                         tags: map<string, string>, meta: map<string, string>, critical: bool,
                         openFindings: int, scannedAt: Option<real>, syncedAt: real)

  function OrText(a: string, b: string): string { if a != "" then a else b }

  function OrMap(a: map<string, string>, b: map<string, string>): map<string, string> { if a != map[] then a else b }

  function OrTime(a: Option<real>, b: Option<real>): Option<real> { if a.Some? then a else b }

  /** The update branch. */
  function Merge(u: Report, row: Asset, now: real): Asset {
    row.(name := u.name, kind := u.kind,
         environment := OrText(u.environment, row.environment),
         details := u.details.OrElse(row.details),
         tags := OrMap(u.tags, row.tags),
         meta := OrMap(u.meta, row.meta),
         syncedAt := now,
         scannedAt := OrTime(u.scannedAt, row.scannedAt),
         critical := u.critical || row.critical)
  }

  /** The insert branch. */
  function Insert(u: Report, stamp: Stamp): Asset {
    Asset(stamp.id, u.key, u.integration, u.kind, u.name, u.environment, "active", "none", u.details,
          u.tags, u.meta, u.critical, 0, u.scannedAt, stamp.now)
  }

  /** The index of the row with this key, or the number of rows. */
  function IndexOf(rows: seq<Asset>, key: Key): (i: nat)
    ensures i <= |rows|
    ensures i < |rows| ==> rows[i].key == key
    ensures forall j :: 0 <= j < i ==> rows[j].key != key
  {
    if rows == [] || rows[0].key == key then 0 else 1 + IndexOf(rows[1..], key)
  }

  function Upsert(rows: seq<Asset>, u: Report, stamp: Stamp): seq<Asset> {
    var i := IndexOf(rows, u.key);
    if i < |rows| then rows[i := Merge(u, rows[i], stamp.now)] else rows + [Insert(u, stamp)]
  }

  function UpsertAll(rows: seq<Asset>, us: seq<Report>, stamps: seq<Stamp>): seq<Asset>
    requires |stamps| == |us|
    decreases us
  {
    if us == [] then rows else UpsertAll(Upsert(rows, us[0], stamps[0]), us[1..], stamps[1..])
  }

  // ---------------------------------------------------------------- keys

  ghost predicate UniqueKeys(rows: seq<Asset>) {
    forall i, j :: 0 <= i < j < |rows| ==> rows[i].key != rows[j].key
  }

  ghost predicate HasKey(rows: seq<Asset>, key: Key) {
    exists i :: 0 <= i < |rows| && rows[i].key == key
  }

  ghost predicate Reports(us: seq<Report>, key: Key) {
    exists i :: 0 <= i < |us| && us[i].key == key
  }

  lemma UpsertKeys(rows: seq<Asset>, u: Report, stamp: Stamp)
    requires UniqueKeys(rows)
    ensures var rows' := Upsert(rows, u, stamp);
            && UniqueKeys(rows')
            && |rows| <= |rows'|
            && (forall j :: 0 <= j < |rows| ==> rows'[j].key == rows[j].key && rows'[j].id == rows[j].id)
            && (forall key :: HasKey(rows', key) <==> HasKey(rows, key) || key == u.key)
  {
    var rows' := Upsert(rows, u, stamp);
    var i := IndexOf(rows, u.key);
    assert rows'[i].key == u.key;
    forall key ensures HasKey(rows', key) <==> HasKey(rows, key) || key == u.key {
      if HasKey(rows, key) {
        var j :| 0 <= j < |rows| && rows[j].key == key;
        assert rows'[j].key == key;
      }
      if HasKey(rows', key) && key != u.key {
        var j :| 0 <= j < |rows'| && rows'[j].key == key;
        assert rows[j].key == key;
      }
    }
  }

  /** Keys stay unique, existing rows keep key and id, and the keys are the old ones and the reported ones. */
  lemma {:induction false} SyncKeys(rows: seq<Asset>, us: seq<Report>, stamps: seq<Stamp>)
    requires UniqueKeys(rows) && |stamps| == |us|
    ensures var rows' := UpsertAll(rows, us, stamps);
            && UniqueKeys(rows')
            && |rows| <= |rows'|
            && (forall j :: 0 <= j < |rows| ==> rows'[j].key == rows[j].key && rows'[j].id == rows[j].id)
            && (forall key :: HasKey(rows', key) <==> HasKey(rows, key) || Reports(us, key))
    decreases us
  {
    if us != [] {
      var rows1 := Upsert(rows, us[0], stamps[0]);
      UpsertKeys(rows, us[0], stamps[0]);
      SyncKeys(rows1, us[1..], stamps[1..]);
      forall key ensures Reports(us, key) <==> key == us[0].key || Reports(us[1..], key) {
        ReportsCons(us, key);
      }
    }
  }

  lemma ReportsCons(us: seq<Report>, key: Key)
    requires us != []
    ensures Reports(us, key) <==> key == us[0].key || Reports(us[1..], key)
  {
  }

  /** What a sync never takes from a row it found: risk, findings, status and origin; and criticality stays. */
  ghost predicate Guarded(before: Asset, after: Asset) {
    && after.risk == before.risk && after.openFindings == before.openFindings
    && after.status == before.status && after.integration == before.integration
    && (before.critical ==> after.critical)
  }

  lemma {:induction false} SyncGuards(rows: seq<Asset>, us: seq<Report>, stamps: seq<Stamp>, j: nat)
    requires |stamps| == |us| && j < |rows|
    ensures j < |UpsertAll(rows, us, stamps)| && Guarded(rows[j], UpsertAll(rows, us, stamps)[j])
    decreases us
  {
    if us != [] {
      SyncGuards(Upsert(rows, us[0], stamps[0]), us[1..], stamps[1..], j);
    }
  }

  // ---------------------------------------------------------------- rows up to last_synced_at

  function Bare(row: Asset): Asset { row.(syncedAt := 0.0) }

  /** What all the reports together make of one row, up to last_synced_at. */
  function Fold(row: Asset, us: seq<Report>): Asset
    decreases us
  {
    if us == [] then row
    else Fold(if us[0].key == row.key then Merge(us[0], row, 0.0) else row, us[1..])
  }

  lemma {:induction false} FoldSnoc(row: Asset, us: seq<Report>, u: Report)
    ensures Fold(row, us + [u]) == if u.key == row.key then Merge(u, Fold(row, us), 0.0) else Fold(row, us)
    ensures Fold(row, us).key == row.key
    decreases us
  {
    if us == [] {
      assert us + [u] == [u] && [u][1..] == [];
    } else {
      assert (us + [u])[1..] == us[1..] + [u];
      FoldSnoc(if us[0].key == row.key then Merge(us[0], row, 0.0) else row, us[1..], u);
    }
  }

  /** Two reports on the same key act as one. */
  function Both(u: Report, v: Report): Report {
    v.(environment := OrText(v.environment, u.environment),
       details := v.details.OrElse(u.details),
       tags := OrMap(v.tags, u.tags),
       meta := OrMap(v.meta, u.meta),
       scannedAt := OrTime(v.scannedAt, u.scannedAt),
       critical := v.critical || u.critical)
  }

  lemma MergeBoth(u: Report, v: Report, row: Asset)
    ensures Merge(v, Merge(u, row, 0.0), 0.0) == Merge(Both(u, v), row, 0.0)
  {
  }

  lemma MergeTwice(u: Report, row: Asset)
    ensures Merge(u, Merge(u, row, 0.0), 0.0) == Merge(u, row, 0.0)
  {
  }

  /** All reports of a key as one, if there are any. */
  function Summary(us: seq<Report>, key: Key): Option<Report> {
    if us == [] then None
    else
      var n := |us| - 1;
      var s := Summary(us[..n], key);
      if us[n].key != key then s
      else if s.None? then Some(us[n])
      else Some(Both(s.value, us[n]))
  }

  lemma {:induction false} FoldIsSummary(row: Asset, us: seq<Report>)
    ensures Fold(row, us) == match Summary(us, row.key) case None => row case Some(s) => Merge(s, row, 0.0)
  {
    if us != [] {
      var n := |us| - 1;
      FoldIsSummary(row, us[..n]);
      FoldSnoc(row, us[..n], us[n]);
      assert us == us[..n] + [us[n]];
      var s := Summary(us[..n], row.key);
      if s.Some? { MergeBoth(s.value, us[n], row); }
    }
  }

  /** Reporting everything once more changes nothing. */
  lemma FoldTwice(row: Asset, us: seq<Report>)
    ensures Fold(Fold(row, us), us) == Fold(row, us)
  {
    FoldIsSummary(row, us);
    FoldIsSummary(Fold(row, us), us);
    var s := Summary(us, row.key);
    if s.Some? { MergeTwice(s.value, row); }
  }

  // ---------------------------------------------------------------- idempotence

  /** The row is what the reports make of some starting row. */
  ghost predicate Settled(row: Asset, us: seq<Report>) {
    exists x :: Bare(x) == x && x.key == row.key && Bare(row) == Fold(x, us)
  }

  lemma {:induction false} FoldUnreported(row: Asset, us: seq<Report>)
    requires !Reports(us, row.key)
    ensures Fold(row, us) == row
    decreases us
  {
    if us != [] {
      ReportsCons(us, row.key);
      FoldUnreported(row, us[1..]);
    }
  }

  lemma SettledStep(row: Asset, us: seq<Report>, u: Report, now: real)
    requires Settled(row, us)
    ensures Settled(if u.key == row.key then Merge(u, row, now) else row, us + [u])
  {
    var x :| Bare(x) == x && x.key == row.key && Bare(row) == Fold(x, us);
    FoldSnoc(x, us, u);
    assert Bare(Merge(u, row, now)) == Merge(u, Bare(row), 0.0);
  }

  lemma InsertSettled(us: seq<Report>, u: Report, stamp: Stamp)
    requires !Reports(us, u.key)
    ensures Settled(Insert(u, stamp), us + [u])
  {
    var x := Bare(Insert(u, stamp));
    FoldUnreported(x, us);
    FoldSnoc(x, us, u);
    assert Merge(u, x, 0.0) == x;
  }

  ghost predicate AllSettled(rows: seq<Asset>, us: seq<Report>) {
    && UniqueKeys(rows)
    && (forall j :: 0 <= j < |rows| ==> Settled(rows[j], us))
    && (forall key :: Reports(us, key) ==> HasKey(rows, key))
  }

  lemma ReportsSnoc(us: seq<Report>, u: Report, key: Key)
    ensures Reports(us + [u], key) <==> Reports(us, key) || key == u.key
  {
    if Reports(us, key) {
      var i :| 0 <= i < |us| && us[i].key == key;
      assert (us + [u])[i].key == key;
    }
    assert (us + [u])[|us|] == u;
  }

  /** An upsert row by row. */
  lemma UpsertedRow(rows: seq<Asset>, u: Report, stamp: Stamp, j: nat)
    requires UniqueKeys(rows) && j < |Upsert(rows, u, stamp)|
    ensures j < |rows| ==>
              Upsert(rows, u, stamp)[j] == if u.key == rows[j].key then Merge(u, rows[j], stamp.now) else rows[j]
    ensures j >= |rows| ==> Upsert(rows, u, stamp)[j] == Insert(u, stamp) && !HasKey(rows, u.key)
  {
  }

  lemma RowSettles(rows: seq<Asset>, done: seq<Report>, u: Report, stamp: Stamp, j: nat)
    requires AllSettled(rows, done) && j < |Upsert(rows, u, stamp)|
    ensures Settled(Upsert(rows, u, stamp)[j], done + [u])
  {
    UpsertedRow(rows, u, stamp, j);
    if j < |rows| { SettledStep(rows[j], done, u, stamp.now); } else { InsertSettled(done, u, stamp); }
  }

  lemma UpsertSettles(rows: seq<Asset>, done: seq<Report>, u: Report, stamp: Stamp)
    requires AllSettled(rows, done)
    ensures AllSettled(Upsert(rows, u, stamp), done + [u])
  {
    var rows' := Upsert(rows, u, stamp);
    UpsertKeys(rows, u, stamp);
    forall key | Reports(done + [u], key) ensures HasKey(rows', key) { ReportsSnoc(done, u, key); }
    forall j | 0 <= j < |rows'| ensures Settled(rows'[j], done + [u]) { RowSettles(rows, done, u, stamp, j); }
  }

  lemma OneMoreDone(done: seq<Report>, us: seq<Report>)
    requires us != []
    ensures done + us == (done + [us[0]]) + us[1..]
  {
  }

  lemma {:induction false} SyncSettles(rows: seq<Asset>, done: seq<Report>, us: seq<Report>, all: seq<Report>,
                                       stamps: seq<Stamp>)
    requires |stamps| == |us| && all == done + us && AllSettled(rows, done)
    ensures AllSettled(UpsertAll(rows, us, stamps), all)
    decreases us
  {
    if us == [] {
      assert all == done;
    } else {
      UpsertSettles(rows, done, us[0], stamps[0]);
      OneMoreDone(done, us);
      SyncSettles(Upsert(rows, us[0], stamps[0]), done + [us[0]], us[1..], all, stamps[1..]);
    }
  }

  lemma StartSettled(rows: seq<Asset>)
    requires UniqueKeys(rows)
    ensures AllSettled(rows, [])
  {
  }

  /** Every row that was there is folded with all its reports, in place. */
  lemma {:induction false} SyncExisting(rows: seq<Asset>, us: seq<Report>, stamps: seq<Stamp>)
    requires |stamps| == |us| && UniqueKeys(rows)
    ensures |rows| <= |UpsertAll(rows, us, stamps)|
    ensures forall j :: 0 <= j < |rows| ==> Bare(UpsertAll(rows, us, stamps)[j]) == Fold(Bare(rows[j]), us)
    decreases us
  {
    if us != [] {
      var u, rows1 := us[0], Upsert(rows, us[0], stamps[0]);
      var i := IndexOf(rows, u.key);
      UpsertKeys(rows, u, stamps[0]);
      SyncExisting(rows1, us[1..], stamps[1..]);
      forall j | 0 <= j < |rows|
        ensures Bare(UpsertAll(rows, us, stamps)[j]) == Fold(Bare(rows[j]), us)
      {
        assert j != i ==> rows[j].key != u.key;
        assert Bare(Merge(u, rows[j], stamps[0].now)) == Merge(u, Bare(rows[j]), 0.0);
      }
    }
  }

  /** Row `j` was inserted by report `i`, the first of its key, and folded with the later ones. */
  ghost predicate InsertedBy(rows: seq<Asset>, us: seq<Report>, stamps: seq<Stamp>, i: nat, row: Asset)
    requires |stamps| == |us|
  {
    && i < |us| && row.key == us[i].key
    && !HasKey(rows, us[i].key)
    && (forall k :: 0 <= k < i ==> us[k].key != us[i].key)
    && Bare(row) == Fold(Bare(Insert(us[i], stamps[i])), us[i + 1..])
  }

  lemma InsertedByLater(rows: seq<Asset>, us: seq<Report>, stamps: seq<Stamp>, i: nat, row: Asset)
    requires us != [] && |stamps| == |us| && UniqueKeys(rows)
    requires InsertedBy(Upsert(rows, us[0], stamps[0]), us[1..], stamps[1..], i, row)
    ensures InsertedBy(rows, us, stamps, i + 1, row)
  {
    UpsertKeys(rows, us[0], stamps[0]);
    assert us[1..][i] == us[i + 1] && stamps[1..][i] == stamps[i + 1] && us[1..][i + 1..] == us[i + 2..];
    forall k | 0 <= k < i + 1 ensures us[k].key != us[i + 1].key {
      if k > 0 { assert us[1..][k - 1] == us[k]; }
    }
  }

  /** Every other row is new, and comes from the first report of its key. */
  lemma {:induction false} SyncNew(rows: seq<Asset>, us: seq<Report>, stamps: seq<Stamp>, j: nat)
    requires |stamps| == |us| && UniqueKeys(rows) && |rows| <= j < |UpsertAll(rows, us, stamps)|
    ensures exists i :: InsertedBy(rows, us, stamps, i, UpsertAll(rows, us, stamps)[j])
    decreases us
  {
    if us != [] {
      var rows1, row := Upsert(rows, us[0], stamps[0]), UpsertAll(rows, us, stamps)[j];
      UpsertKeys(rows, us[0], stamps[0]);
      if j < |rows1| {
        assert IndexOf(rows, us[0].key) == |rows|;
        assert !HasKey(rows, us[0].key);
        SyncExisting(rows1, us[1..], stamps[1..]);
        SyncKeys(rows1, us[1..], stamps[1..]);
        assert InsertedBy(rows, us, stamps, 0, row);
      } else {
        SyncNew(rows1, us[1..], stamps[1..], j);
        var i :| InsertedBy(rows1, us[1..], stamps[1..], i, row);
        InsertedByLater(rows, us, stamps, i, row);
      }
    }
  }

  // ---------------------------------------------------------------- new rows, spelled out

  /** An asset that is reported for the first time. */
  lemma FirstReport(rows: seq<Asset>, u: Report, stamp: Stamp)
    requires !HasKey(rows, u.key)
    ensures |Upsert(rows, u, stamp)| == |rows| + 1 && Upsert(rows, u, stamp)[..|rows|] == rows
    ensures var row := Upsert(rows, u, stamp)[|rows|];
            && row.status == "active" && row.risk == "none" && row.openFindings == 0
            && row.id == stamp.id && row.syncedAt == stamp.now
            && row.key == u.key && row.integration == u.integration && row.kind == u.kind && row.name == u.name
            && row.environment == u.environment && row.details == u.details && row.tags == u.tags && row.meta == u.meta
            && row.critical == u.critical && row.scannedAt == u.scannedAt
  {
  }

  lemma {:induction false} FoldGuards(row: Asset, us: seq<Report>)
    ensures Guarded(row, Fold(row, us)) && Fold(row, us).id == row.id
    decreases us
  {
    if us != [] { FoldGuards(if us[0].key == row.key then Merge(us[0], row, 0.0) else row, us[1..]); }
  }

  /** After a sync a new row is active, without risk and findings, of the integration that reported it first. */
  lemma NewRowStarts(rows: seq<Asset>, us: seq<Report>, stamps: seq<Stamp>, j: nat) returns (i: nat)
    requires |stamps| == |us| && UniqueKeys(rows) && |rows| <= j < |UpsertAll(rows, us, stamps)|
    ensures var row := UpsertAll(rows, us, stamps)[j];
            && i < |us| && us[i].key == row.key && (forall k :: 0 <= k < i ==> us[k].key != row.key)
            && row.status == "active" && row.risk == "none" && row.openFindings == 0
            && row.integration == us[i].integration && row.id == stamps[i].id
  {
    SyncNew(rows, us, stamps, j);
    var row := UpsertAll(rows, us, stamps)[j];
    i :| InsertedBy(rows, us, stamps, i, row);
    FoldGuards(Bare(Insert(us[i], stamps[i])), us[i + 1..]);
    assert Bare(row).status == row.status && Bare(row).risk == row.risk && Bare(row).openFindings == row.openFindings;
  }

  /** The time of the last report of a key, or what it was. */
  function LastSync(us: seq<Report>, stamps: seq<Stamp>, key: Key, before: real): real
    requires |stamps| == |us|
  {
    if us == [] then before
    else
      var n := |us| - 1;
      if us[n].key == key then stamps[n].now else LastSync(us[..n], stamps[..n], key, before)
  }

  lemma {:induction false} LastSyncCons(us: seq<Report>, stamps: seq<Stamp>, key: Key, before: real)
    requires us != [] && |stamps| == |us|
    ensures LastSync(us, stamps, key, before)
         == LastSync(us[1..], stamps[1..], key, if us[0].key == key then stamps[0].now else before)
  {
    var n := |us| - 1;
    if n > 0 {
      assert us[1..][..n - 1] == us[..n][1..] && stamps[1..][..n - 1] == stamps[..n][1..];
      LastSyncCons(us[..n], stamps[..n], key, before);
    } else {
      assert us[1..] == [] && us[..0] == [];
    }
  }

  /** A row that was there carries the time of its last report. */
  lemma {:induction false} LastSyncStays(rows: seq<Asset>, us: seq<Report>, stamps: seq<Stamp>, j: nat)
    requires |stamps| == |us| && UniqueKeys(rows) && j < |rows|
    ensures j < |UpsertAll(rows, us, stamps)|
    ensures UpsertAll(rows, us, stamps)[j].syncedAt == LastSync(us, stamps, rows[j].key, rows[j].syncedAt)
    decreases us
  {
    if us != [] {
      var rows1 := Upsert(rows, us[0], stamps[0]);
      UpsertKeys(rows, us[0], stamps[0]);
      UpsertedRow(rows, us[0], stamps[0], j);
      LastSyncStays(rows1, us[1..], stamps[1..], j);
      LastSyncCons(us, stamps, rows[j].key, rows[j].syncedAt);
    }
  }

  /** A sync that finds all its keys adds no row. */
  lemma {:induction false} SyncInPlace(rows: seq<Asset>, us: seq<Report>, stamps: seq<Stamp>)
    requires |stamps| == |us| && UniqueKeys(rows) && forall key :: Reports(us, key) ==> HasKey(rows, key)
    ensures |UpsertAll(rows, us, stamps)| == |rows|
    ensures forall j :: 0 <= j < |rows| ==> Bare(UpsertAll(rows, us, stamps)[j]) == Fold(Bare(rows[j]), us)
  {
    SyncExisting(rows, us, stamps);
    if |rows| < |UpsertAll(rows, us, stamps)| {
      SyncNew(rows, us, stamps, |rows|);
    }
  }

  // ---------------------------------------------------------------- the last truthy value wins

  datatype Column = Owner | Team | Description | Url | Region | Account | Namespace | Cluster

  function Get(d: Details, column: Column): Option<string> {
    match column
    case Owner => d.owner
    case Team => d.team
    case Description => d.description
    case Url => d.url
    case Region => d.region
    case Account => d.account
    case Namespace => d.namespace
    case Cluster => d.cluster
  }

  /** The last non-empty value that the reports of a key give to a text column. */
  function LastText(us: seq<Report>, key: Key, column: Column): Option<string> {
    if us == [] then None
    else
      var n := |us| - 1;
      var text := Get(us[n].details, column);
      if us[n].key == key && text.Some? && text.value != "" then text else LastText(us[..n], key, column)
  }

  /** The last scan time that the reports of a key give. */
  function LastScan(us: seq<Report>, key: Key): Option<real> {
    if us == [] then None
    else
      var n := |us| - 1;
      if us[n].key == key && us[n].scannedAt.Some? then us[n].scannedAt else LastScan(us[..n], key)
  }

  ghost predicate AnyCritical(us: seq<Report>, key: Key) {
    exists i :: 0 <= i < |us| && us[i].key == key && us[i].critical
  }

  lemma FoldLast(row: Asset, us: seq<Report>)
    requires us != []
    ensures var n := |us| - 1;
            && Fold(row, us[..n]).key == row.key
            && Fold(row, us).details == (if us[n].key == row.key then us[n].details.OrElse(Fold(row, us[..n]).details)
                                         else Fold(row, us[..n]).details)
            && Fold(row, us).scannedAt == (if us[n].key == row.key
                                           then OrTime(us[n].scannedAt, Fold(row, us[..n]).scannedAt)
                                           else Fold(row, us[..n]).scannedAt)
            && (Fold(row, us).critical <==> Fold(row, us[..n]).critical || (us[n].key == row.key && us[n].critical))
            && Fold(row, us).environment == (if us[n].key == row.key
                                             then OrText(us[n].environment, Fold(row, us[..n]).environment)
                                             else Fold(row, us[..n]).environment)
            && Fold(row, us).tags == (if us[n].key == row.key then OrMap(us[n].tags, Fold(row, us[..n]).tags)
                                      else Fold(row, us[..n]).tags)
            && Fold(row, us).meta == (if us[n].key == row.key then OrMap(us[n].meta, Fold(row, us[..n]).meta)
                                      else Fold(row, us[..n]).meta)
            && Fold(row, us).name == (if us[n].key == row.key then us[n].name else Fold(row, us[..n]).name)
            && Fold(row, us).kind == (if us[n].key == row.key then us[n].kind else Fold(row, us[..n]).kind)
  {
    var n := |us| - 1;
    assert us == us[..n] + [us[n]];
    FoldSnoc(row, us[..n], us[n]);
  }

  lemma GetOrElse(d: Details, e: Details, column: Column)
    ensures Get(d.OrElse(e), column) == Or(Get(d, column), Get(e, column))
  {
  }

  /** In every text column the last truthy value reported stays, else the old one. */
  lemma {:induction false} LastTruthyWins(row: Asset, us: seq<Report>, column: Column)
    ensures var last := LastText(us, row.key, column);
            Get(Fold(row, us).details, column) == if last.Some? then last else Get(row.details, column)
  {
    if us != [] {
      var n := |us| - 1;
      LastTruthyWins(row, us[..n], column);
      FoldLast(row, us);
      GetOrElse(us[n].details, Fold(row, us[..n]).details, column);
    }
  }

  /** The last scan time reported stays, else the old one; criticality once reported or already there stays. */
  lemma {:induction false} LastScanWins(row: Asset, us: seq<Report>)
    ensures var last := LastScan(us, row.key); Fold(row, us).scannedAt == if last.Some? then last else row.scannedAt
    ensures Fold(row, us).critical <==> row.critical || AnyCritical(us, row.key)
  {
    if us != [] {
      var n := |us| - 1;
      LastScanWins(row, us[..n]);
      FoldLast(row, us);
      AnyCriticalLast(us, row.key);
    }
  }

  function LastEnvironment(us: seq<Report>, key: Key): string {
    if us == [] then ""
    else
      var n := |us| - 1;
      if us[n].key == key && us[n].environment != "" then us[n].environment else LastEnvironment(us[..n], key)
  }

  /** The last non-empty map that the reports of a key give: their meta or their tags. */
  function LastMap(us: seq<Report>, key: Key, meta: bool): map<string, string> {
    if us == [] then map[]
    else
      var n := |us| - 1;
      var m := if meta then us[n].meta else us[n].tags;
      if us[n].key == key && m != map[] then m else LastMap(us[..n], key, meta)
  }

  /** The last non-empty environment, tags and meta reported stay, else the old ones. */
  lemma {:induction false} LastFilledWins(row: Asset, us: seq<Report>)
    ensures var last := LastEnvironment(us, row.key);
            Fold(row, us).environment == if last != "" then last else row.environment
    ensures var last := LastMap(us, row.key, false); Fold(row, us).tags == if last != map[] then last else row.tags
    ensures var last := LastMap(us, row.key, true); Fold(row, us).meta == if last != map[] then last else row.meta
  {
    if us != [] {
      LastFilledWins(row, us[..|us| - 1]);
      FoldLast(row, us);
    }
  }

  lemma AnyCriticalLast(us: seq<Report>, key: Key)
    requires us != []
    ensures var n := |us| - 1;
            AnyCritical(us, key) <==> AnyCritical(us[..n], key) || (us[n].key == key && us[n].critical)
  {
  }

  /** Name and kind are those of the last report of the key. */
  lemma {:induction false} NameIsLast(row: Asset, us: seq<Report>, i: nat)
    requires i < |us| && us[i].key == row.key && forall j :: i < j < |us| ==> us[j].key != row.key
    ensures Fold(row, us).name == us[i].name && Fold(row, us).kind == us[i].kind
  {
    FoldLast(row, us);
    if i < |us| - 1 { NameIsLast(row, us[..|us| - 1], i); }
  }

  function BareAll(rows: seq<Asset>): (r: seq<Asset>)
    ensures |r| == |rows| && forall j :: 0 <= j < |rows| ==> r[j] == Bare(rows[j])
  {
    seq(|rows|, j requires 0 <= j < |rows| => Bare(rows[j]))
  }

  /**
   * Syncing the same reports again, at other times and with duplicate keys of differing values
   * allowed, changes nothing but last_synced_at.
   */
  lemma {:induction false} SyncIdempotent(rows: seq<Asset>, us: seq<Report>, stamps: seq<Stamp>, stamps': seq<Stamp>)
    requires UniqueKeys(rows) && |stamps| == |us| && |stamps'| == |us|
    ensures BareAll(UpsertAll(UpsertAll(rows, us, stamps), us, stamps')) == BareAll(UpsertAll(rows, us, stamps))
  {
    var once := UpsertAll(rows, us, stamps);
    StartSettled(rows);
    assert us == [] + us;
    SyncSettles(rows, [], us, us, stamps);
    SyncInPlace(once, us, stamps');
    forall j | 0 <= j < |once| ensures Fold(Bare(once[j]), us) == Bare(once[j]) {
      SettledFixed(once[j], us);
    }
  }

  lemma SettledFixed(row: Asset, us: seq<Report>)
    requires Settled(row, us)
    ensures Fold(Bare(row), us) == Bare(row)
  {
    var x :| Bare(x) == x && x.key == row.key && Bare(row) == Fold(x, us);
    FoldTwice(x, us);
  }
}
