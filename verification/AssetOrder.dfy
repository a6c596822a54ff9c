/**
 * The database promises no order of rows. A second synchronisation that sees the table, or the
 * repositories, in another order than the first changes nothing if no lookup has two answers.
 */
module AssetOrder {
  import opened Basics
  import opened Shuffles
  import opened Assets
  import opened AssetRisk
  import opened AssetRelations
  import opened AssetSync

  // ---------------------------------------------------------------- one synchronisation, in any order

  /** After the upserts, the table, the repositories and the table again are each read in some order. */
  ghost predicate Syncs(rows: seq<Asset>, edges: seq<Edge>, tenant: string, us: seq<Report>, stamps: seq<Stamp>,
                        repos: seq<Repo>, fs: seq<Finding>, rows': seq<Asset>, edges': seq<Edge>)
    requires |stamps| == |us|
  {
    exists t, rs, t' ::
      && Shuffled(UpsertAll(rows, us, stamps), t) && Shuffled(repos, rs) && rows' == Recompute(t, tenant, rs, fs)
      && Shuffled(rows', t') && edges' == BuildEdges(edges, t', tenant)
  }

  /** The same rows up to last_synced_at. */
  ghost predicate SameRows(a: seq<Asset>, b: seq<Asset>) { Shuffled(BareAll(a), BareAll(b)) }

  /** Whatever was found and stored, a second synchronisation changes neither rows nor relationships. */
  ghost predicate Stable(rows: seq<Asset>, tenant: string, us: seq<Report>, stamps: seq<Stamp>, repos: seq<Repo>)
    requires |stamps| == |us|
  {
    forall fs, edges, once, e1, o, stamps', twice, e2 ::
      TwoSyncs(rows, edges, tenant, us, stamps, repos, fs, once, e1, o, stamps', twice, e2) ==>
        SameRows(once, twice) && e2 == e1
  }

  /** A synchronisation, and a second one of the table that the first left, as some query returns it. */
  ghost predicate TwoSyncs(rows: seq<Asset>, edges: seq<Edge>, tenant: string, us: seq<Report>, stamps: seq<Stamp>,
                           repos: seq<Repo>, fs: seq<Finding>, once: seq<Asset>, e1: seq<Edge>, o: seq<Asset>,
                           stamps': seq<Stamp>, twice: seq<Asset>, e2: seq<Edge>)
    requires |stamps| == |us|
  {
    && UniqueEdges(edges) && |stamps'| == |us|
    && Syncs(rows, edges, tenant, us, stamps, repos, fs, once, e1) && Shuffled(once, o)
    && Syncs(o, e1, tenant, us, stamps', repos, fs, twice, e2)
  }

  // ---------------------------------------------------------------- lookups with one answer

  /** The repository can be this asset: by name, or by url if no asset has the name. */
  ghost predicate Answers(t: seq<Asset>, tenant: string, repo: Repo, a: Asset) {
    && a in t
    && (NamedBy(a, tenant, repo.fullName)
        || ((forall b :: b in t ==> !NamedBy(b, tenant, repo.fullName)) && LocatedBy(a, tenant, UrlOf(repo))))
  }

  /** Every repository can be one asset at most, and every asset one repository. */
  ghost predicate OneToOne(t: seq<Asset>, tenant: string, repos: seq<Repo>) {
    forall r1, r2, a1, a2 ::
      r1 in repos && r2 in repos && Answers(t, tenant, r1, a1) && Answers(t, tenant, r2, a2) ==>
        (r1 == r2 <==> a1 == a2)
  }

  /** Two namespaces answer one lookup. */
  predicate TwoNamespaces(t: seq<Asset>, tenant: string, p: Asset, n1: Asset, n2: Asset) {
    p in t && n1 in t && n2 in t && RunsIn(p, n1, tenant) && RunsIn(p, n2, tenant) && n1 != n2
  }

  /** Two clusters answer one lookup that is made. */
  predicate TwoClusters(t: seq<Asset>, tenant: string, p: Asset, n: Asset, c1: Asset, c2: Asset) {
    && p in t && n in t && c1 in t && c2 in t
    && RunsIn(p, n, tenant) && RunsOn(p, c1, tenant) && RunsOn(p, c2, tenant) && c1 != c2
  }

  /** Every pod has one namespace asset at most, and if it has one, one cluster asset at most. */
  ghost predicate OneLookup(t: seq<Asset>, tenant: string) {
    && (forall p, n1, n2 :: !TwoNamespaces(t, tenant, p, n1, n2))
    && (forall p, n, c1, c2 :: !TwoClusters(t, tenant, p, n, c1, c2))
  }

  ghost predicate UniqueIds(t: seq<Asset>) {
    forall i, j :: 0 <= i < j < |t| ==> t[i].id != t[j].id
  }

  ghost predicate UniqueRepos(repos: seq<Repo>) {
    forall i, j :: 0 <= i < j < |repos| ==> repos[i].id != repos[j].id
  }

  // ---------------------------------------------------------------- tables of the same shapes

  /** The tables hold rows of the same shapes. */
  ghost predicate Alike(a: seq<Asset>, b: seq<Asset>) {
    && (forall x {:trigger HasShape(b, x)} :: x in a ==> HasShape(b, x))
    && (forall x {:trigger HasShape(a, x)} :: x in b ==> HasShape(a, x))
  }

  ghost predicate HasShape(t: seq<Asset>, x: Asset) { exists y :: y in t && SameShape(x, y) }

  lemma AlikeTrans(a: seq<Asset>, b: seq<Asset>, c: seq<Asset>)
    requires Alike(a, b) && Alike(b, c)
    ensures Alike(a, c)
  {
    forall x | x in a ensures HasShape(c, x) {
      assert HasShape(b, x);
      var y :| y in b && SameShape(x, y);
      assert HasShape(c, y);
      var z :| z in c && SameShape(y, z);
      assert SameShape(x, z);
    }
    forall x | x in c ensures HasShape(a, x) {
      assert HasShape(b, x);
      var y :| y in b && SameShape(x, y);
      assert HasShape(a, y);
      var z :| z in a && SameShape(y, z);
      assert SameShape(x, z);
    }
  }

  lemma AlikeSym(a: seq<Asset>, b: seq<Asset>)
    requires Alike(a, b)
    ensures Alike(b, a)
  {
  }

  lemma ShuffledAlike(a: seq<Asset>, b: seq<Asset>)
    requires Shuffled(a, b)
    ensures Alike(a, b)
  {
    ShuffledMembers(a, b);
    forall x | x in a ensures HasShape(b, x) && HasShape(a, x) { assert SameShape(x, x); }
  }

  lemma ShapesAlike(a: seq<Asset>, b: seq<Asset>)
    requires SameShapes(a, b)
    ensures Alike(a, b)
  {
    forall x | x in a ensures HasShape(b, x) {
      var j :| 0 <= j < |a| && a[j] == x;
      assert SameShape(a[j], b[j]) && b[j] in b;
    }
    forall x | x in b ensures HasShape(a, x) {
      var j :| 0 <= j < |b| && b[j] == x;
      assert SameShape(a[j], b[j]) && a[j] in a;
    }
  }

  /** What an asset answers is a matter of shapes. */
  lemma AnswersByShape(a: seq<Asset>, b: seq<Asset>, tenant: string, repo: Repo, x: Asset, y: Asset)
    requires Alike(a, b) && SameShape(x, y) && y in b && Answers(a, tenant, repo, x)
    ensures Answers(b, tenant, repo, y)
  {
    if !NamedBy(y, tenant, repo.fullName) {
      forall z | z in b ensures !NamedBy(z, tenant, repo.fullName) {
        assert HasShape(a, z);
      }
    }
  }

  // ---------------------------------------------------------------- orders of a table

  lemma KeysNoDup(t: seq<Asset>)
    requires UniqueKeys(t)
    ensures NoDup(t)
  {
  }

  lemma ShuffledKeys(a: seq<Asset>, b: seq<Asset>)
    requires Shuffled(a, b) && UniqueKeys(a)
    ensures UniqueKeys(b) && |a| == |b|
  {
    KeysNoDup(a);
    ShuffledMembers(a, b);
    forall i, j | 0 <= i < j < |b| ensures b[i].key != b[j].key {
      assert b[i] in a && b[j] in a;
    }
  }

  ghost function IndexIn(s: seq<Asset>, x: Asset): (k: nat)
    requires x in s
    ensures k < |s| && s[k] == x
  {
    var k :| 0 <= k < |s| && s[k] == x;
    k
  }

  lemma SameKeySameRow(t: seq<Asset>, x: Asset, y: Asset)
    requires UniqueKeys(t) && x in t && y in t && x.key == y.key
    ensures x == y
  {
  }

  // ---------------------------------------------------------------- recomputing with one answer

  /** What recomputing does to a row, when at most one repository can be this asset. */
  ghost predicate RatedAs(t: seq<Asset>, tenant: string, repos: seq<Repo>, fs: seq<Finding>, x: Asset, y: Asset) {
    || (exists r :: r in repos && Answers(t, tenant, r, x) && y == Rated(x, r, fs))
    || ((forall r :: r in repos ==> !Answers(t, tenant, r, x)) && y == x)
  }

  lemma TargetAnswers(t: seq<Asset>, tenant: string, repo: Repo)
    ensures match Target(t, tenant, repo)
            case Some(j) => j < |t| && Answers(t, tenant, repo, t[j])
            case None => forall x :: !Answers(t, tenant, repo, x)
  {
    LastSound(t, tenant, repo.fullName);
    LastSound(t, tenant, UrlOf(repo));
  }

  lemma RowRatedAs(t: seq<Asset>, tenant: string, repos: seq<Repo>, fs: seq<Finding>, j: nat)
    requires j < |t| && UniqueKeys(t) && NoDup(repos) && OneToOne(t, tenant, repos)
    ensures |Recompute(t, tenant, repos, fs)| == |t|
    ensures RatedAs(t, tenant, repos, fs, t[j], Recompute(t, tenant, repos, fs)[j])
  {
    RecomputeRowwise(t, t, tenant, repos, fs);
    forall i | 0 <= i < |repos|
      ensures Target(t, tenant, repos[i]) == Some(j) <==> Answers(t, tenant, repos[i], t[j])
    {
      TargetAnswers(t, tenant, repos[i]);
      var target := Target(t, tenant, repos[i]);
      if Answers(t, tenant, repos[i], t[j]) {
        assert t[target.value] == t[j];
      }
    }
    if i :| 0 <= i < |repos| && Answers(t, tenant, repos[i], t[j]) {
      forall k | 0 <= k < |repos| && k != i ensures Target(t, tenant, repos[k]) != Some(j) {
        assert repos[k] != repos[i];
      }
      RateRowOnce(t, j, t[j], tenant, repos, fs, i);
      assert repos[i] in repos;
    } else {
      RateRowNone(t, j, t[j], tenant, repos, fs);
    }
  }

  // ---------------------------------------------------------------- stable if every lookup has one answer

  lemma OneToOneByShape(a: seq<Asset>, b: seq<Asset>, tenant: string, repos: seq<Repo>, rs: seq<Repo>)
    requires Alike(a, b) && UniqueKeys(a) && UniqueKeys(b) && Shuffled(repos, rs) && OneToOne(a, tenant, repos)
    ensures OneToOne(b, tenant, rs)
  {
    ShuffledMembers(repos, rs);
    AlikeSym(a, b);
    forall r1, r2, y1, y2 |
      r1 in rs && r2 in rs && Answers(b, tenant, r1, y1) && Answers(b, tenant, r2, y2)
      ensures r1 == r2 <==> y1 == y2
    {
      assert HasShape(a, y1) && HasShape(a, y2);
      var x1 :| x1 in a && SameShape(y1, x1);
      var x2 :| x2 in a && SameShape(y2, x2);
      AnswersByShape(b, a, tenant, r1, y1, x1);
      AnswersByShape(b, a, tenant, r2, y2, x2);
      assert r1 == r2 <==> x1 == x2;
      if x1 == x2 { SameKeySameRow(b, y1, y2); }
    }
  }

  /** The rating that a repository gives; none leaves the row as it is. */
  function RatingBy(repo: Option<Repo>, fs: seq<Finding>): Rating {
    match repo
    case None => Rating(false, 0, "none", None)
    case Some(r) => Rating(true, TotalOpen(fs, r.id), RiskOf(fs, r.id), r.lastScan)
  }

  lemma RatedIsRate(t: seq<Asset>, tenant: string, repos: seq<Repo>, fs: seq<Finding>, x: Asset, y: Asset)
    returns (repo: Option<Repo>)
    requires RatedAs(t, tenant, repos, fs, x, y)
    ensures y == Rate(x, RatingBy(repo, fs))
    ensures match repo
            case Some(r) => r in repos && Answers(t, tenant, r, x)
            case None => forall r :: r in repos ==> !Answers(t, tenant, r, x)
  {
    repo := None;
    if r :| r in repos && Answers(t, tenant, r, x) && y == Rated(x, r, fs) { repo := Some(r); }
  }

  /**
   * A row through both synchronisations: `x` after the first upserts, `y` rated, `z` upserted
   * again, `w` rated again, in tables `t` and `u` of the same shapes.
   */
  lemma RowTwice(t: seq<Asset>, u: seq<Asset>, tenant: string, rs: seq<Repo>, rs': seq<Repo>, fs: seq<Finding>,
                 us: seq<Report>, x: Asset, y: Asset, z: Asset, w: Asset)
    requires Alike(t, u) && UniqueKeys(t) && UniqueKeys(u) && Shuffled(rs, rs') && OneToOne(t, tenant, rs)
    requires x in t && z in u && Settled(x, us)
    requires RatedAs(t, tenant, rs, fs, x, y) && Bare(z) == Fold(Bare(y), us) && RatedAs(u, tenant, rs', fs, z, w)
    ensures Bare(w) == Bare(y)
  {
    ShuffledMembers(rs, rs');
    var repo := RatedIsRate(t, tenant, rs, fs, x, y);
    var repo' := RatedIsRate(u, tenant, rs', fs, z, w);
    SecondPassRow(x, us, RatingBy(repo, fs));
    assert SameShape(x, z) && SameShape(z, x) by { assert SameShape(Bare(z), x); }
    AlikeSym(t, u);
    if repo.Some? { AnswersByShape(t, u, tenant, repo.value, x, z); }
    if repo'.Some? { AnswersByShape(u, t, tenant, repo'.value, z, x); }
    assert repo == repo';
    BareRate(z, RatingBy(repo, fs));
  }

  lemma BareKeys(t: seq<Asset>)
    requires UniqueKeys(t)
    ensures NoDup(BareAll(t))
  {
    forall i, j | 0 <= i < j < |t| ensures BareAll(t)[i] != BareAll(t)[j] {
      assert Bare(t[i]).key == t[i].key && Bare(t[j]).key == t[j].key;
    }
  }

  /** If every row of the second table is one of the first up to last_synced_at, the tables are the same. */
  lemma RowsSame(a: seq<Asset>, b: seq<Asset>)
    requires UniqueKeys(a) && UniqueKeys(b) && |a| == |b|
    requires forall k :: 0 <= k < |b| ==> Bare(b[k]) in BareAll(a)
    ensures SameRows(a, b)
  {
    BareKeys(a);
    BareKeys(b);
    forall x | x in BareAll(b) ensures x in BareAll(a) {
      var k :| 0 <= k < |BareAll(b)| && BareAll(b)[k] == x;
    }
    MembersShuffled(BareAll(a), BareAll(b));
  }

  /** Recomputing keeps shapes, keys and length. */
  lemma Recomputed(t: seq<Asset>, tenant: string, repos: seq<Repo>, fs: seq<Finding>)
    requires UniqueKeys(t)
    ensures var r := Recompute(t, tenant, repos, fs); |r| == |t| && SameShapes(t, r) && UniqueKeys(r)
  {
    RecomputedShapes(t, tenant, repos, fs);
    ShapesSym(Recompute(t, tenant, repos, fs), t);
    KeysByShape(t, Recompute(t, tenant, repos, fs));
  }

  lemma HasKeyByShape(a: seq<Asset>, b: seq<Asset>, key: Key)
    requires Alike(a, b) && HasKey(a, key)
    ensures HasKey(b, key)
  {
    var j :| 0 <= j < |a| && a[j].key == key;
    assert HasShape(b, a[j]);
    var y :| y in b && SameShape(a[j], y);
    var k := IndexIn(b, y);
  }

  lemma KeysPresent(t: seq<Asset>, tenant: string, rs: seq<Repo>, fs: seq<Finding>, us: seq<Report>, o: seq<Asset>)
    requires AllSettled(t, us) && Shuffled(Recompute(t, tenant, rs, fs), o)
    ensures UniqueKeys(o) && |o| == |t| && forall key :: Reports(us, key) ==> HasKey(o, key)
  {
    var once := Recompute(t, tenant, rs, fs);
    Recomputed(t, tenant, rs, fs);
    ShuffledKeys(once, o);
    ShapesAlike(t, once);
    ShuffledAlike(once, o);
    AlikeTrans(t, once, o);
    forall key | Reports(us, key) ensures HasKey(o, key) { HasKeyByShape(t, o, key); }
  }

  /** A rated row is upserted again to a row of its shape. */
  lemma ShapeStays(t: seq<Asset>, tenant: string, rs: seq<Repo>, fs: seq<Finding>, us: seq<Report>, y: Asset, z: Asset)
    requires AllSettled(t, us) && y in Recompute(t, tenant, rs, fs) && Bare(z) == Fold(Bare(y), us)
    ensures SameShape(y, z)
  {
    var once := Recompute(t, tenant, rs, fs);
    var k := IndexIn(once, y);
    Recomputed(t, tenant, rs, fs);
    RecomputedRow(t, tenant, rs, fs, k);
    SecondPassRow(t[k], us, RatingOf(t, k, tenant, rs, fs));
    assert SameShape(Bare(z), t[k]) && SameShape(t[k], y);
  }

  /** Upserting again what has been upserted: in place, with the same shapes. */
  lemma UpsertedAgain(t: seq<Asset>, tenant: string, rs: seq<Repo>, fs: seq<Finding>, us: seq<Report>,
                      o: seq<Asset>, stamps: seq<Stamp>)
    requires |stamps| == |us| && AllSettled(t, us) && Shuffled(Recompute(t, tenant, rs, fs), o)
    ensures var u := UpsertAll(o, us, stamps);
            && UniqueKeys(o) && |o| == |t| && |u| == |o| && UniqueKeys(u) && SameShapes(o, u) && Alike(t, u)
            && forall j :: 0 <= j < |o| ==> Bare(u[j]) == Fold(Bare(o[j]), us)
  {
    var once := Recompute(t, tenant, rs, fs);
    var u := UpsertAll(o, us, stamps);
    KeysPresent(t, tenant, rs, fs, us, o);
    SyncInPlace(o, us, stamps);
    ShuffledMembers(once, o);
    forall j | 0 <= j < |o| ensures SameShape(o[j], u[j]) {
      ShapeStays(t, tenant, rs, fs, us, o[j], u[j]);
    }
    KeysByShape(o, u);
    AlikeAfter(t, tenant, rs, fs, o, u);
  }

  lemma AlikeAfter(t: seq<Asset>, tenant: string, rs: seq<Repo>, fs: seq<Finding>, o: seq<Asset>, u: seq<Asset>)
    requires UniqueKeys(t) && Shuffled(Recompute(t, tenant, rs, fs), o) && SameShapes(o, u)
    ensures Alike(t, u)
  {
    var once := Recompute(t, tenant, rs, fs);
    Recomputed(t, tenant, rs, fs);
    ShapesAlike(t, once);
    ShuffledAlike(once, o);
    ShapesAlike(o, u);
    AlikeTrans(t, once, o);
    AlikeTrans(t, o, u);
  }

  lemma SettledShuffled(a: seq<Asset>, b: seq<Asset>, us: seq<Report>)
    requires AllSettled(a, us) && Shuffled(a, b)
    ensures AllSettled(b, us)
  {
    ShuffledKeys(a, b);
    ShuffledMembers(a, b);
    forall j | 0 <= j < |b| ensures Settled(b[j], us) {
      var i := IndexIn(a, b[j]);
      assert Settled(a[i], us);
    }
    forall key | Reports(us, key) ensures HasKey(b, key) {
      assert HasKey(a, key);
      var i :| 0 <= i < |a| && a[i].key == key;
      var j := IndexIn(b, a[i]);
    }
  }

  /** The row of the first synchronisation that a row of the second is upserted from. */
  lemma RowBefore(t: seq<Asset>, tenant: string, rs: seq<Repo>, fs: seq<Finding>, us: seq<Report>, o: seq<Asset>,
                  stamps: seq<Stamp>, u: seq<Asset>, k: nat) returns (i: nat)
    requires |stamps| == |us| && AllSettled(t, us) && k < |u|
    requires Shuffled(Recompute(t, tenant, rs, fs), o) && Shuffled(UpsertAll(o, us, stamps), u)
    ensures i < |t| == |Recompute(t, tenant, rs, fs)| && Bare(u[k]) == Fold(Bare(Recompute(t, tenant, rs, fs)[i]), us)
  {
    UpsertedAgain(t, tenant, rs, fs, us, o, stamps);
    ShuffledMembers(UpsertAll(o, us, stamps), u);
    ShuffledMembers(Recompute(t, tenant, rs, fs), o);
    var j := IndexIn(UpsertAll(o, us, stamps), u[k]);
    i := IndexIn(Recompute(t, tenant, rs, fs), o[j]);
  }

  /** One row of the second synchronisation is a row of the first. */
  lemma RowFound(t: seq<Asset>, tenant: string, rs: seq<Repo>, fs: seq<Finding>, us: seq<Report>, o: seq<Asset>,
                 stamps: seq<Stamp>, u: seq<Asset>, rs': seq<Repo>, k: nat)
    requires |stamps| == |us| && AllSettled(t, us) && NoDup(rs) && OneToOne(t, tenant, rs)
    requires Shuffled(Recompute(t, tenant, rs, fs), o) && Shuffled(UpsertAll(o, us, stamps), u) && Shuffled(rs, rs')
    requires Alike(t, u) && UniqueKeys(u) && OneToOne(u, tenant, rs') && NoDup(rs') && k < |u|
    ensures |Recompute(u, tenant, rs', fs)| == |u|
    ensures Bare(Recompute(u, tenant, rs', fs)[k]) in BareAll(Recompute(t, tenant, rs, fs))
  {
    var once := Recompute(t, tenant, rs, fs);
    var i := RowBefore(t, tenant, rs, fs, us, o, stamps, u, k);
    RowRatedAs(u, tenant, rs', fs, k);
    RowRatedAs(t, tenant, rs, fs, i);
    RowTwice(t, u, tenant, rs, rs', fs, us, t[i], once[i], u[k], Recompute(u, tenant, rs', fs)[k]);
    assert BareAll(once)[i] == Bare(once[i]);
  }

  lemma RowsStable(t: seq<Asset>, tenant: string, rs: seq<Repo>, fs: seq<Finding>, us: seq<Report>, o: seq<Asset>,
                   stamps: seq<Stamp>, u: seq<Asset>, rs': seq<Repo>)
    requires |stamps| == |us| && AllSettled(t, us) && NoDup(rs) && OneToOne(t, tenant, rs)
    requires Shuffled(Recompute(t, tenant, rs, fs), o) && Shuffled(UpsertAll(o, us, stamps), u) && Shuffled(rs, rs')
    ensures SameRows(Recompute(t, tenant, rs, fs), Recompute(u, tenant, rs', fs))
  {
    UpsertedAgain(t, tenant, rs, fs, us, o, stamps);
    ShuffledKeys(UpsertAll(o, us, stamps), u);
    ShuffledAlike(UpsertAll(o, us, stamps), u);
    AlikeTrans(t, UpsertAll(o, us, stamps), u);
    ShuffledMembers(rs, rs');
    OneToOneByShape(t, u, tenant, rs, rs');
    Recomputed(t, tenant, rs, fs);
    Recomputed(u, tenant, rs', fs);
    forall k | 0 <= k < |u|
      ensures Bare(Recompute(u, tenant, rs', fs)[k]) in BareAll(Recompute(t, tenant, rs, fs))
    {
      RowFound(t, tenant, rs, fs, us, o, stamps, u, rs', k);
    }
    RowsSame(Recompute(t, tenant, rs, fs), Recompute(u, tenant, rs', fs));
  }

  /** The two tables of the relationships have the same shapes. */
  lemma TablesAlike(t: seq<Asset>, tenant: string, rs: seq<Repo>, fs: seq<Finding>, us: seq<Report>, o: seq<Asset>,
                    stamps: seq<Stamp>, u: seq<Asset>, rs': seq<Repo>)
    requires |stamps| == |us| && AllSettled(t, us)
    requires Shuffled(Recompute(t, tenant, rs, fs), o) && Shuffled(UpsertAll(o, us, stamps), u)
    ensures UniqueKeys(u) && |u| == |t|
    ensures Alike(t, Recompute(t, tenant, rs, fs)) && Alike(t, Recompute(u, tenant, rs', fs))
  {
    UpsertedAgain(t, tenant, rs, fs, us, o, stamps);
    ShuffledKeys(UpsertAll(o, us, stamps), u);
    ShuffledAlike(UpsertAll(o, us, stamps), u);
    AlikeTrans(t, UpsertAll(o, us, stamps), u);
    Recomputed(t, tenant, rs, fs);
    ShapesAlike(t, Recompute(t, tenant, rs, fs));
    Recomputed(u, tenant, rs', fs);
    ShapesAlike(u, Recompute(u, tenant, rs', fs));
    AlikeTrans(t, u, Recompute(u, tenant, rs', fs));
  }

  // ---------------------------------------------------------------- relationships in any order

  lemma OneLookupByShape(a: seq<Asset>, b: seq<Asset>, tenant: string)
    requires Alike(a, b) && UniqueKeys(b) && OneLookup(a, tenant)
    ensures OneLookup(b, tenant)
  {
    forall p, n1, n2 ensures !TwoNamespaces(b, tenant, p, n1, n2) {
      if TwoNamespaces(b, tenant, p, n1, n2) {
        var p', n1', n2' := ShapeIn(a, b, p), ShapeIn(a, b, n1), ShapeIn(a, b, n2);
        assert !TwoNamespaces(a, tenant, p', n1', n2');
        SameKeySameRow(b, n1, n2);
      }
    }
    forall p, n, c1, c2 ensures !TwoClusters(b, tenant, p, n, c1, c2) {
      if TwoClusters(b, tenant, p, n, c1, c2) {
        var p', n', c1', c2' := ShapeIn(a, b, p), ShapeIn(a, b, n), ShapeIn(a, b, c1), ShapeIn(a, b, c2);
        assert !TwoClusters(a, tenant, p', n', c1', c2');
        SameKeySameRow(b, c1, c2);
      }
    }
  }

  /** The row of `a` that has the shape of a row of `b`. */
  ghost function ShapeIn(a: seq<Asset>, b: seq<Asset>, x: Asset): (y: Asset)
    requires Alike(a, b) && x in b
    ensures y in a && SameShape(x, y)
  {
    assert HasShape(a, x);
    var y :| y in a && SameShape(x, y);
    y
  }

  /** From a pod to a namespace that answers its lookup. */
  predicate PodGives(t: seq<Asset>, tenant: string, p: Asset, n: Asset, e: Edge) {
    p in t && n in t && RunsIn(p, n, tenant) && e == Edge(tenant, p.id, n.id, "contains")
  }

  /** From a cluster that answers a pod's lookup to such a namespace. */
  predicate ClusterGives(t: seq<Asset>, tenant: string, p: Asset, n: Asset, c: Asset, e: Edge) {
    && p in t && n in t && c in t && RunsIn(p, n, tenant) && RunsOn(p, c, tenant)
    && e == Edge(tenant, c.id, n.id, "contains")
  }

  /** An edge that the lookups can give in some order of the table. */
  ghost predicate CanGive(t: seq<Asset>, tenant: string, e: Edge) {
    (exists p, n :: PodGives(t, tenant, p, n, e)) || (exists p, n, c :: ClusterGives(t, tenant, p, n, c, e))
  }

  lemma InferredCanGive(t: seq<Asset>, tenant: string, e: Edge)
    requires e in Inferred(t, tenant, 0)
    ensures CanGive(t, tenant, e)
  {
    InferredInside(t, tenant, 0);
    var i :| 0 <= i < |t| && IsPod(t[i], tenant) && EdgeOf(e, t, tenant, t[i]);
    var p := t[i];
    var j :| 0 <= j < |t| && IsNamespace(t[j], tenant, p.details.cluster.value, p.details.namespace.value)
             && t[j].id == e.target;
    if e.source == p.id {
      assert PodGives(t, tenant, p, t[j], e);
    } else {
      var c :| 0 <= c < |t| && IsCluster(t[c], tenant, p.details.cluster.value) && t[c].id == e.source;
      assert ClusterGives(t, tenant, p, t[j], t[c], e);
    }
  }

  lemma CanGiveByShape(a: seq<Asset>, b: seq<Asset>, tenant: string, e: Edge)
    requires Alike(a, b) && CanGive(b, tenant, e)
    ensures CanGive(a, tenant, e)
  {
    if p, n :| PodGives(b, tenant, p, n, e) {
      assert PodGives(a, tenant, ShapeIn(a, b, p), ShapeIn(a, b, n), e);
    } else {
      var p, n, c :| ClusterGives(b, tenant, p, n, c, e);
      assert ClusterGives(a, tenant, ShapeIn(a, b, p), ShapeIn(a, b, n), ShapeIn(a, b, c), e);
    }
  }

  /** With one answer, the lookup of a namespace finds it. */
  lemma NamespaceIs(t: seq<Asset>, tenant: string, p: Asset, n: Asset)
    requires OneLookup(t, tenant) && p in t && n in t && RunsIn(p, n, tenant)
    ensures NamespaceId(t, tenant, p.details.cluster.value, p.details.namespace.value) == Some(n.id)
  {
    var cluster, name := p.details.cluster.value, p.details.namespace.value;
    LookupsSound(t, tenant, cluster, name);
    var k := IndexIn(t, n);
    var j :| 0 <= j < |t| && IsNamespace(t[j], tenant, cluster, name)
             && t[j].id == NamespaceId(t, tenant, cluster, name).value;
    assert !TwoNamespaces(t, tenant, p, t[j], n);
  }

  lemma ClusterIs(t: seq<Asset>, tenant: string, p: Asset, n: Asset, c: Asset)
    requires OneLookup(t, tenant) && p in t && n in t && c in t && RunsIn(p, n, tenant) && RunsOn(p, c, tenant)
    ensures ClusterId(t, tenant, p.details.cluster.value) == Some(c.id)
  {
    var cluster := p.details.cluster.value;
    LookupsSound(t, tenant, cluster, "");
    ClusterFound(t, tenant, cluster);
    var j :| 0 <= j < |t| && IsCluster(t[j], tenant, cluster) && t[j].id == ClusterId(t, tenant, cluster).value;
    assert !TwoClusters(t, tenant, p, n, t[j], c);
  }

  /** With one answer for every lookup, every edge that can be given is inferred in every order. */
  lemma CanGiveInferred(t: seq<Asset>, tenant: string, e: Edge)
    requires OneLookup(t, tenant) && CanGive(t, tenant, e)
    ensures e in Inferred(t, tenant, 0)
  {
    if p, n :| PodGives(t, tenant, p, n, e) {
      NamespaceIs(t, tenant, p, n);
      assert PodEdges(t, tenant, p)[0] == e;
      InferredHas(t, tenant, 0, IndexIn(t, p), e);
    } else {
      var p, n, c :| ClusterGives(t, tenant, p, n, c, e);
      NamespaceIs(t, tenant, p, n);
      ClusterIs(t, tenant, p, n, c);
      assert PodEdges(t, tenant, p)[1] == e;
      InferredHas(t, tenant, 0, IndexIn(t, p), e);
    }
  }

  lemma GivenStored(edges: seq<Edge>, a: seq<Asset>, b: seq<Asset>, tenant: string, e: Edge)
    requires UniqueEdges(edges) && Alike(a, b) && OneLookup(a, tenant) && e in Inferred(b, tenant, 0)
    ensures Wanted(Inferred(a, tenant, 0), e)
  {
    var es := Inferred(a, tenant, 0);
    InferredCanGive(b, tenant, e);
    CanGiveByShape(a, b, tenant, e);
    CanGiveInferred(a, tenant, e);
    var k :| 0 <= k < |es| && es[k] == e;
    assert SameEdge(es[k], e);
  }

  lemma EdgesStable(edges: seq<Edge>, a: seq<Asset>, b: seq<Asset>, tenant: string)
    requires UniqueEdges(edges) && Alike(a, b) && OneLookup(a, tenant)
    ensures BuildEdges(BuildEdges(edges, a, tenant), b, tenant) == BuildEdges(edges, a, tenant)
  {
    var es, es' := Inferred(a, tenant, 0), Inferred(b, tenant, 0);
    UpsertEdgesStores(edges, es);
    forall x | Wanted(es', x) ensures Stored(BuildEdges(edges, a, tenant), x) {
      var i :| 0 <= i < |es'| && SameEdge(es'[i], x);
      GivenStored(edges, a, b, tenant, es'[i]);
      var k :| 0 <= k < |es| && SameEdge(es[k], es'[i]);
      assert SameEdge(es[k], x);
    }
    NothingMissing(BuildEdges(edges, a, tenant), es');
  }

  lemma ReposNoDup(repos: seq<Repo>, rs: seq<Repo>)
    requires UniqueRepos(repos) && Shuffled(repos, rs)
    ensures NoDup(rs)
  {
    assert NoDup(repos);
    ShuffledMembers(repos, rs);
  }

  /** One pair of synchronisations, when every lookup has one answer. */
  lemma PairStable(r1: seq<Asset>, edges: seq<Edge>, tenant: string, us: seq<Report>, repos: seq<Repo>,
                   fs: seq<Finding>, once: seq<Asset>, e1: seq<Edge>, o: seq<Asset>, stamps: seq<Stamp>,
                   twice: seq<Asset>, e2: seq<Edge>, t: seq<Asset>, rs: seq<Repo>, t': seq<Asset>,
                   u: seq<Asset>, rs': seq<Repo>, u': seq<Asset>)
    requires UniqueEdges(edges) && |stamps| == |us| && AllSettled(r1, us) && UniqueRepos(repos)
    requires OneToOne(r1, tenant, repos) && OneLookup(r1, tenant)
    requires Shuffled(r1, t) && Shuffled(repos, rs) && once == Recompute(t, tenant, rs, fs)
    requires Shuffled(once, t') && e1 == BuildEdges(edges, t', tenant) && Shuffled(once, o)
    requires Shuffled(UpsertAll(o, us, stamps), u) && Shuffled(repos, rs') && twice == Recompute(u, tenant, rs', fs)
    requires Shuffled(twice, u') && e2 == BuildEdges(e1, u', tenant)
    ensures SameRows(once, twice) && e2 == e1
  {
    SettledShuffled(r1, t, us);
    ShuffledAlike(r1, t);
    ReposNoDup(repos, rs);
    OneToOneByShape(r1, t, tenant, repos, rs);
    RowsStable(t, tenant, rs, fs, us, o, stamps, u, rs');
    TablesAlike(t, tenant, rs, fs, us, o, stamps, u, rs');
    Recomputed(t, tenant, rs, fs);
    ShuffledKeys(once, t');
    ShuffledAlike(once, t');
    ShuffledAlike(twice, u');
    AlikeTrans(r1, t, once);
    AlikeTrans(r1, once, t');
    OneLookupByShape(r1, t', tenant);
    AlikeTrans(t, twice, u');
    AlikeTrans(t, once, t');
    AlikeSym(t, t');
    AlikeTrans(t', t, u');
    EdgesStable(edges, t', u', tenant);
  }
}
