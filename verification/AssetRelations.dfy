/** Relationships inferred between Kubernetes assets. */
module AssetRelations {
  import opened Basics
  import opened Assets
  import opened AssetRisk

  datatype Edge = Edge(tenant: string, source: string, target: string, kind: string)

  predicate SameEdge(a: Edge, b: Edge) { a.source == b.source && a.target == b.target && a.kind == b.kind }

  /** Insert an edge unless one with the same ends and kind is stored. */
  function UpsertEdge(edges: seq<Edge>, e: Edge): seq<Edge> {
    if exists i :: 0 <= i < |edges| && SameEdge(edges[i], e) then edges else edges + [e]
  }

  function UpsertEdges(edges: seq<Edge>, es: seq<Edge>): seq<Edge>
    decreases es
  {
    if es == [] then edges else UpsertEdges(UpsertEdge(edges, es[0]), es[1..])
  }

  predicate IsPod(row: Asset, tenant: string) {
    row.key.tenant == tenant && row.kind == "k8s_pod" && row.details.namespace.Some? && row.details.cluster.Some?
  }

  predicate IsNamespace(row: Asset, tenant: string, cluster: string, name: string) {
    row.key.tenant == tenant && row.kind == "k8s_namespace" && row.details.cluster == Some(cluster) && row.name == name
  }

  predicate IsCluster(row: Asset, tenant: string, name: string) {
    row.key.tenant == tenant && row.kind == "k8s_cluster" && row.name == name
  }

  /** The id of the last such row: later rows overwrite earlier ones in the lookup table. */
  function NamespaceId(rows: seq<Asset>, tenant: string, cluster: string, name: string): Option<string> {
    if rows == [] then None
    else if IsNamespace(rows[|rows| - 1], tenant, cluster, name) then Some(rows[|rows| - 1].id)
    else NamespaceId(rows[..|rows| - 1], tenant, cluster, name)
  }

  function ClusterId(rows: seq<Asset>, tenant: string, name: string): Option<string> {
    if rows == [] then None
    else if IsCluster(rows[|rows| - 1], tenant, name) then Some(rows[|rows| - 1].id)
    else ClusterId(rows[..|rows| - 1], tenant, name)
  }

  /** Pod to namespace, and cluster to namespace, both called "contains". */
  function PodEdges(rows: seq<Asset>, tenant: string, pod: Asset): seq<Edge>
    requires IsPod(pod, tenant)
  {
    var ns := NamespaceId(rows, tenant, pod.details.cluster.value, pod.details.namespace.value);
    if ns.None? then []
    else
      var cluster := ClusterId(rows, tenant, pod.details.cluster.value);
      [Edge(tenant, pod.id, ns.value, "contains")]
      + if cluster.None? then [] else [Edge(tenant, cluster.value, ns.value, "contains")]
  }

  /** The edges of the pods from index `from` on, in the order in which they are upserted. */
  function Inferred(rows: seq<Asset>, tenant: string, from: nat): seq<Edge>
    requires from <= |rows|
    decreases |rows| - from
  {
    if from == |rows| then []
    else (if IsPod(rows[from], tenant) then PodEdges(rows, tenant, rows[from]) else [])
         + Inferred(rows, tenant, from + 1)
  }

  function BuildEdges(edges: seq<Edge>, rows: seq<Asset>, tenant: string): seq<Edge> {
    UpsertEdges(edges, Inferred(rows, tenant, 0))
  }

  // ---------------------------------------------------------------- idempotence

  ghost predicate Stored(edges: seq<Edge>, e: Edge) {
    exists i :: 0 <= i < |edges| && SameEdge(edges[i], e)
  }

  ghost predicate UniqueEdges(edges: seq<Edge>) {
    forall i, j :: 0 <= i < j < |edges| ==> !SameEdge(edges[i], edges[j])
  }

  lemma UpsertEdgeStores(edges: seq<Edge>, e: Edge)
    requires UniqueEdges(edges)
    ensures UniqueEdges(UpsertEdge(edges, e)) && edges <= UpsertEdge(edges, e)
    ensures forall x :: Stored(UpsertEdge(edges, e), x) <==> Stored(edges, x) || SameEdge(e, x)
  {
    var edges' := UpsertEdge(edges, e);
    if edges' != edges { assert SameEdge(edges'[|edges|], e); }
    forall x ensures Stored(edges', x) <==> Stored(edges, x) || SameEdge(e, x) {
      if Stored(edges, x) {
        var i :| 0 <= i < |edges| && SameEdge(edges[i], x);
        assert SameEdge(edges'[i], x);
      }
      if SameEdge(e, x) {
        var i :| 0 <= i < |edges'| && SameEdge(edges'[i], e);
        assert SameEdge(edges'[i], x);
      }
    }
  }

  ghost predicate Wanted(es: seq<Edge>, x: Edge) {
    exists i :: 0 <= i < |es| && SameEdge(es[i], x)
  }

  lemma WantedCons(es: seq<Edge>, x: Edge)
    requires es != []
    ensures Wanted(es, x) <==> SameEdge(es[0], x) || Wanted(es[1..], x)
  {
  }

  /** Upserting keeps ends and kind unique, keeps what is stored, and adds exactly what is missing. */
  lemma {:induction false} UpsertEdgesStores(edges: seq<Edge>, es: seq<Edge>)
    requires UniqueEdges(edges)
    ensures UniqueEdges(UpsertEdges(edges, es)) && edges <= UpsertEdges(edges, es)
    ensures forall x :: Stored(UpsertEdges(edges, es), x) <==> Stored(edges, x) || Wanted(es, x)
    decreases es
  {
    if es != [] {
      UpsertEdgeStores(edges, es[0]);
      UpsertEdgesStores(UpsertEdge(edges, es[0]), es[1..]);
      forall x ensures Stored(UpsertEdges(edges, es), x) <==> Stored(edges, x) || Wanted(es, x) {
        WantedCons(es, x);
      }
    }
  }

  lemma {:induction false} NothingMissing(edges: seq<Edge>, es: seq<Edge>)
    requires forall x :: Wanted(es, x) ==> Stored(edges, x)
    ensures UpsertEdges(edges, es) == edges
    decreases es
  {
    if es != [] {
      assert SameEdge(es[0], es[0]);
      assert Stored(edges, es[0]);
      forall x | Wanted(es[1..], x) ensures Stored(edges, x) { WantedCons(es, x); }
      NothingMissing(edges, es[1..]);
    }
  }

  /** Inferring the relationships again, from the same rows in the same order, adds nothing. */
  lemma BuildEdgesTwice(edges: seq<Edge>, rows: seq<Asset>, tenant: string)
    requires UniqueEdges(edges)
    ensures BuildEdges(BuildEdges(edges, rows, tenant), rows, tenant) == BuildEdges(edges, rows, tenant)
  {
    UpsertEdgesStores(edges, Inferred(rows, tenant, 0));
    NothingMissing(BuildEdges(edges, rows, tenant), Inferred(rows, tenant, 0));
  }

  // ---------------------------------------------------------------- tenant closure

  ghost predicate NamespaceRow(rows: seq<Asset>, tenant: string, cluster: string, name: string, id: string) {
    exists i :: 0 <= i < |rows| && IsNamespace(rows[i], tenant, cluster, name) && rows[i].id == id
  }

  ghost predicate ClusterRow(rows: seq<Asset>, tenant: string, name: string, id: string) {
    exists i :: 0 <= i < |rows| && IsCluster(rows[i], tenant, name) && rows[i].id == id
  }

  /**
   * From a pod, or from a cluster of the pod's cluster name, to a namespace of the pod's cluster and
   * namespace names, all of the tenant.
   */
  ghost predicate Inside(e: Edge, rows: seq<Asset>, tenant: string) {
    && e.tenant == tenant && e.kind == "contains"
    && exists i :: 0 <= i < |rows| && IsPod(rows[i], tenant) && EdgeOf(e, rows, tenant, rows[i])
  }

  ghost predicate EdgeOf(e: Edge, rows: seq<Asset>, tenant: string, pod: Asset)
    requires IsPod(pod, tenant)
  {
    && NamespaceRow(rows, tenant, pod.details.cluster.value, pod.details.namespace.value, e.target)
    && (e.source == pod.id || ClusterRow(rows, tenant, pod.details.cluster.value, e.source))
  }

  lemma RowsGrow(rows: seq<Asset>, tenant: string, cluster: string, name: string, id: string)
    requires rows != []
    ensures NamespaceRow(rows[..|rows| - 1], tenant, cluster, name, id) ==>
              NamespaceRow(rows, tenant, cluster, name, id)
    ensures ClusterRow(rows[..|rows| - 1], tenant, name, id) ==> ClusterRow(rows, tenant, name, id)
  {
  }

  /** The lookups find a matching row, and find one if there is one. */
  lemma {:induction false} LookupsSound(rows: seq<Asset>, tenant: string, cluster: string, name: string)
    ensures NamespaceId(rows, tenant, cluster, name).Some? ==>
              NamespaceRow(rows, tenant, cluster, name, NamespaceId(rows, tenant, cluster, name).value)
    ensures ClusterId(rows, tenant, cluster).Some? ==>
              ClusterRow(rows, tenant, cluster, ClusterId(rows, tenant, cluster).value)
    ensures NamespaceId(rows, tenant, cluster, name).None? ==>
              forall i :: 0 <= i < |rows| ==> !IsNamespace(rows[i], tenant, cluster, name)
  {
    if rows != [] {
      var n := |rows| - 1;
      LookupsSound(rows[..n], tenant, cluster, name);
      var ns, c := NamespaceId(rows, tenant, cluster, name), ClusterId(rows, tenant, cluster);
      if ns.Some? { RowsGrow(rows, tenant, cluster, name, ns.value); }
      if c.Some? { RowsGrow(rows, tenant, cluster, cluster, c.value); }
      assert forall i :: 0 <= i < n ==> rows[..n][i] == rows[i];
    }
  }

  /** Every inferred edge is one between a pod, a namespace and a cluster that the pod names. */
  lemma {:induction false} InferredInside(rows: seq<Asset>, tenant: string, from: nat)
    requires from <= |rows|
    ensures forall e :: e in Inferred(rows, tenant, from) ==> Inside(e, rows, tenant)
    decreases |rows| - from
  {
    if from < |rows| {
      InferredInside(rows, tenant, from + 1);
      var pod := rows[from];
      if IsPod(pod, tenant) {
        LookupsSound(rows, tenant, pod.details.cluster.value, pod.details.namespace.value);
        forall e | e in PodEdges(rows, tenant, pod) ensures Inside(e, rows, tenant) {
          assert EdgeOf(e, rows, tenant, rows[from]);
        }
      }
    }
  }

  lemma {:induction false} InferredHas(rows: seq<Asset>, tenant: string, from: nat, i: nat, e: Edge)
    requires from <= i < |rows| && IsPod(rows[i], tenant) && e in PodEdges(rows, tenant, rows[i])
    ensures e in Inferred(rows, tenant, from)
    decreases i - from
  {
    if from < i { InferredHas(rows, tenant, from + 1, i, e); }
  }

  lemma {:induction false} ClusterFound(t: seq<Asset>, tenant: string, cluster: string)
    ensures ClusterId(t, tenant, cluster).None? ==> forall x :: x in t ==> !IsCluster(x, tenant, cluster)
  {
    if t != [] {
      ClusterFound(t[..|t| - 1], tenant, cluster);
      assert t == t[..|t| - 1] + [t[|t| - 1]];
    }
  }

  /** An inferred edge is stored. */
  lemma InferredStored(edges: seq<Edge>, rows: seq<Asset>, tenant: string, i: nat, e: Edge)
    requires UniqueEdges(edges) && i < |rows| && IsPod(rows[i], tenant) && e in PodEdges(rows, tenant, rows[i])
    ensures Stored(BuildEdges(edges, rows, tenant), e)
  {
    InferredHas(rows, tenant, 0, i, e);
    var es := Inferred(rows, tenant, 0);
    var k :| 0 <= k < |es| && es[k] == e;
    assert SameEdge(es[k], e);
    UpsertEdgesStores(edges, es);
  }

  /** A pod that names its namespace and its cluster. */
  predicate NamedPod(p: Asset, tenant: string) {
    p.key.tenant == tenant && p.kind == "k8s_pod" && p.details.namespace.Some? && p.details.cluster.Some?
  }

  /** A namespace of the pod's cluster and namespace names. */
  predicate RunsIn(p: Asset, n: Asset, tenant: string) {
    && NamedPod(p, tenant) && n.key.tenant == tenant && n.kind == "k8s_namespace"
    && n.details.cluster == p.details.cluster && n.name == p.details.namespace.value
  }

  /** A cluster of the pod's cluster name. */
  predicate RunsOn(p: Asset, c: Asset, tenant: string) {
    NamedPod(p, tenant) && c.key.tenant == tenant && c.kind == "k8s_cluster" && c.name == p.details.cluster.value
  }

  /** An edge "contains" leads from the one asset to the other. */
  ghost predicate Joined(edges: seq<Edge>, source: string, target: string) {
    exists i ::
      0 <= i < |edges| && edges[i].source == source && edges[i].target == target && edges[i].kind == "contains"
  }

  lemma StoredJoins(edges: seq<Edge>, e: Edge)
    requires Stored(edges, e) && e.kind == "contains"
    ensures Joined(edges, e.source, e.target)
  {
    var i :| 0 <= i < |edges| && SameEdge(edges[i], e);
  }

  /**
   * A pod for which there is a namespace asset of its names gets an edge to such an asset; and if
   * there is a cluster asset of its cluster name, the namespace gets one from such a cluster.
   */
  lemma PodConnected(edges: seq<Edge>, rows: seq<Asset>, tenant: string, i: nat, j: nat, k: nat)
    returns (target: nat, source: nat)
    requires UniqueEdges(edges) && i < |rows| && j < |rows| && k < |rows| && RunsIn(rows[i], rows[j], tenant)
    ensures target < |rows| && RunsIn(rows[i], rows[target], tenant)
    ensures Joined(BuildEdges(edges, rows, tenant), rows[i].id, rows[target].id)
    ensures RunsOn(rows[i], rows[k], tenant) ==>
              && source < |rows| && RunsOn(rows[i], rows[source], tenant)
              && Joined(BuildEdges(edges, rows, tenant), rows[source].id, rows[target].id)
  {
    var cluster, name := rows[i].details.cluster.value, rows[i].details.namespace.value;
    LookupsSound(rows, tenant, cluster, name);
    ClusterFound(rows, tenant, cluster);
    assert IsNamespace(rows[j], tenant, cluster, name);
    var ns, c := NamespaceId(rows, tenant, cluster, name), ClusterId(rows, tenant, cluster);
    target :| 0 <= target < |rows| && IsNamespace(rows[target], tenant, cluster, name) && rows[target].id == ns.value;
    assert PodEdges(rows, tenant, rows[i])[0] == Edge(tenant, rows[i].id, rows[target].id, "contains");
    InferredStored(edges, rows, tenant, i, Edge(tenant, rows[i].id, rows[target].id, "contains"));
    StoredJoins(BuildEdges(edges, rows, tenant), Edge(tenant, rows[i].id, rows[target].id, "contains"));
    assert rows[k] in rows;
    if c.Some? {
      source :| 0 <= source < |rows| && IsCluster(rows[source], tenant, cluster) && rows[source].id == c.value;
      assert PodEdges(rows, tenant, rows[i])[1] == Edge(tenant, rows[source].id, rows[target].id, "contains");
      InferredStored(edges, rows, tenant, i, Edge(tenant, rows[source].id, rows[target].id, "contains"));
      StoredJoins(BuildEdges(edges, rows, tenant), Edge(tenant, rows[source].id, rows[target].id, "contains"));
    } else {
      source := 0;
    }
  }

  lemma {:induction false} UpsertEdgesFrom(edges: seq<Edge>, es: seq<Edge>)
    ensures forall e :: e in UpsertEdges(edges, es) ==> e in edges || e in es
    decreases es
  {
    if es != [] { UpsertEdgesFrom(UpsertEdge(edges, es[0]), es[1..]); }
  }

  /** An edge from a pod, or from a cluster of its cluster name, to a namespace of its names. */
  ghost predicate Contains(e: Edge, rows: seq<Asset>, tenant: string) {
    && e.tenant == tenant && e.kind == "contains"
    && exists p, n :: && p in rows && n in rows && RunsIn(p, n, tenant) && e.target == n.id
                      && (e.source == p.id || exists c :: c in rows && RunsOn(p, c, tenant) && e.source == c.id)
  }

  lemma InsideContains(e: Edge, rows: seq<Asset>, tenant: string)
    requires Inside(e, rows, tenant)
    ensures Contains(e, rows, tenant)
  {
    var i :| 0 <= i < |rows| && IsPod(rows[i], tenant) && EdgeOf(e, rows, tenant, rows[i]);
    var p := rows[i];
    var j :| 0 <= j < |rows| && IsNamespace(rows[j], tenant, p.details.cluster.value, p.details.namespace.value)
             && rows[j].id == e.target;
    assert p in rows && rows[j] in rows && RunsIn(p, rows[j], tenant);
    if e.source != p.id {
      var k :| 0 <= k < |rows| && IsCluster(rows[k], tenant, p.details.cluster.value) && rows[k].id == e.source;
      assert rows[k] in rows && RunsOn(p, rows[k], tenant);
    }
  }

  /** Building relationships is closed in the tenant: what it adds stays inside. */
  lemma BuildEdgesInside(edges: seq<Edge>, rows: seq<Asset>, tenant: string)
    ensures forall e :: e in BuildEdges(edges, rows, tenant) ==> e in edges || Contains(e, rows, tenant)
  {
    InferredInside(rows, tenant, 0);
    UpsertEdgesFrom(edges, Inferred(rows, tenant, 0));
    forall e | e in BuildEdges(edges, rows, tenant) && e !in edges ensures Contains(e, rows, tenant) {
      InsideContains(e, rows, tenant);
    }
  }

  // ---------------------------------------------------------------- what the edges depend on

  lemma {:induction false} LookupsByShape(a: seq<Asset>, b: seq<Asset>, tenant: string, cluster: string, name: string)
    requires SameShapes(a, b)
    ensures NamespaceId(a, tenant, cluster, name) == NamespaceId(b, tenant, cluster, name)
    ensures ClusterId(a, tenant, cluster) == ClusterId(b, tenant, cluster)
  {
    if a != [] {
      assert SameShape(a[|a| - 1], b[|b| - 1]);
      LookupsByShape(a[..|a| - 1], b[..|b| - 1], tenant, cluster, name);
    }
  }

  lemma {:induction false} InferredByShape(a: seq<Asset>, b: seq<Asset>, tenant: string, from: nat)
    requires SameShapes(a, b) && from <= |a|
    ensures Inferred(a, tenant, from) == Inferred(b, tenant, from)
    decreases |a| - from
  {
    if from < |a| {
      assert SameShape(a[from], b[from]);
      if IsPod(a[from], tenant) {
        LookupsByShape(a, b, tenant, a[from].details.cluster.value, a[from].details.namespace.value);
      }
      InferredByShape(a, b, tenant, from + 1);
    }
  }
}
