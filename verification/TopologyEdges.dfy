/**
 The edges of the drawing, exactly as the nested loops build them, and the rows they join.

 The source's Set of ids is a sequence without repetitions here, so that iterating it visits
 the ids in insertion order, as JavaScript does.
 */
module TopologyEdges {
  import opened Options
  import opened Topology

  datatype Edge = Edge(from: string, to: string)

  /** No element occurs twice. */
  ghost predicate Once<T>(s: seq<T>) {
    forall j, k :: 0 <= j < k < |s| ==> s[j] != s[k]
  }

  lemma OnceJoined<T>(a: seq<T>, b: seq<T>)
    requires Once(a) && Once(b) && forall x :: x in a ==> x !in b
    ensures Once(a + b)
  {
    forall j, k | 0 <= j < k < |a + b| ensures (a + b)[j] != (a + b)[k] {
      assert j < |a| <= k ==> a[j] in a && b[k - |a|] in b;
    }
  }

  function Add(ids: seq<string>, id: string): (r: seq<string>)
    ensures forall x :: x in r <==> x in ids || x == id
    ensures Once(ids) ==> Once(r)
  {
    if id in ids then ids else ids + [id]
  }

  /** Pushes an edge from one id to each of a set. */
  method Fan(from: string, ids: seq<string>) returns (edges: seq<Edge>)
    ensures forall e :: e in edges <==> e.from == from && e.to in ids
    ensures Once(ids) ==> Once(edges)
  {
    edges := [];
    for k := 0 to |ids|
      invariant forall e :: e in edges <==> e.from == from && e.to in ids[..k]
      invariant |edges| == k && forall j :: 0 <= j < k ==> edges[j] == Edge(from, ids[j])
    {
      edges := edges + [Edge(from, ids[k])];
      assert ids[..k + 1] == ids[..k] + [ids[k]];
    }
    assert ids[..|ids|] == ids;
  }

  // ---------------------------------------------------------------- node to service

  ghost predicate NodeReaches(sn: Snapshot, n: int, id: string) {
    exists p, s :: OnNode(sn, n, p) && SvcPod(sn, s, p) && SvcId(sn.svcs[s]) == id
  }

  method NodeServices(sn: Snapshot, n: nat) returns (connected: seq<string>)
    requires n < |sn.nodes|
    ensures forall id :: id in connected <==> NodeReaches(sn, n, id)
    ensures Once(connected)
  {
    connected := [];
    for p := 0 to |sn.pods|
      invariant Once(connected)
      invariant forall id :: id in connected <==>
                  exists q, s :: q < p && OnNode(sn, n, q) && SvcPod(sn, s, q) && SvcId(sn.svcs[s]) == id
    {
      var pod := sn.pods[p];
      if pod.nodeName != Some(sn.nodes[n].name) {
        continue;
      }
      assert OnNode(sn, n, p);
      ghost var before := connected;
      for s := 0 to |sn.svcs|
        invariant Once(connected)
        invariant forall id :: id in connected <==>
                    id in before || exists t :: t < s && SvcPod(sn, t, p) && SvcId(sn.svcs[t]) == id
      {
        if Selects(sn.svcs[s], pod) {
          assert SvcPod(sn, s, p);
          connected := Add(connected, SvcId(sn.svcs[s]));
        }
      }
    }
  }

  ghost predicate IsNodeEdge(sn: Snapshot, e: Edge) {
    exists n :: 0 <= n < |sn.nodes| && e.from == NodeId(sn.nodes[n]) && NodeReaches(sn, n, e.to)
  }

  method NodeEdges(sn: Snapshot) returns (edges: seq<Edge>)
    ensures forall e :: e in edges <==> IsNodeEdge(sn, e)
    ensures InjectiveNodeIds(sn) ==> Once(edges)
  {
    edges := [];
    for n := 0 to |sn.nodes|
      invariant InjectiveNodeIds(sn) ==> Once(edges)
      invariant forall e :: e in edges <==>
                  exists m :: 0 <= m < n && e.from == NodeId(sn.nodes[m]) && NodeReaches(sn, m, e.to)
    {
      var connected := NodeServices(sn, n);
      var fan := Fan(NodeId(sn.nodes[n]), connected);
      if InjectiveNodeIds(sn) {
        OnceJoined(edges, fan);
      }
      edges := edges + fan;
    }
  }

  // ---------------------------------------------------------------- workload to pod

  type Sets = map<string, seq<string>>

  predicate Has(m: Sets, key: string, x: string) {
    key in m && x in m[key]
  }

  /** `podToWorkloads` holds `wlId` under `podId`. */
  ghost predicate OwnedById(sn: Snapshot, podId: string, wlId: string) {
    exists w, p :: WlPod(sn, w, p) && PodId(sn.pods[p]) == podId && WlId(sn.wls[w]) == wlId
  }

  ghost predicate IsWorkloadEdge(sn: Snapshot, e: Edge) {
    OwnedById(sn, e.to, e.from)
  }

  method WorkloadEdges(sn: Snapshot) returns (podToWorkloads: Sets, edges: seq<Edge>)
    ensures forall podId, wlId :: Has(podToWorkloads, podId, wlId) <==> OwnedById(sn, podId, wlId)
    ensures forall podId :: podId in podToWorkloads ==> podToWorkloads[podId] != []
    ensures forall e :: e in edges <==> IsWorkloadEdge(sn, e)
    ensures InjectiveIds(sn) ==> Once(edges)
  {
    podToWorkloads, edges := map[], [];
    for w := 0 to |sn.wls|
      invariant InjectiveIds(sn) ==> Once(edges)
      invariant forall podId, wlId :: Has(podToWorkloads, podId, wlId) <==>
                  exists v, p :: v < w && WlPod(sn, v, p) && PodId(sn.pods[p]) == podId && WlId(sn.wls[v]) == wlId
      invariant forall podId :: podId in podToWorkloads ==> podToWorkloads[podId] != []
      invariant forall e :: e in edges <==> Has(podToWorkloads, e.to, e.from)
    {
      var wl := sn.wls[w];
      if wl.matchLabels.None? {
        assert forall p :: !WlPod(sn, w, p);
        continue;
      }
      var own;
      podToWorkloads, own := OwnPods(sn, w, podToWorkloads);
      if InjectiveIds(sn) {
        OnceJoined(edges, own);
      }
      edges := edges + own;
    }
  }

  /** Creates the key's set if it is missing, then adds to it. */
  method FileUnder(m: Sets, key: string, x: string) returns (r: Sets)
    ensures forall k, y :: Has(r, k, y) <==> Has(m, k, y) || (k == key && y == x)
    ensures forall k :: k in r <==> k in m || k == key
    ensures (forall k :: k in m ==> m[k] != []) ==> forall k :: k in r ==> r[k] != []
  {
    r := m;
    if key !in r {
      r := r[key := []];
    }
    r := r[key := Add(r[key], x)];
  }

  /** One workload's turn: it is filed under its pods' ids, and joined to each of them. */
  method OwnPods(sn: Snapshot, w: nat, m: Sets) returns (m': Sets, edges: seq<Edge>)
    requires w < |sn.wls|
    requires forall podId :: podId in m ==> m[podId] != []
    ensures forall podId, wlId :: Has(m', podId, wlId) <==> Has(m, podId, wlId) || Edge(wlId, podId) in edges
    ensures forall podId :: podId in m' ==> m'[podId] != []
    ensures forall e :: e in edges <==>
              e.from == WlId(sn.wls[w]) && exists p :: WlPod(sn, w, p) && PodId(sn.pods[p]) == e.to
    ensures InjectiveIds(sn) ==> Once(edges)
  {
    m', edges := m, [];
    var wlId := WlId(sn.wls[w]);
    for p := 0 to |sn.pods|
      invariant forall podId, id :: Has(m', podId, id) <==> Has(m, podId, id) || Edge(id, podId) in edges
      invariant forall podId :: podId in m' ==> m'[podId] != []
      invariant forall e :: e in edges <==>
                  e.from == wlId && exists q :: q < p && WlPod(sn, w, q) && PodId(sn.pods[q]) == e.to
      invariant InjectiveIds(sn) ==> Once(edges)
    {
      if Owns(sn.wls[w], sn.pods[p]) {
        assert WlPod(sn, w, p);
        var podId := PodId(sn.pods[p]);
        m' := FileUnder(m', podId, wlId);
        edges := edges + [Edge(wlId, podId)];
      }
    }
  }

  // ---------------------------------------------------------------- service to workload or pod

  /** What one service's loop adds: the workloads filed under its pods' ids, and the pods without any. */
  ghost predicate SvcReaches(sn: Snapshot, m: Sets, s: int, id: string) {
    exists p :: SvcPod(sn, s, p) && Has(m, PodId(sn.pods[p]), id)
  }

  ghost predicate SvcDirect(sn: Snapshot, m: Sets, s: int, id: string) {
    exists p :: SvcPod(sn, s, p) && PodId(sn.pods[p]) !in m && id == PodId(sn.pods[p])
  }

  method AddAll(ids: seq<string>, more: seq<string>) returns (r: seq<string>)
    ensures forall x :: x in r <==> x in ids || x in more
    ensures Once(ids) ==> Once(r)
  {
    r := ids;
    for k := 0 to |more|
      invariant Once(ids) ==> Once(r)
      invariant forall x :: x in r <==> x in ids || x in more[..k]
    {
      r := Add(r, more[k]);
      assert more[..k + 1] == more[..k] + [more[k]];
    }
    assert more[..|more|] == more;
  }

  method ServiceTargets(sn: Snapshot, m: Sets, s: nat) returns (connected: seq<string>, direct: seq<string>)
    requires s < |sn.svcs|
    ensures forall id :: id in connected <==> SvcReaches(sn, m, s, id)
    ensures forall id :: id in direct <==> SvcDirect(sn, m, s, id)
    ensures Once(connected) && (InjectiveIds(sn) ==> Once(direct))
  {
    connected, direct := [], [];
    for p := 0 to |sn.pods|
      invariant Once(connected) && (InjectiveIds(sn) ==> Once(direct))
      invariant forall id :: id in connected <==>
                  exists q :: q < p && SvcPod(sn, s, q) && Has(m, PodId(sn.pods[q]), id)
      invariant forall id :: id in direct <==>
                  exists q :: q < p && SvcPod(sn, s, q) && PodId(sn.pods[q]) !in m && id == PodId(sn.pods[q])
    {
      if Selects(sn.svcs[s], sn.pods[p]) {
        assert SvcPod(sn, s, p);
        var podId := PodId(sn.pods[p]);
        if podId in m {
          connected := AddAll(connected, m[podId]);
        } else {
          assert InjectiveIds(sn) ==> podId !in direct;
          direct := direct + [podId];
        }
      }
    }
  }

  ghost predicate IsServiceEdge(sn: Snapshot, m: Sets, e: Edge) {
    exists s :: 0 <= s < |sn.svcs| && e.from == SvcId(sn.svcs[s])
                && (SvcReaches(sn, m, s, e.to) || SvcDirect(sn, m, s, e.to))
  }

  method ServiceEdges(sn: Snapshot, podToWorkloads: Sets) returns (edges: seq<Edge>)
    ensures forall e :: e in edges <==> IsServiceEdge(sn, podToWorkloads, e)
    ensures InjectiveIds(sn) && Filed(sn, podToWorkloads) ==> Once(edges)
  {
    edges := [];
    for s := 0 to |sn.svcs|
      invariant InjectiveIds(sn) && Filed(sn, podToWorkloads) ==> Once(edges)
      invariant forall e :: e in edges <==>
                  exists t :: 0 <= t < s && e.from == SvcId(sn.svcs[t])
                    && (SvcReaches(sn, podToWorkloads, t, e.to) || SvcDirect(sn, podToWorkloads, t, e.to))
    {
      var connected, direct := ServiceTargets(sn, podToWorkloads, s);
      var svcId := SvcId(sn.svcs[s]);
      var toPods := Fan(svcId, direct);
      var toWorkloads := Fan(svcId, connected);
      if InjectiveIds(sn) && Filed(sn, podToWorkloads) {
        TargetsDiffer(sn, podToWorkloads, s);
        OnceJoined(toPods, toWorkloads);
        OnceJoined(edges, toPods + toWorkloads);
      }
      edges := edges + (toPods + toWorkloads);
    }
  }

  lemma TargetsDiffer(sn: Snapshot, m: Sets, s: int)
    requires Filed(sn, m)
    ensures forall id :: SvcReaches(sn, m, s, id) ==> !SvcDirect(sn, m, s, id)
  {
    forall id | SvcReaches(sn, m, s, id) ensures !SvcDirect(sn, m, s, id) {
      var p :| SvcPod(sn, s, p) && Has(m, PodId(sn.pods[p]), id);
      var w, q :| WlPod(sn, w, q) && PodId(sn.pods[q]) == PodId(sn.pods[p]) && WlId(sn.wls[w]) == id;
      assert id[0] == 'w';
      assert forall r: Pod :: PodId(r)[0] == 'p';
    }
  }

  // ---------------------------------------------------------------- pod to claim

  ghost predicate Mounts(sn: Snapshot, p: int, claim: string) {
    0 <= p < |sn.pods| && Some(claim) in sn.pods[p].claims && claim != ""
  }

  /** No pod mounts one claim by two of its volumes. */
  predicate ClaimsOnce(claims: seq<Option<string>>) {
    forall u, v :: 0 <= u < v < |claims| && claims[u].Some? ==> claims[u] != claims[v]
  }

  ghost predicate MountsOnce(sn: Snapshot) {
    forall p :: 0 <= p < |sn.pods| ==> ClaimsOnce(sn.pods[p].claims)
  }

  ghost predicate IsClaimEdge(sn: Snapshot, placed: set<string>, e: Edge) {
    exists p, claim :: Mounts(sn, p, claim) && e.from == PodId(sn.pods[p])
                       && e.to == PvcIdOf(sn.pods[p].namespace, claim) && e.to in placed
  }

  method ClaimEdges(sn: Snapshot, placed: set<string>) returns (edges: seq<Edge>)
    ensures forall e :: e in edges <==> IsClaimEdge(sn, placed, e)
    ensures InjectiveIds(sn) && MountsOnce(sn) ==> Once(edges)
  {
    edges := [];
    for p := 0 to |sn.pods|
      invariant InjectiveIds(sn) && MountsOnce(sn) ==> Once(edges)
      invariant forall e :: e in edges <==>
                  exists q, claim :: q < p && Mounts(sn, q, claim) && e.from == PodId(sn.pods[q])
                    && e.to == PvcIdOf(sn.pods[q].namespace, claim) && e.to in placed
    {
      var more := PodClaims(sn.pods[p], placed);
      assert forall claim :: Mounts(sn, p, claim) <==> Some(claim) in sn.pods[p].claims && claim != "";
      if InjectiveIds(sn) && MountsOnce(sn) {
        OnceJoined(edges, more);
      }
      edges := edges + more;
    }
  }

  /** Within one namespace a claim's id gives back its name. */
  lemma ClaimIdInjective(ns: Option<string>, claim: string)
    ensures forall other :: PvcIdOf(ns, other) == PvcIdOf(ns, claim) ==> other == claim
  {
    forall other | PvcIdOf(ns, other) == PvcIdOf(ns, claim) ensures other == claim {
      var front := "pvc-" + NsText(ns) + "-";
      assert PvcIdOf(ns, other) == front + other && PvcIdOf(ns, claim) == front + claim;
      assert other == (front + other)[|front|..] && claim == (front + claim)[|front|..];
    }
  }

  method PodClaims(pod: Pod, placed: set<string>) returns (edges: seq<Edge>)
    ensures forall e :: e in edges <==>
              exists claim :: Some(claim) in pod.claims && claim != "" && e.from == PodId(pod)
                && e.to == PvcIdOf(pod.namespace, claim) && e.to in placed
    ensures ClaimsOnce(pod.claims) ==> Once(edges)
  {
    edges := [];
    for v := 0 to |pod.claims|
      invariant ClaimsOnce(pod.claims) ==> Once(edges)
      invariant forall e :: e in edges <==>
                  exists claim :: Some(claim) in pod.claims[..v] && claim != "" && e.from == PodId(pod)
                    && e.to == PvcIdOf(pod.namespace, claim) && e.to in placed
    {
      assert pod.claims[..v + 1] == pod.claims[..v] + [pod.claims[v]];
      if pod.claims[v].Some? && pod.claims[v].value != "" {
        var pvcId := PvcIdOf(pod.namespace, pod.claims[v].value);
        if pvcId in placed {
          ClaimIdInjective(pod.namespace, pod.claims[v].value);
          edges := edges + [Edge(PodId(pod), pvcId)];
        }
      }
    }
    assert pod.claims[..|pod.claims|] == pod.claims;
  }

  /** What `WorkloadEdges` promises of the map it hands to `ServiceEdges`. */
  ghost predicate Filed(sn: Snapshot, m: Sets) {
    && (forall podId, wlId :: Has(m, podId, wlId) <==> OwnedById(sn, podId, wlId))
    && (forall podId :: podId in m ==> m[podId] != [])
  }

  // ---------------------------------------------------------------- the whole graph

  ghost predicate IsEdge(sn: Snapshot, m: Sets, placed: set<string>, e: Edge) {
    IsNodeEdge(sn, e) || IsWorkloadEdge(sn, e) || IsServiceEdge(sn, m, e) || IsClaimEdge(sn, placed, e)
  }

  /** Where ids tell the objects apart, no edge is drawn twice; a claim mounted twice is the one exception. */
  ghost predicate NoRepeats(sn: Snapshot, edges: seq<Edge>) {
    InjectiveNodeIds(sn) && InjectiveIds(sn) && MountsOnce(sn) ==> Once(edges)
  }

  method BuildEdges(sn: Snapshot, placed: set<string>) returns (edges: seq<Edge>, ghost podToWorkloads: Sets)
    ensures Filed(sn, podToWorkloads)
    ensures forall e :: e in edges <==> IsEdge(sn, podToWorkloads, placed, e)
    ensures NoRepeats(sn, edges) && LabelsDecide(sn)
  {
    LabelsAlwaysDecide(sn);
    var toServices := NodeEdges(sn);
    var filed, toPods := WorkloadEdges(sn);
    var fromServices := ServiceEdges(sn, filed);
    var toClaims := ClaimEdges(sn, placed);
    if InjectiveNodeIds(sn) && InjectiveIds(sn) && MountsOnce(sn) {
      StartsDiffer(sn, filed, placed);
      OnceJoined(toServices, toPods);
      OnceJoined(toServices + toPods, fromServices);
      OnceJoined(toServices + toPods + fromServices, toClaims);
    }
    edges := toServices + toPods + fromServices + toClaims;
    podToWorkloads := filed;
  }

  /** The four loops draw from nodes, workloads, services and pods, so no edge comes from two of them. */
  lemma StartsDiffer(sn: Snapshot, m: Sets, placed: set<string>)
    ensures forall e :: IsNodeEdge(sn, e) ==> e.from[..1] == "n"
    ensures forall e :: IsWorkloadEdge(sn, e) ==> e.from[..1] == "w"
    ensures forall e :: IsServiceEdge(sn, m, e) ==> e.from[..1] == "s"
    ensures forall e :: IsClaimEdge(sn, placed, e) ==> e.from[..1] == "p"
  {
  }

  /** Every edge leads from a higher row to a lower one. */
  lemma EdgesGoDown(sn: Snapshot, m: Sets, placed: set<string>, e: Edge)
    requires Filed(sn, m) && IsEdge(sn, m, placed, e)
    ensures Rank(e.from) < Rank(e.to) <= 4
  {
    var n0, s0, w0, p0 := Node(""), Service("", None, None), Workload(Deployment, "", None, None), Pod("", None, None, None, []);
    if IsNodeEdge(sn, e) {
      var n :| 0 <= n < |sn.nodes| && e.from == NodeId(sn.nodes[n]) && NodeReaches(sn, n, e.to);
      var p, s :| OnNode(sn, n, p) && SvcPod(sn, s, p) && SvcId(sn.svcs[s]) == e.to;
      IdRanks(sn.nodes[n], sn.svcs[s], w0, p0, None, "");
    } else if IsWorkloadEdge(sn, e) {
      var w, p :| WlPod(sn, w, p) && PodId(sn.pods[p]) == e.to && WlId(sn.wls[w]) == e.from;
      IdRanks(n0, s0, sn.wls[w], sn.pods[p], None, "");
    } else if IsServiceEdge(sn, m, e) {
      ServiceEdgeGoesDown(sn, m, e);
    } else {
      var p, claim :| Mounts(sn, p, claim) && e.from == PodId(sn.pods[p]) && e.to == PvcIdOf(sn.pods[p].namespace, claim);
      IdRanks(n0, s0, w0, sn.pods[p], sn.pods[p].namespace, claim);
    }
  }

  lemma ServiceEdgeGoesDown(sn: Snapshot, m: Sets, e: Edge)
    requires Filed(sn, m) && IsServiceEdge(sn, m, e)
    ensures Rank(e.from) == 1 && 2 <= Rank(e.to) <= 3
  {
    var s :| 0 <= s < |sn.svcs| && e.from == SvcId(sn.svcs[s]) && (SvcReaches(sn, m, s, e.to) || SvcDirect(sn, m, s, e.to));
    if SvcReaches(sn, m, s, e.to) {
      var p :| SvcPod(sn, s, p) && Has(m, PodId(sn.pods[p]), e.to);
      var w, q :| WlPod(sn, w, q) && PodId(sn.pods[q]) == PodId(sn.pods[p]) && WlId(sn.wls[w]) == e.to;
      IdRanks(Node(""), sn.svcs[s], sn.wls[w], sn.pods[p], None, "");
    } else {
      var p :| SvcPod(sn, s, p) && PodId(sn.pods[p]) !in m && e.to == PodId(sn.pods[p]);
      IdRanks(Node(""), sn.svcs[s], Workload(Deployment, "", None, None), sn.pods[p], None, "");
    }
  }

  /** A path is a list of ids, each joined to the next. */
  ghost predicate Path(edges: seq<Edge>, ids: seq<string>) {
    forall k :: 0 <= k < |ids| - 1 ==> Edge(ids[k], ids[k + 1]) in edges
  }

  lemma {:induction false} PathRanks(edges: seq<Edge>, ids: seq<string>)
    requires forall e :: e in edges ==> Rank(e.from) < Rank(e.to) <= 4
    requires Path(edges, ids) && ids != []
    ensures Rank(ids[|ids| - 1]) >= Rank(ids[0]) + |ids| - 1
  {
    if |ids| > 1 {
      var init := ids[..|ids| - 1];
      PathRanks(edges, init);
      assert Edge(ids[|ids| - 2], ids[|ids| - 1]) in edges;
    }
  }

  /** So the drawn graph has no cycle, and no path of more than four edges. */
  lemma PathsAreShort(sn: Snapshot, m: Sets, placed: set<string>, edges: seq<Edge>, ids: seq<string>)
    requires Filed(sn, m) && (forall e :: e in edges <==> IsEdge(sn, m, placed, e))
    requires Path(edges, ids) && |ids| > 1
    ensures |ids| <= 5 && ids[0] != ids[|ids| - 1]
  {
    forall e | e in edges ensures Rank(e.from) < Rank(e.to) <= 4 {
      EdgesGoDown(sn, m, placed, e);
    }
    PathRanks(edges, ids);
    assert Edge(ids[|ids| - 2], ids[|ids| - 1]) in edges;
  }
}
