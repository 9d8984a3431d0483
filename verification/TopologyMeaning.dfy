/**
 What the edges say about the selectors, and exactly when they say it rightly: the drawing
 works on ids, and two objects of different namespaces can be given the same one.
 */
module TopologyMeaning {
  import opened Options
  import opened Topology
  import opened TopologyEdges

  // ---------------------------------------------------------------- what is drawn

  ghost predicate TieDrawn(sn: Snapshot, m: Sets, s: int, w: int)
    requires 0 <= s < |sn.svcs| && 0 <= w < |sn.wls|
  {
    IsServiceEdge(sn, m, Edge(SvcId(sn.svcs[s]), WlId(sn.wls[w])))
  }

  ghost predicate DirectDrawn(sn: Snapshot, m: Sets, s: int, p: int)
    requires 0 <= s < |sn.svcs| && 0 <= p < |sn.pods|
  {
    IsServiceEdge(sn, m, Edge(SvcId(sn.svcs[s]), PodId(sn.pods[p])))
  }

  ghost predicate OwnershipDrawn(sn: Snapshot, w: int, p: int)
    requires 0 <= w < |sn.wls| && 0 <= p < |sn.pods|
  {
    IsWorkloadEdge(sn, Edge(WlId(sn.wls[w]), PodId(sn.pods[p])))
  }

  /** A pod's id is a key exactly when some workload owns a pod of that id. */
  lemma FiledKeys(sn: Snapshot, m: Sets, podId: string)
    requires Filed(sn, m)
    ensures podId in m <==> exists w, q :: WlPod(sn, w, q) && PodId(sn.pods[q]) == podId
  {
    if podId in m {
      assert Has(m, podId, m[podId][0]);
    }
    if w, q :| WlPod(sn, w, q) && PodId(sn.pods[q]) == podId {
      assert OwnedById(sn, podId, WlId(sn.wls[w]));
      assert Has(m, podId, WlId(sn.wls[w]));
    }
  }

  /** Ids of pods and of workloads are never the same. */
  lemma PodIdIsNoWlId(p: Pod, w: Workload)
    ensures PodId(p) != WlId(w)
  {
    assert PodId(p)[0] == 'p' && WlId(w)[0] == 'w';
  }

  /** A pod selected by a service of the one id and a pod owned by a workload of the other have one id. */
  ghost predicate JoinedById(sn: Snapshot, svcId: string, wlId: string) {
    exists t, p :: SvcPod(sn, t, p) && SvcId(sn.svcs[t]) == svcId && OwnedById(sn, PodId(sn.pods[p]), wlId)
  }

  /** That is exactly when the drawing joins a service to a workload. */
  lemma ServiceWorkloadEdge(sn: Snapshot, m: Sets, s: int, w: int)
    requires Filed(sn, m) && 0 <= s < |sn.svcs| && 0 <= w < |sn.wls|
    ensures TieDrawn(sn, m, s, w) <==> JoinedById(sn, SvcId(sn.svcs[s]), WlId(sn.wls[w]))
  {
    var svcId, to := SvcId(sn.svcs[s]), WlId(sn.wls[w]);
    if TieDrawn(sn, m, s, w) {
      var t :| 0 <= t < |sn.svcs| && svcId == SvcId(sn.svcs[t]) && (SvcReaches(sn, m, t, to) || SvcDirect(sn, m, t, to));
      if SvcReaches(sn, m, t, to) {
        var p :| SvcPod(sn, t, p) && Has(m, PodId(sn.pods[p]), to);
      } else {
        var p :| SvcPod(sn, t, p) && to == PodId(sn.pods[p]);
        PodIdIsNoWlId(sn.pods[p], sn.wls[w]);
        assert false;
      }
    }
    if JoinedById(sn, svcId, to) {
      var t, p :| SvcPod(sn, t, p) && SvcId(sn.svcs[t]) == svcId && OwnedById(sn, PodId(sn.pods[p]), to);
      assert Has(m, PodId(sn.pods[p]), to);
      assert SvcReaches(sn, m, t, to);
    }
  }

  /** A service and a workload that could be mistaken for a tied pair are drawn as one. */
  lemma MistakenTieIsDrawn(sn: Snapshot, m: Sets, s: int, w: int, t: int, p: int, v: int, q: int)
    requires Filed(sn, m) && 0 <= s < |sn.svcs| && 0 <= w < |sn.wls|
    requires SvcPod(sn, t, p) && WlPod(sn, v, q) && PodId(sn.pods[p]) == PodId(sn.pods[q])
    requires SvcId(sn.svcs[t]) == SvcId(sn.svcs[s]) && WlId(sn.wls[v]) == WlId(sn.wls[w])
    ensures TieDrawn(sn, m, s, w)
  {
    assert OwnedById(sn, PodId(sn.pods[p]), WlId(sn.wls[w]));
    ServiceWorkloadEdge(sn, m, s, w);
  }

  /** A service is joined to a pod exactly when a service of that id selects a pod of that id, and nothing is filed under it. */
  lemma ServicePodEdge(sn: Snapshot, m: Sets, s: int, p: int)
    requires Filed(sn, m) && 0 <= s < |sn.svcs| && 0 <= p < |sn.pods|
    ensures DirectDrawn(sn, m, s, p) <==>
              && PodId(sn.pods[p]) !in m
              && exists t, q :: SvcPod(sn, t, q) && SvcId(sn.svcs[t]) == SvcId(sn.svcs[s]) && PodId(sn.pods[q]) == PodId(sn.pods[p])
  {
    var to := PodId(sn.pods[p]);
    if DirectDrawn(sn, m, s, p) {
      var t :| 0 <= t < |sn.svcs| && SvcId(sn.svcs[t]) == SvcId(sn.svcs[s])
               && (SvcReaches(sn, m, t, to) || SvcDirect(sn, m, t, to));
      if SvcReaches(sn, m, t, to) {
        var q :| SvcPod(sn, t, q) && Has(m, PodId(sn.pods[q]), to);
        var w, r :| WlPod(sn, w, r) && PodId(sn.pods[r]) == PodId(sn.pods[q]) && WlId(sn.wls[w]) == to;
        PodIdIsNoWlId(sn.pods[p], sn.wls[w]);
      }
    }
    if to !in m {
      if t, q :| SvcPod(sn, t, q) && SvcId(sn.svcs[t]) == SvcId(sn.svcs[s]) && PodId(sn.pods[q]) == to {
        assert SvcDirect(sn, m, t, to);
      }
    }
  }

  /** The pod is reached through workload `w`: service to workload, workload to pod. */
  ghost predicate Through(sn: Snapshot, m: Sets, s: int, w: int, p: int) {
    && 0 <= s < |sn.svcs| && 0 <= w < |sn.wls| && 0 <= p < |sn.pods|
    && TieDrawn(sn, m, s, w)
    && OwnershipDrawn(sn, w, p)
  }

  /**
   Every pod a service selects is reached from it either directly or through a workload,
   never both and never neither, whatever ids collide.
   */
  lemma SelectedPodReachedOneWay(sn: Snapshot, m: Sets, s: int, p: int)
    requires Filed(sn, m) && SvcPod(sn, s, p)
    ensures DirectDrawn(sn, m, s, p) <==> !exists w :: Through(sn, m, s, w, p)
  {
    var podId := PodId(sn.pods[p]);
    ServicePodEdge(sn, m, s, p);
    FiledKeys(sn, m, podId);
    if w, q :| WlPod(sn, w, q) && PodId(sn.pods[q]) == podId {
      MistakenTieIsDrawn(sn, m, s, w, s, p, w, q);
      assert OwnedById(sn, podId, WlId(sn.wls[w]));
      assert Through(sn, m, s, w, p);
    }
    if w :| Through(sn, m, s, w, p) {
      assert OwnedById(sn, podId, WlId(sn.wls[w]));
    }
  }

  // ---------------------------------------------------------------- when it is drawn rightly

  /** No pod that a service selects shares its id with another pod that a workload owns. */
  ghost predicate PodsApart(sn: Snapshot) {
    forall s, p, w, q :: SvcPod(sn, s, p) && WlPod(sn, w, q) && PodId(sn.pods[p]) == PodId(sn.pods[q]) ==> p == q
  }

  /** No service tied to a workload shares its id with another service. */
  ghost predicate TiedSvcsApart(sn: Snapshot) {
    forall s, t, w :: TiedAt(sn, t, w) && 0 <= s < |sn.svcs| && SvcId(sn.svcs[s]) == SvcId(sn.svcs[t]) ==> s == t
  }

  /** No workload tied to a service shares its id with another workload. */
  ghost predicate TiedWlsApart(sn: Snapshot) {
    forall s, v, w :: TiedAt(sn, s, v) && 0 <= w < |sn.wls| && WlId(sn.wls[w]) == WlId(sn.wls[v]) ==> w == v
  }

  /** The edges between services and workloads mean that some pod is matched by both selectors. */
  ghost predicate TiesDrawn(sn: Snapshot, m: Sets) {
    forall s, w :: 0 <= s < |sn.svcs| && 0 <= w < |sn.wls| ==> (TieDrawn(sn, m, s, w) <==> Tied(sn, s, w))
  }

  lemma TiedShareNamespace(sn: Snapshot, s: int, w: int)
    requires TiedAt(sn, s, w)
    ensures sn.svcs[s].namespace == sn.wls[w].namespace
  {
  }

  /** Ties drawn within namespaces only are touched by no collision. */
  lemma DrawnWithinNamespacesIsApart(sn: Snapshot, m: Sets)
    requires UniqueKeys(sn) && Filed(sn, m)
    requires forall s, w :: 0 <= s < |sn.svcs| && 0 <= w < |sn.wls| && TieDrawn(sn, m, s, w) ==>
               sn.svcs[s].namespace == sn.wls[w].namespace
    ensures PodsApart(sn) && TiedSvcsApart(sn) && TiedWlsApart(sn)
  {
    forall s, p, w, q | SvcPod(sn, s, p) && WlPod(sn, w, q) && PodId(sn.pods[p]) == PodId(sn.pods[q]) ensures p == q {
      MistakenTieIsDrawn(sn, m, s, w, s, p, w, q);
      if p != q {
        PodIdsCollideAcross(sn, p, q);
      }
    }
    forall s, t, w | TiedAt(sn, t, w) && 0 <= s < |sn.svcs| && SvcId(sn.svcs[s]) == SvcId(sn.svcs[t]) ensures s == t {
      var p :| SvcPod(sn, t, p) && WlPod(sn, w, p);
      MistakenTieIsDrawn(sn, m, s, w, t, p, w, p);
      if s != t {
        SvcIdsCollideAcross(sn, s, t);
      }
    }
    forall s, v, w | TiedAt(sn, s, v) && 0 <= w < |sn.wls| && WlId(sn.wls[w]) == WlId(sn.wls[v]) ensures w == v {
      var p :| SvcPod(sn, s, p) && WlPod(sn, v, p);
      MistakenTieIsDrawn(sn, m, s, w, s, p, v, p);
      if v != w {
        WlIdsCollideAcross(sn, v, w);
      }
    }
  }

  lemma ApartTieIsRight(sn: Snapshot, m: Sets, s: int, w: int)
    requires Filed(sn, m) && PodsApart(sn) && TiedSvcsApart(sn) && TiedWlsApart(sn)
    requires 0 <= s < |sn.svcs| && 0 <= w < |sn.wls|
    ensures TieDrawn(sn, m, s, w) <==> Tied(sn, s, w)
  {
    var svcId, wlId := SvcId(sn.svcs[s]), WlId(sn.wls[w]);
    ServiceWorkloadEdge(sn, m, s, w);
    if JoinedById(sn, svcId, wlId) {
      var t, p :| SvcPod(sn, t, p) && SvcId(sn.svcs[t]) == svcId && OwnedById(sn, PodId(sn.pods[p]), wlId);
      var v, q :| WlPod(sn, v, q) && PodId(sn.pods[q]) == PodId(sn.pods[p]) && WlId(sn.wls[v]) == wlId;
      assert p == q;
      assert TiedAt(sn, t, v);
    }
    if Tied(sn, s, w) {
      var p :| SvcPod(sn, s, p) && WlPod(sn, w, p);
      MistakenTieIsDrawn(sn, m, s, w, s, p, w, p);
    }
  }

  /**
   The edges between services and workloads mean what the selectors say if and only if no
   collision touches them: of a selected with an owned pod, of a tied service, of a tied workload.
   */
  lemma TiesDrawnExactly(sn: Snapshot, m: Sets)
    requires UniqueKeys(sn) && Filed(sn, m)
    ensures TiesDrawn(sn, m) <==> PodsApart(sn) && TiedSvcsApart(sn) && TiedWlsApart(sn)
  {
    if TiesDrawn(sn, m) {
      forall s, w | 0 <= s < |sn.svcs| && 0 <= w < |sn.wls| && TieDrawn(sn, m, s, w)
        ensures sn.svcs[s].namespace == sn.wls[w].namespace
      {
        TiedShareNamespace(sn, s, w);
      }
      DrawnWithinNamespacesIsApart(sn, m);
    }
    if PodsApart(sn) && TiedSvcsApart(sn) && TiedWlsApart(sn) {
      forall s, w | 0 <= s < |sn.svcs| && 0 <= w < |sn.wls| ensures TieDrawn(sn, m, s, w) <==> Tied(sn, s, w) {
        ApartTieIsRight(sn, m, s, w);
      }
    }
  }

  /** The direct edges mean that the service selects the pod and no workload does. */
  ghost predicate DirectsDrawn(sn: Snapshot, m: Sets) {
    forall s, p :: 0 <= s < |sn.svcs| && 0 <= p < |sn.pods| ==>
      (DirectDrawn(sn, m, s, p) <==> SvcPod(sn, s, p) && !Owned(sn, p))
  }

  /** No pod that is selected but not owned shares its id with another pod. */
  ghost predicate StrayPodsApart(sn: Snapshot) {
    forall s, p, q :: SvcPod(sn, s, p) && !Owned(sn, p) && 0 <= q < |sn.pods| && PodId(sn.pods[q]) == PodId(sn.pods[p]) ==> q == p
  }

  /** No service that selects such a pod shares its id with another service. */
  ghost predicate StraySvcsApart(sn: Snapshot) {
    forall s, t, p :: SvcPod(sn, t, p) && !Owned(sn, p) && 0 <= s < |sn.svcs| && SvcId(sn.svcs[s]) == SvcId(sn.svcs[t]) ==> s == t
  }

  lemma DirectsApart(sn: Snapshot, m: Sets)
    requires UniqueKeys(sn) && Filed(sn, m) && DirectsDrawn(sn, m)
    ensures StrayPodsApart(sn) && StraySvcsApart(sn)
  {
    forall s, p, q | SvcPod(sn, s, p) && !Owned(sn, p) && 0 <= q < |sn.pods| && PodId(sn.pods[q]) == PodId(sn.pods[p])
      ensures q == p
    {
      assert DirectDrawn(sn, m, s, p) && DirectDrawn(sn, m, s, q);
      if q != p {
        PodIdsCollideAcross(sn, q, p);
      }
    }
    forall s, t, p | SvcPod(sn, t, p) && !Owned(sn, p) && 0 <= s < |sn.svcs| && SvcId(sn.svcs[s]) == SvcId(sn.svcs[t])
      ensures s == t
    {
      assert DirectDrawn(sn, m, t, p) && DirectDrawn(sn, m, s, p);
      if s != t {
        SvcIdsCollideAcross(sn, s, t);
      }
    }
  }

  /** And exactly when no collision touches a pod that is selected but not owned, or its service. */
  lemma DirectsDrawnExactly(sn: Snapshot, m: Sets)
    requires UniqueKeys(sn) && Filed(sn, m)
    ensures DirectsDrawn(sn, m) <==> StrayPodsApart(sn) && StraySvcsApart(sn)
  {
    if DirectsDrawn(sn, m) {
      DirectsApart(sn, m);
    }
    if StrayPodsApart(sn) && StraySvcsApart(sn) {
      forall s, p | 0 <= s < |sn.svcs| && 0 <= p < |sn.pods|
        ensures DirectDrawn(sn, m, s, p) <==> SvcPod(sn, s, p) && !Owned(sn, p)
      {
        ServicePodEdge(sn, m, s, p);
        FiledKeys(sn, m, PodId(sn.pods[p]));
        if DirectDrawn(sn, m, s, p) {
          var t, q :| SvcPod(sn, t, q) && SvcId(sn.svcs[t]) == SvcId(sn.svcs[s]) && PodId(sn.pods[q]) == PodId(sn.pods[p]);
          assert !Owned(sn, q);
          assert p == q && s == t;
        }
        if SvcPod(sn, s, p) && !Owned(sn, p) {
          forall w, q | WlPod(sn, w, q) ensures PodId(sn.pods[q]) != PodId(sn.pods[p]) {
            assert Owned(sn, q);
          }
        }
      }
    }
  }

  /** The edges between workloads and pods mean that the workload's selector matches the pod. */
  ghost predicate OwnershipsDrawn(sn: Snapshot) {
    forall w, p :: 0 <= w < |sn.wls| && 0 <= p < |sn.pods| ==> (OwnershipDrawn(sn, w, p) <==> WlPod(sn, w, p))
  }

  /** No owned pod shares its id with another pod. */
  ghost predicate OwnedPodsApart(sn: Snapshot) {
    forall w, p, q :: WlPod(sn, w, p) && 0 <= q < |sn.pods| && PodId(sn.pods[q]) == PodId(sn.pods[p]) ==> q == p
  }

  /** No workload that owns a pod shares its id with another workload. */
  ghost predicate OwnersApart(sn: Snapshot) {
    forall v, w, p :: WlPod(sn, w, p) && 0 <= v < |sn.wls| && WlId(sn.wls[v]) == WlId(sn.wls[w]) ==> v == w
  }

  /** And exactly when no collision touches an owned pod or an owner. */
  lemma OwnershipsDrawnExactly(sn: Snapshot)
    requires UniqueKeys(sn)
    ensures OwnershipsDrawn(sn) <==> OwnedPodsApart(sn) && OwnersApart(sn)
  {
    if OwnershipsDrawn(sn) {
      forall w, p, q | WlPod(sn, w, p) && 0 <= q < |sn.pods| && PodId(sn.pods[q]) == PodId(sn.pods[p]) ensures q == p {
        assert OwnershipDrawn(sn, w, q);
        if q != p {
          PodIdsCollideAcross(sn, q, p);
        }
      }
      forall v, w, p | WlPod(sn, w, p) && 0 <= v < |sn.wls| && WlId(sn.wls[v]) == WlId(sn.wls[w]) ensures v == w {
        assert OwnershipDrawn(sn, v, p);
        if v != w {
          WlIdsCollideAcross(sn, v, w);
        }
      }
    }
    if OwnedPodsApart(sn) && OwnersApart(sn) {
      forall w, p | 0 <= w < |sn.wls| && 0 <= p < |sn.pods| ensures OwnershipDrawn(sn, w, p) <==> WlPod(sn, w, p) {
        if OwnershipDrawn(sn, w, p) {
          var v, q :| WlPod(sn, v, q) && PodId(sn.pods[q]) == PodId(sn.pods[p]) && WlId(sn.wls[v]) == WlId(sn.wls[w]);
          assert v == w && q == p;
        }
      }
    }
  }

  // ---------------------------------------------------------------- node to service, pod to claim

  /** Some pod on the node is selected by the service. */
  ghost predicate Hosts(sn: Snapshot, n: int, s: int) {
    exists p :: OnNode(sn, n, p) && SvcPod(sn, s, p)
  }

  ghost predicate HostDrawn(sn: Snapshot, n: int, s: int)
    requires 0 <= n < |sn.nodes| && 0 <= s < |sn.svcs|
  {
    IsNodeEdge(sn, Edge(NodeId(sn.nodes[n]), SvcId(sn.svcs[s])))
  }

  /** A node is joined to a service exactly when it hosts a service of that id. */
  lemma NodeServiceEdge(sn: Snapshot, n: int, s: int)
    requires 0 <= n < |sn.nodes| && 0 <= s < |sn.svcs|
    ensures HostDrawn(sn, n, s) <==> exists t :: Hosts(sn, n, t) && 0 <= t < |sn.svcs| && SvcId(sn.svcs[t]) == SvcId(sn.svcs[s])
  {
    var svcId := SvcId(sn.svcs[s]);
    if HostDrawn(sn, n, s) {
      var k :| 0 <= k < |sn.nodes| && NodeId(sn.nodes[n]) == NodeId(sn.nodes[k]) && NodeReaches(sn, k, svcId);
      SameTail("node-", sn.nodes[n].name, sn.nodes[k].name);
      var p, t :| OnNode(sn, k, p) && SvcPod(sn, t, p) && SvcId(sn.svcs[t]) == svcId;
      assert OnNode(sn, n, p);
      assert Hosts(sn, n, t);
    }
    if t :| Hosts(sn, n, t) && 0 <= t < |sn.svcs| && SvcId(sn.svcs[t]) == svcId {
      var p :| OnNode(sn, n, p) && SvcPod(sn, t, p);
      assert NodeReaches(sn, n, svcId);
    }
  }

  /** The edges between nodes and services mean that the service selects some pod on the node. */
  ghost predicate HostsDrawn(sn: Snapshot) {
    forall n, s :: 0 <= n < |sn.nodes| && 0 <= s < |sn.svcs| ==> (HostDrawn(sn, n, s) <==> Hosts(sn, n, s))
  }

  /** Services of one id are hosted by the same nodes. */
  ghost predicate HostedAlike(sn: Snapshot) {
    forall n, s, t :: Hosts(sn, n, t) && 0 <= s < |sn.svcs| && 0 <= t < |sn.svcs| && SvcId(sn.svcs[s]) == SvcId(sn.svcs[t]) ==>
      Hosts(sn, n, s)
  }

  /** And exactly when services of one id are hosted by the same nodes. */
  lemma HostsDrawnExactly(sn: Snapshot)
    ensures HostsDrawn(sn) <==> HostedAlike(sn)
  {
    if HostsDrawn(sn) {
      forall n, s, t | Hosts(sn, n, t) && 0 <= s < |sn.svcs| && 0 <= t < |sn.svcs| && SvcId(sn.svcs[s]) == SvcId(sn.svcs[t])
        ensures Hosts(sn, n, s)
      {
        NodeServiceEdge(sn, n, s);
        assert HostDrawn(sn, n, s);
      }
    }
    if HostedAlike(sn) {
      forall n, s | 0 <= n < |sn.nodes| && 0 <= s < |sn.svcs| ensures HostDrawn(sn, n, s) <==> Hosts(sn, n, s) {
        NodeServiceEdge(sn, n, s);
      }
    }
  }

  /** The pod mounts the listed claim: its own namespace's claim of that name. */
  ghost predicate Claims(sn: Snapshot, p: int, c: int) {
    0 <= p < |sn.pods| && 0 <= c < |sn.pvcs| && sn.pods[p].namespace == sn.pvcs[c].namespace && Mounts(sn, p, sn.pvcs[c].name)
  }

  /** A volume of the pod names a claim whose id is that of the listed one. */
  ghost predicate Names(sn: Snapshot, p: int, claim: string, c: int) {
    Mounts(sn, p, claim) && 0 <= c < |sn.pvcs| && PvcIdOf(sn.pods[p].namespace, claim) == PvcId(sn.pvcs[c])
  }

  ghost predicate ClaimDrawn(sn: Snapshot, placed: set<string>, p: int, c: int)
    requires 0 <= p < |sn.pods| && 0 <= c < |sn.pvcs|
  {
    IsClaimEdge(sn, placed, Edge(PodId(sn.pods[p]), PvcId(sn.pvcs[c])))
  }

  /** Every listed claim has its node. */
  ghost predicate ClaimsPlaced(sn: Snapshot, placed: set<string>) {
    forall c :: 0 <= c < |sn.pvcs| ==> PvcId(sn.pvcs[c]) in placed
  }

  /** The edges between pods and claims mean that the pod mounts the claim. */
  ghost predicate ClaimsDrawn(sn: Snapshot, placed: set<string>) {
    forall p, c :: 0 <= p < |sn.pods| && 0 <= c < |sn.pvcs| ==> (ClaimDrawn(sn, placed, p, c) <==> Claims(sn, p, c))
  }

  /** A listed claim with the id of a mounted one is that very claim. */
  ghost predicate ClaimsApart(sn: Snapshot) {
    forall p, claim, c :: Names(sn, p, claim, c) ==> sn.pvcs[c].namespace == sn.pods[p].namespace && sn.pvcs[c].name == claim
  }

  /** No pod that mounts a listed claim shares its id with another pod. */
  ghost predicate MountersApart(sn: Snapshot) {
    forall p, q, claim, c :: Names(sn, p, claim, c) && 0 <= q < |sn.pods| && PodId(sn.pods[q]) == PodId(sn.pods[p]) ==> q == p
  }

  lemma NamedClaimIsDrawn(sn: Snapshot, placed: set<string>, p: int, q: int, claim: string, c: int)
    requires ClaimsPlaced(sn, placed) && Names(sn, p, claim, c)
    requires 0 <= q < |sn.pods| && PodId(sn.pods[q]) == PodId(sn.pods[p])
    ensures ClaimDrawn(sn, placed, q, c)
  {
  }

  lemma DrawnClaimIsNamed(sn: Snapshot, placed: set<string>, q: int, c: int) returns (p: int, claim: string)
    requires 0 <= q < |sn.pods| && 0 <= c < |sn.pvcs| && ClaimDrawn(sn, placed, q, c)
    ensures Names(sn, p, claim, c) && PodId(sn.pods[q]) == PodId(sn.pods[p])
  {
    p, claim :| Mounts(sn, p, claim) && PodId(sn.pods[q]) == PodId(sn.pods[p])
                && PvcId(sn.pvcs[c]) == PvcIdOf(sn.pods[p].namespace, claim);
  }

  lemma ClaimsMustBeApart(sn: Snapshot, placed: set<string>, p: int, claim: string, c: int)
    requires ClaimsPlaced(sn, placed) && ClaimsDrawn(sn, placed) && Names(sn, p, claim, c)
    ensures sn.pvcs[c].namespace == sn.pods[p].namespace && sn.pvcs[c].name == claim
  {
    NamedClaimIsDrawn(sn, placed, p, p, claim, c);
    assert Claims(sn, p, c);
    SameTail("pvc-" + NsText(sn.pods[p].namespace) + "-", claim, sn.pvcs[c].name);
  }

  lemma MountersMustBeApart(sn: Snapshot, placed: set<string>, p: int, q: int, claim: string, c: int)
    requires UniqueKeys(sn) && ClaimsPlaced(sn, placed) && ClaimsDrawn(sn, placed) && Names(sn, p, claim, c)
    requires 0 <= q < |sn.pods| && PodId(sn.pods[q]) == PodId(sn.pods[p])
    ensures q == p
  {
    NamedClaimIsDrawn(sn, placed, p, p, claim, c);
    NamedClaimIsDrawn(sn, placed, p, q, claim, c);
    assert Claims(sn, p, c) && Claims(sn, q, c);
    if q != p {
      PodIdsCollideAcross(sn, q, p);
    }
  }

  lemma ApartClaimIsRight(sn: Snapshot, placed: set<string>, p: int, c: int)
    requires ClaimsPlaced(sn, placed) && ClaimsApart(sn) && MountersApart(sn)
    requires 0 <= p < |sn.pods| && 0 <= c < |sn.pvcs|
    ensures ClaimDrawn(sn, placed, p, c) <==> Claims(sn, p, c)
  {
    if ClaimDrawn(sn, placed, p, c) {
      var q, claim := DrawnClaimIsNamed(sn, placed, p, c);
      assert p == q;
    }
    if Claims(sn, p, c) {
      assert Names(sn, p, sn.pvcs[c].name, c);
      NamedClaimIsDrawn(sn, placed, p, p, sn.pvcs[c].name, c);
    }
  }

  /** And exactly when no collision touches a mounted claim that is listed, or a pod that mounts one. */
  lemma ClaimsDrawnExactly(sn: Snapshot, placed: set<string>)
    requires UniqueKeys(sn) && ClaimsPlaced(sn, placed)
    ensures ClaimsDrawn(sn, placed) <==> ClaimsApart(sn) && MountersApart(sn)
  {
    if ClaimsDrawn(sn, placed) {
      forall p, claim, c | Names(sn, p, claim, c)
        ensures sn.pvcs[c].namespace == sn.pods[p].namespace && sn.pvcs[c].name == claim
      {
        ClaimsMustBeApart(sn, placed, p, claim, c);
      }
      forall p, q, claim, c | Names(sn, p, claim, c) && 0 <= q < |sn.pods| && PodId(sn.pods[q]) == PodId(sn.pods[p])
        ensures q == p
      {
        MountersMustBeApart(sn, placed, p, q, claim, c);
      }
    }
    if ClaimsApart(sn) && MountersApart(sn) {
      forall p, c | 0 <= p < |sn.pods| && 0 <= c < |sn.pvcs| ensures ClaimDrawn(sn, placed, p, c) <==> Claims(sn, p, c) {
        ApartClaimIsRight(sn, placed, p, c);
      }
    }
  }

  /** Ids injective as they are for services, workloads and pods do not keep claims apart. */
  lemma CollidingClaims() returns (sn: Snapshot)
    ensures UniqueKeys(sn) && InjectiveIds(sn) && !ClaimsApart(sn) && |sn.pods| == 1 && |sn.pvcs| == 1
    ensures sn.pods[0].namespace != sn.pvcs[0].namespace && !Claims(sn, 0, 0)
    ensures forall placed :: ClaimsPlaced(sn, placed) ==> ClaimDrawn(sn, placed, 0, 0)
  {
    var pod, claim := Pod("x", Some("a"), None, None, [Some("b-c")]), Pvc("c", Some("a-b"));
    sn := Snapshot([], [], [], [pod], [claim]);
    assert PvcIdOf(Some("a"), "b-c") == "pvc-a-b-c" == PvcId(claim);
    assert Some("b-c") in pod.claims;
    assert Names(sn, 0, "b-c", 0);
    forall placed | ClaimsPlaced(sn, placed) ensures ClaimDrawn(sn, placed, 0, 0) {
      NamedClaimIsDrawn(sn, placed, 0, 0, "b-c", 0);
    }
  }

  // ---------------------------------------------------------------- all five kinds

  /** A claim that is listed, or that a pod mounts. */
  ghost predicate ClaimKnown(sn: Snapshot, ns: Option<string>, name: string) {
    || (exists c :: 0 <= c < |sn.pvcs| && sn.pvcs[c].namespace == ns && sn.pvcs[c].name == name)
    || (exists p :: Mounts(sn, p, name) && sn.pods[p].namespace == ns)
  }

  /** No two known claims get the same id. */
  ghost predicate InjectiveClaimIds(sn: Snapshot) {
    forall a, x, b, y :: ClaimKnown(sn, a, x) && ClaimKnown(sn, b, y) && PvcIdOf(a, x) == PvcIdOf(b, y) ==> a == b && x == y
  }

  /** No collision of ids falsifies any edge. */
  ghost predicate NoHarm(sn: Snapshot) {
    && PodsApart(sn) && TiedSvcsApart(sn) && TiedWlsApart(sn)
    && StrayPodsApart(sn) && StraySvcsApart(sn)
    && OwnedPodsApart(sn) && OwnersApart(sn)
    && HostedAlike(sn)
    && ClaimsApart(sn) && MountersApart(sn)
  }

  /** Every edge means what the objects say: hosting, selection, ownership, mounting. */
  ghost predicate AllDrawn(sn: Snapshot, m: Sets, placed: set<string>) {
    TiesDrawn(sn, m) && DirectsDrawn(sn, m) && OwnershipsDrawn(sn) && HostsDrawn(sn) && ClaimsDrawn(sn, placed)
  }

  /** All five kinds of edges mean what they should if and only if no collision does harm. */
  lemma AllDrawnExactly(sn: Snapshot, m: Sets, placed: set<string>)
    requires UniqueKeys(sn) && Filed(sn, m) && ClaimsPlaced(sn, placed)
    ensures AllDrawn(sn, m, placed) <==> NoHarm(sn)
  {
    TiesDrawnExactly(sn, m);
    DirectsDrawnExactly(sn, m);
    OwnershipsDrawnExactly(sn);
    HostsDrawnExactly(sn);
    ClaimsDrawnExactly(sn, placed);
  }

  lemma InjectiveClaimIdsAreApart(sn: Snapshot)
    requires InjectiveClaimIds(sn)
    ensures ClaimsApart(sn)
  {
    forall p, claim, c | Names(sn, p, claim, c)
      ensures sn.pvcs[c].namespace == sn.pods[p].namespace && sn.pvcs[c].name == claim
    {
      assert ClaimKnown(sn, sn.pods[p].namespace, claim);
      assert ClaimKnown(sn, sn.pvcs[c].namespace, sn.pvcs[c].name);
    }
  }

  lemma InjectiveIdsAreApart(sn: Snapshot)
    requires InjectiveIds(sn)
    ensures PodsApart(sn) && TiedSvcsApart(sn) && TiedWlsApart(sn) && StrayPodsApart(sn) && StraySvcsApart(sn)
    ensures OwnedPodsApart(sn) && OwnersApart(sn) && HostedAlike(sn) && MountersApart(sn)
  {
  }

  /** So where ids are injective, those of claims included, every edge means what it should. */
  lemma InjectiveIdsDrawRightly(sn: Snapshot, m: Sets, placed: set<string>)
    requires InjectiveIds(sn) && InjectiveClaimIds(sn) && Filed(sn, m) && ClaimsPlaced(sn, placed)
    ensures NoHarm(sn) && AllDrawn(sn, m, placed)
  {
    InjectiveIdsHaveKeys(sn);
    InjectiveIdsAreApart(sn);
    InjectiveClaimIdsAreApart(sn);
    AllDrawnExactly(sn, m, placed);
  }

  // ---------------------------------------------------------------- namespaces that cannot be confused

  ghost predicate NamespaceOf(sn: Snapshot, ns: Option<string>) {
    || (exists s :: 0 <= s < |sn.svcs| && sn.svcs[s].namespace == ns)
    || (exists w :: 0 <= w < |sn.wls| && sn.wls[w].namespace == ns)
    || (exists p :: 0 <= p < |sn.pods| && sn.pods[p].namespace == ns)
    || (exists c :: 0 <= c < |sn.pvcs| && sn.pvcs[c].namespace == ns)
  }

  /** No namespace in use reads like another, or like another's first words before a dash. */
  ghost predicate NamespacesApart(sn: Snapshot) {
    forall a, b :: NamespaceOf(sn, a) && NamespaceOf(sn, b) && a != b ==>
                     NsText(a) != NsText(b) && !(NsText(a) + "-" <= NsText(b))
  }

  /** Where two texts joined by a dash are the same, so are the two, or one first half opens the other. */
  lemma DashedTexts(front: string, a: string, x: string, b: string, y: string)
    requires front + a + "-" + x == front + b + "-" + y
    ensures (a == b && x == y) || a + "-" <= b || b + "-" <= a
  {
    var f := |front|;
    var s := front + a + "-" + x;
    assert s[f..f + |a| + 1] == a + "-" && s[f + |a| + 1..] == x;
    assert s[f..f + |b| + 1] == b + "-" && s[f + |b| + 1..] == y;
    if |a| == |b| {
      assert a == (a + "-")[..|a|] && b == (b + "-")[..|b|];
    } else if |a| < |b| {
      assert (b + "-")[..|a| + 1] == s[f..f + |a| + 1];
    } else {
      assert (a + "-")[..|b| + 1] == s[f..f + |b| + 1];
    }
  }

  lemma SpacedTexts(sn: Snapshot, front: string, a: Option<string>, x: string, b: Option<string>, y: string)
    requires NamespacesApart(sn) && NamespaceOf(sn, a) && NamespaceOf(sn, b)
    requires front + NsText(a) + "-" + x == front + NsText(b) + "-" + y
    ensures a == b && x == y
  {
    DashedTexts(front, NsText(a), x, NsText(b), y);
  }

  lemma SvcIdsApart(sn: Snapshot, i: int, j: int)
    requires UniqueKeys(sn) && NamespacesApart(sn)
    requires 0 <= i < |sn.svcs| && 0 <= j < |sn.svcs| && SvcId(sn.svcs[i]) == SvcId(sn.svcs[j])
    ensures i == j
  {
    SpacedTexts(sn, "svc-", sn.svcs[i].namespace, sn.svcs[i].name, sn.svcs[j].namespace, sn.svcs[j].name);
    assert SvcKey(sn.svcs[i]) == SvcKey(sn.svcs[j]);
  }

  lemma PodIdsApart(sn: Snapshot, i: int, j: int)
    requires UniqueKeys(sn) && NamespacesApart(sn)
    requires 0 <= i < |sn.pods| && 0 <= j < |sn.pods| && PodId(sn.pods[i]) == PodId(sn.pods[j])
    ensures i == j
  {
    SpacedTexts(sn, "pod-", sn.pods[i].namespace, sn.pods[i].name, sn.pods[j].namespace, sn.pods[j].name);
    assert PodKey(sn.pods[i]) == PodKey(sn.pods[j]);
  }

  lemma WlIdsApart(sn: Snapshot, i: int, j: int)
    requires UniqueKeys(sn) && NamespacesApart(sn)
    requires 0 <= i < |sn.wls| && 0 <= j < |sn.wls| && WlId(sn.wls[i]) == WlId(sn.wls[j])
    ensures i == j
  {
    var v, w := sn.wls[i], sn.wls[j];
    assert WlId(v)[4] == KindText(v.kind)[1] && WlId(w)[4] == KindText(w.kind)[1];
    assert v.kind == w.kind;
    SpacedTexts(sn, "wl-" + KindText(v.kind) + "-", v.namespace, v.name, w.namespace, w.name);
    assert WlKey(v) == WlKey(w);
  }

  lemma ClaimKnownIn(sn: Snapshot, ns: Option<string>, name: string)
    requires ClaimKnown(sn, ns, name)
    ensures NamespaceOf(sn, ns)
  {
  }

  /** Then ids are injective: what stands apart in the cluster stands apart in the drawing. */
  lemma ApartNamespacesSuffice(sn: Snapshot)
    requires UniqueKeys(sn) && NamespacesApart(sn)
    ensures InjectiveIds(sn) && InjectiveClaimIds(sn)
  {
    forall i, j | 0 <= i < |sn.svcs| && 0 <= j < |sn.svcs| && SvcId(sn.svcs[i]) == SvcId(sn.svcs[j]) ensures i == j {
      SvcIdsApart(sn, i, j);
    }
    forall i, j | 0 <= i < |sn.pods| && 0 <= j < |sn.pods| && PodId(sn.pods[i]) == PodId(sn.pods[j]) ensures i == j {
      PodIdsApart(sn, i, j);
    }
    forall i, j | 0 <= i < |sn.wls| && 0 <= j < |sn.wls| && WlId(sn.wls[i]) == WlId(sn.wls[j]) ensures i == j {
      WlIdsApart(sn, i, j);
    }
    forall a, x, b, y | ClaimKnown(sn, a, x) && ClaimKnown(sn, b, y) && PvcIdOf(a, x) == PvcIdOf(b, y) ensures a == b && x == y {
      ClaimKnownIn(sn, a, x);
      ClaimKnownIn(sn, b, y);
      SpacedTexts(sn, "pvc-", a, x, b, y);
    }
  }

  // ---------------------------------------------------------------- the edge list

  /** Some pod on the node is chosen by the service's selector. */
  ghost predicate HostsByLabels(sn: Snapshot, n: int, s: int) {
    exists p :: OnNode(sn, n, p) && SvcChooses(sn, s, p)
  }

  /** Some pod is chosen by both selectors. */
  ghost predicate TiedByLabels(sn: Snapshot, s: int, w: int) {
    exists p :: SvcChooses(sn, s, p) && WlChooses(sn, w, p)
  }

  /** Some workload's selector chooses the pod. */
  ghost predicate OwnedByLabels(sn: Snapshot, p: int) {
    exists w :: WlChooses(sn, w, p)
  }

  /**
   What the edge list says, kind by kind, is what the objects say: by the node a pod is on, by
   selectors laid over labels, and by the claims that volumes name.
   */
  ghost predicate EdgesMean(sn: Snapshot, edges: seq<Edge>) {
    && (forall n, s :: 0 <= n < |sn.nodes| && 0 <= s < |sn.svcs| ==>
          (Edge(NodeId(sn.nodes[n]), SvcId(sn.svcs[s])) in edges <==> HostsByLabels(sn, n, s)))
    && (forall w, p :: 0 <= w < |sn.wls| && 0 <= p < |sn.pods| ==>
          (Edge(WlId(sn.wls[w]), PodId(sn.pods[p])) in edges <==> WlChooses(sn, w, p)))
    && (forall s, w :: 0 <= s < |sn.svcs| && 0 <= w < |sn.wls| ==>
          (Edge(SvcId(sn.svcs[s]), WlId(sn.wls[w])) in edges <==> TiedByLabels(sn, s, w)))
    && (forall s, p :: 0 <= s < |sn.svcs| && 0 <= p < |sn.pods| ==>
          (Edge(SvcId(sn.svcs[s]), PodId(sn.pods[p])) in edges <==> SvcChooses(sn, s, p) && !OwnedByLabels(sn, p)))
    && (forall p, c :: 0 <= p < |sn.pods| && 0 <= c < |sn.pvcs| ==>
          (Edge(PodId(sn.pods[p]), PvcId(sn.pvcs[c])) in edges <==> Claims(sn, p, c)))
  }

  /** The relations by the selector test are the relations by labels. */
  lemma HostsAreByLabels(sn: Snapshot, n: int, s: int)
    ensures Hosts(sn, n, s) <==> HostsByLabels(sn, n, s)
  {
    forall p ensures SvcPod(sn, s, p) <==> SvcChooses(sn, s, p) {
      ChosenByLabels(sn, s, p);
    }
  }

  lemma TiesAreByLabels(sn: Snapshot, s: int, w: int)
    ensures Tied(sn, s, w) <==> TiedByLabels(sn, s, w)
  {
    forall p
      ensures SvcPod(sn, s, p) <==> SvcChooses(sn, s, p)
      ensures WlPod(sn, w, p) <==> WlChooses(sn, w, p)
    {
      ChosenByLabels(sn, s, p);
      ChosenByLabels(sn, w, p);
    }
  }

  lemma OwnersAreByLabels(sn: Snapshot, p: int)
    ensures Owned(sn, p) <==> OwnedByLabels(sn, p)
  {
    forall w ensures WlPod(sn, w, p) <==> WlChooses(sn, w, p) {
      ChosenByLabels(sn, w, p);
    }
  }

  /** All of them at once. */
  ghost predicate ByLabels(sn: Snapshot) {
    && (forall n, s :: Hosts(sn, n, s) <==> HostsByLabels(sn, n, s))
    && (forall s, w :: Tied(sn, s, w) <==> TiedByLabels(sn, s, w))
    && (forall p :: Owned(sn, p) <==> OwnedByLabels(sn, p))
    && (forall s, p :: SvcPod(sn, s, p) <==> SvcChooses(sn, s, p))
    && (forall w, p :: WlPod(sn, w, p) <==> WlChooses(sn, w, p))
  }

  lemma RelationsAreByLabels(sn: Snapshot)
    ensures ByLabels(sn)
  {
    forall n, s ensures Hosts(sn, n, s) <==> HostsByLabels(sn, n, s) {
      HostsAreByLabels(sn, n, s);
    }
    forall s, w ensures Tied(sn, s, w) <==> TiedByLabels(sn, s, w) {
      TiesAreByLabels(sn, s, w);
    }
    forall p ensures Owned(sn, p) <==> OwnedByLabels(sn, p) {
      OwnersAreByLabels(sn, p);
    }
    forall i, p ensures (SvcPod(sn, i, p) <==> SvcChooses(sn, i, p)) && (WlPod(sn, i, p) <==> WlChooses(sn, i, p)) {
      ChosenByLabels(sn, i, p);
    }
  }

  /** The same list against the same relations, by the selector test. */
  ghost predicate EdgesSay(sn: Snapshot, edges: seq<Edge>) {
    && (forall n, s :: 0 <= n < |sn.nodes| && 0 <= s < |sn.svcs| ==>
          (Edge(NodeId(sn.nodes[n]), SvcId(sn.svcs[s])) in edges <==> Hosts(sn, n, s)))
    && (forall w, p :: 0 <= w < |sn.wls| && 0 <= p < |sn.pods| ==>
          (Edge(WlId(sn.wls[w]), PodId(sn.pods[p])) in edges <==> WlPod(sn, w, p)))
    && (forall s, w :: 0 <= s < |sn.svcs| && 0 <= w < |sn.wls| ==>
          (Edge(SvcId(sn.svcs[s]), WlId(sn.wls[w])) in edges <==> Tied(sn, s, w)))
    && (forall s, p :: 0 <= s < |sn.svcs| && 0 <= p < |sn.pods| ==>
          (Edge(SvcId(sn.svcs[s]), PodId(sn.pods[p])) in edges <==> SvcPod(sn, s, p) && !Owned(sn, p)))
    && (forall p, c :: 0 <= p < |sn.pods| && 0 <= c < |sn.pvcs| ==>
          (Edge(PodId(sn.pods[p]), PvcId(sn.pvcs[c])) in edges <==> Claims(sn, p, c)))
  }

  lemma EdgesMeanWhatTheySay(sn: Snapshot, edges: seq<Edge>)
    ensures EdgesMean(sn, edges) <==> EdgesSay(sn, edges)
  {
    RelationsAreByLabels(sn);
  }

  /** From whose loop an edge comes can be told by the first letter of the id it starts at. */
  lemma StartTellsLoop(sn: Snapshot, m: Sets, placed: set<string>, e: Edge)
    requires IsEdge(sn, m, placed, e)
    ensures e.from[..1] == "n" ==> IsNodeEdge(sn, e)
    ensures e.from[..1] == "w" ==> IsWorkloadEdge(sn, e)
    ensures e.from[..1] == "s" ==> IsServiceEdge(sn, m, e)
    ensures e.from[..1] == "p" ==> IsClaimEdge(sn, placed, e)
  {
    StartsDiffer(sn, m, placed);
  }

  lemma Starts(n: Node, s: Service, w: Workload, p: Pod)
    ensures NodeId(n)[..1] == "n" && SvcId(s)[..1] == "s" && WlId(w)[..1] == "w" && PodId(p)[..1] == "p"
  {
  }

  lemma ListedIsDrawn(sn: Snapshot, m: Sets, placed: set<string>, edges: seq<Edge>, n: Node, s: Service, w: Workload, p: Pod, to: string)
    requires forall e :: e in edges <==> IsEdge(sn, m, placed, e)
    ensures Edge(NodeId(n), to) in edges <==> IsNodeEdge(sn, Edge(NodeId(n), to))
    ensures Edge(WlId(w), to) in edges <==> IsWorkloadEdge(sn, Edge(WlId(w), to))
    ensures Edge(SvcId(s), to) in edges <==> IsServiceEdge(sn, m, Edge(SvcId(s), to))
    ensures Edge(PodId(p), to) in edges <==> IsClaimEdge(sn, placed, Edge(PodId(p), to))
  {
    Starts(n, s, w, p);
    forall from | Edge(from, to) in edges
      ensures from[..1] == "n" ==> IsNodeEdge(sn, Edge(from, to))
      ensures from[..1] == "w" ==> IsWorkloadEdge(sn, Edge(from, to))
      ensures from[..1] == "s" ==> IsServiceEdge(sn, m, Edge(from, to))
      ensures from[..1] == "p" ==> IsClaimEdge(sn, placed, Edge(from, to))
    {
      StartTellsLoop(sn, m, placed, Edge(from, to));
    }
  }

  /** The edge list says what it should exactly when all that is drawn does. */
  lemma EdgesSayWhatIsDrawn(sn: Snapshot, m: Sets, placed: set<string>, edges: seq<Edge>)
    requires forall e :: e in edges <==> IsEdge(sn, m, placed, e)
    ensures EdgesSay(sn, edges) <==> AllDrawn(sn, m, placed)
  {
    var n0, s0, w0, p0 := Node(""), Service("", None, None), Workload(Deployment, "", None, None), Pod("", None, None, None, []);
    forall n, s | 0 <= n < |sn.nodes| && 0 <= s < |sn.svcs|
      ensures Edge(NodeId(sn.nodes[n]), SvcId(sn.svcs[s])) in edges <==> HostDrawn(sn, n, s)
    {
      ListedIsDrawn(sn, m, placed, edges, sn.nodes[n], s0, w0, p0, SvcId(sn.svcs[s]));
    }
    forall w, p | 0 <= w < |sn.wls| && 0 <= p < |sn.pods|
      ensures Edge(WlId(sn.wls[w]), PodId(sn.pods[p])) in edges <==> OwnershipDrawn(sn, w, p)
    {
      ListedIsDrawn(sn, m, placed, edges, n0, s0, sn.wls[w], p0, PodId(sn.pods[p]));
    }
    forall s, w | 0 <= s < |sn.svcs| && 0 <= w < |sn.wls|
      ensures Edge(SvcId(sn.svcs[s]), WlId(sn.wls[w])) in edges <==> TieDrawn(sn, m, s, w)
    {
      ListedIsDrawn(sn, m, placed, edges, n0, sn.svcs[s], w0, p0, WlId(sn.wls[w]));
    }
    forall s, p | 0 <= s < |sn.svcs| && 0 <= p < |sn.pods|
      ensures Edge(SvcId(sn.svcs[s]), PodId(sn.pods[p])) in edges <==> DirectDrawn(sn, m, s, p)
    {
      ListedIsDrawn(sn, m, placed, edges, n0, sn.svcs[s], w0, p0, PodId(sn.pods[p]));
    }
    forall p, c | 0 <= p < |sn.pods| && 0 <= c < |sn.pvcs|
      ensures Edge(PodId(sn.pods[p]), PvcId(sn.pvcs[c])) in edges <==> ClaimDrawn(sn, placed, p, c)
    {
      ListedIsDrawn(sn, m, placed, edges, n0, s0, w0, sn.pods[p], PvcId(sn.pvcs[c]));
    }
  }

  /** So the edge list means what the objects say if and only if no collision does harm. */
  lemma EdgesMeanExactly(sn: Snapshot, m: Sets, placed: set<string>, edges: seq<Edge>)
    requires UniqueKeys(sn) && Filed(sn, m) && ClaimsPlaced(sn, placed)
    requires forall e :: e in edges <==> IsEdge(sn, m, placed, e)
    ensures EdgesMean(sn, edges) <==> NoHarm(sn)
    ensures InjectiveIds(sn) && InjectiveClaimIds(sn) ==> EdgesMean(sn, edges)
  {
    EdgesMeanWhatTheySay(sn, edges);
    EdgesSayWhatIsDrawn(sn, m, placed, edges);
    AllDrawnExactly(sn, m, placed);
    if InjectiveIds(sn) && InjectiveClaimIds(sn) {
      InjectiveIdsDrawRightly(sn, m, placed);
    }
  }

  // ---------------------------------------------------------------- a collision that does harm

  /** A snapshot a cluster can hold whose edges lie: a service is joined to a workload of another namespace. */
  lemma CollidingIds() returns (sn: Snapshot)
    ensures UniqueKeys(sn) && !PodsApart(sn) && |sn.svcs| == 1 && |sn.wls| == 1
    ensures sn.svcs[0].namespace != sn.wls[0].namespace && !Tied(sn, 0, 0)
    ensures forall m :: Filed(sn, m) ==> TieDrawn(sn, m, 0, 0)
  {
    var web: Option<Labels> := Some(map["app" := "web"]);
    var a, ab := Some("a"), Some("a-b");
    var p0, p1 := Pod("b-c", a, None, web, []), Pod("c", ab, None, web, []);
    sn := Snapshot([], [Service("s", a, web)], [Workload(Deployment, "w", ab, web)], [p0, p1], []);
    assert PodId(p0) == "pod-a-b-c" == PodId(p1);
    assert SvcPod(sn, 0, 0) && WlPod(sn, 0, 1);
    forall m | Filed(sn, m) ensures TieDrawn(sn, m, 0, 0) {
      MistakenTieIsDrawn(sn, m, 0, 0, 0, 0, 0, 1);
    }
  }
}
