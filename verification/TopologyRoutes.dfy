/**
 The drawing and the tooltips side by side: exactly when each says what the selectors say,
 and exactly when the two agree.
 */
module TopologyRoutes {
  import opened Options
  import opened Topology
  import opened TopologyEdges
  import opened TopologyMeaning
  import opened TopologyTooltips

  // ---------------------------------------------------------------- what the tooltips mean

  /** Kinds contain no slash, so a label gives back kind and name. */
  lemma LabelInjective(v: Workload, w: Workload)
    requires WlLabel(v) == WlLabel(w)
    ensures v.kind == w.kind && v.name == w.name
  {
    assert WlLabel(v)[1] == KindText(v.kind)[1] && WlLabel(w)[1] == KindText(w.kind)[1];
    SameTail(KindText(v.kind) + "/", v.name, w.name);
  }

  lemma SelectedPodNamed(sn: Snapshot, svcId: string, x: string) returns (t: int, p: int)
    requires x in PodsOfSvc(sn, svcId, |sn.svcs|, 0)
    ensures SvcPod(sn, t, p) && SvcId(sn.svcs[t]) == svcId && sn.pods[p].name == x
  {
    ListedPodsOfSvc(sn, svcId, |sn.svcs|, 0);
    t, p :| SvcPod(sn, t, p) && SvcId(sn.svcs[t]) == svcId && sn.pods[p].name == x;
  }

  lemma OwnedPodNamed(sn: Snapshot, wlId: string, w: nat, x: string) returns (v: int, q: int)
    requires w <= |sn.wls| && x in PodsOfWl(sn, wlId, w, 0)
    ensures WlPod(sn, v, q) && v < w && WlId(sn.wls[v]) == wlId && sn.pods[q].name == x
  {
    ListedPodsOfWl(sn, wlId, w, 0);
    v, q :| WlPod(sn, v, q) && v < w && WlId(sn.wls[v]) == wlId && sn.pods[q].name == x;
  }

  /**
   A pod selected by a service of `s`'s id and a pod owned by a workload of `w`'s id, `w` itself
   or one before it in the list, have one name.
   */
  ghost predicate PodsShareName(sn: Snapshot, s: int, w: int)
    requires 0 <= s < |sn.svcs| && 0 <= w < |sn.wls|
  {
    exists t, p, v, q ::
      && SvcPod(sn, t, p) && SvcId(sn.svcs[t]) == SvcId(sn.svcs[s])
      && WlPod(sn, v, q) && v <= w && WlId(sn.wls[v]) == WlId(sn.wls[w])
      && sn.pods[p].name == sn.pods[q].name
  }

  ghost predicate SharesName(sn: Snapshot, s: int, w: int) {
    && 0 <= s < |sn.svcs| && 0 <= w < |sn.wls|
    && sn.svcs[s].namespace == sn.wls[w].namespace
    && sn.wls[w].matchLabels.Some?
    && PodsShareName(sn, s, w)
  }

  lemma NamedPodsMeet(sn: Snapshot, s: int, w: int, t: int, p: int, v: int, q: int)
    requires 0 <= s < |sn.svcs| && 0 <= w < |sn.wls|
    requires sn.svcs[s].namespace == sn.wls[w].namespace && sn.wls[w].matchLabels.Some?
    requires SvcPod(sn, t, p) && SvcId(sn.svcs[t]) == SvcId(sn.svcs[s])
    requires WlPod(sn, v, q) && v <= w && WlId(sn.wls[v]) == WlId(sn.wls[w])
    requires sn.pods[p].name == sn.pods[q].name
    ensures MeetAt(sn, s, w)
  {
    ListedPodsOfSvc(sn, SvcId(sn.svcs[s]), |sn.svcs|, 0);
    ListedPodsOfWl(sn, WlId(sn.wls[w]), w + 1, 0);
    var x := sn.pods[p].name;
    assert x in PodsOfSvc(sn, SvcId(sn.svcs[s]), |sn.svcs|, 0);
    assert x in PodsOfWl(sn, WlId(sn.wls[w]), w + 1, 0);
  }

  /** In terms of the snapshot: the loop finds a name in common exactly when such pods share it. */
  lemma MeetsExactly(sn: Snapshot, s: int, w: int)
    ensures MeetAt(sn, s, w) <==> SharesName(sn, s, w)
  {
    if MeetAt(sn, s, w) {
      var svcId, wlId := SvcId(sn.svcs[s]), WlId(sn.wls[w]);
      var x :| x in PodsOfSvc(sn, svcId, |sn.svcs|, 0) && x in PodsOfWl(sn, wlId, w + 1, 0);
      var t, p := SelectedPodNamed(sn, svcId, x);
      var v, q := OwnedPodNamed(sn, wlId, w + 1, x);
      assert PodsShareName(sn, s, w);
    }
    if SharesName(sn, s, w) {
      var t, p, v, q := PodsOfOneName(sn, s, w);
      NamedPodsMeet(sn, s, w, t, p, v, q);
    }
  }

  /** A tied pair always meets, whatever ids collide: no tooltip misses a tie. */
  lemma TiedMeet(sn: Snapshot, s: int, w: int)
    requires TiedAt(sn, s, w)
    ensures MeetAt(sn, s, w)
  {
    var p :| SvcPod(sn, s, p) && WlPod(sn, w, p);
    NamedPodsMeet(sn, s, w, s, p, w, p);
  }

  /** Where pods share a name, across objects of one id, some pod is matched by both selectors. */
  ghost predicate NoChanceMeeting(sn: Snapshot) {
    forall s, w :: SharesName(sn, s, w) ==> Tied(sn, s, w)
  }

  lemma MeetOnlyTied(sn: Snapshot)
    ensures NoChanceMeeting(sn) <==> forall s, w :: MeetAt(sn, s, w) ==> Tied(sn, s, w)
  {
    forall s, w ensures MeetAt(sn, s, w) <==> SharesName(sn, s, w) {
      MeetsExactly(sn, s, w);
    }
  }

  lemma PodsOfOneName(sn: Snapshot, s: int, w: int) returns (t: int, p: int, v: int, q: int)
    requires 0 <= s < |sn.svcs| && 0 <= w < |sn.wls| && PodsShareName(sn, s, w)
    ensures SvcPod(sn, t, p) && SvcId(sn.svcs[t]) == SvcId(sn.svcs[s])
    ensures WlPod(sn, v, q) && v <= w && WlId(sn.wls[v]) == WlId(sn.wls[w])
    ensures sn.pods[p].name == sn.pods[q].name
  {
    t, p, v, q :|
      && SvcPod(sn, t, p) && SvcId(sn.svcs[t]) == SvcId(sn.svcs[s])
      && WlPod(sn, v, q) && v <= w && WlId(sn.wls[v]) == WlId(sn.wls[w])
      && sn.pods[p].name == sn.pods[q].name;
  }

  lemma SameNamedPods(sn: Snapshot, s: int, p: int, w: int, q: int)
    requires UniqueKeys(sn) && SvcPod(sn, s, p) && WlPod(sn, w, q)
    requires sn.svcs[s].namespace == sn.wls[w].namespace && sn.pods[p].name == sn.pods[q].name
    ensures Tied(sn, s, w)
  {
    assert PodKey(sn.pods[p]) == PodKey(sn.pods[q]);
  }

  /** Pods of one namespace are told apart by their names, so only colliding ids can make a chance meeting. */
  lemma DistinctIdsMeetOnlyTied(sn: Snapshot)
    requires UniqueKeys(sn) && InjectiveSvcIds(sn) && InjectiveWlIds(sn)
    ensures NoChanceMeeting(sn)
  {
    forall s, w | SharesName(sn, s, w) ensures Tied(sn, s, w) {
      var t, p, v, q := PodsOfOneName(sn, s, w);
      assert t == s && v == w;
      SameNamedPods(sn, s, p, w, q);
    }
  }

  ghost predicate LabelTied(sn: Snapshot, s: int, x: string) {
    exists w :: TiedAt(sn, s, w) && WlLabel(sn.wls[w]) == x
  }

  ghost predicate NameTied(sn: Snapshot, w: int, x: string) {
    exists s :: TiedAt(sn, s, w) && sn.svcs[s].name == x
  }

  /** Services of one id are tied to workloads of the same labels. */
  ghost predicate LikeSvcs(sn: Snapshot) {
    forall s, t, w :: TiedAt(sn, t, w) && 0 <= s < |sn.svcs| && SvcId(sn.svcs[s]) == SvcId(sn.svcs[t]) ==>
      LabelTied(sn, s, WlLabel(sn.wls[w]))
  }

  /** Workloads of one id are tied to services of the same names. */
  ghost predicate LikeWls(sn: Snapshot) {
    forall s, v, w :: TiedAt(sn, s, v) && 0 <= w < |sn.wls| && WlId(sn.wls[w]) == WlId(sn.wls[v]) ==>
      NameTied(sn, w, sn.svcs[s].name)
  }

  /** A service's tooltip lists exactly the labels of the workloads it is tied to. */
  ghost predicate LabelsRight(sn: Snapshot, svcToWorkloads: Sets) {
    forall s, x :: 0 <= s < |sn.svcs| ==> (x in Get(svcToWorkloads, SvcId(sn.svcs[s])) <==> LabelTied(sn, s, x))
  }

  /** A workload's tooltip lists exactly the names of the services it is tied to. */
  ghost predicate NamesRight(sn: Snapshot, wlToSvcs: Sets) {
    forall w, x :: 0 <= w < |sn.wls| ==> (x in Get(wlToSvcs, WlId(sn.wls[w])) <==> NameTied(sn, w, x))
  }

  ghost predicate LabelMet(sn: Snapshot, svcId: string, x: string) {
    exists t, v :: LabelTurn(sn, t, v, svcId, x)
  }

  ghost predicate NameMet(sn: Snapshot, wlId: string, x: string) {
    exists t, v :: NameTurn(sn, t, v, wlId, x)
  }

  /** What `WorkloadTooltips` promises of its lists, as far as membership goes. */
  ghost predicate Listed(sn: Snapshot, svcToWorkloads: Sets, wlToSvcs: Sets) {
    && (forall id, x :: x in Get(svcToWorkloads, id) <==> LabelMet(sn, id, x))
    && (forall id, x :: x in Get(wlToSvcs, id) <==> NameMet(sn, id, x))
  }

  lemma ListsAreListed(sn: Snapshot, sw: Sets, ws: Sets)
    requires forall id :: Get(sw, id) == LabelsOfSvc(sn, id, |sn.wls|, 0)
    requires forall id :: Get(ws, id) == SvcsOfWl(sn, id, |sn.wls|, 0)
    ensures Listed(sn, sw, ws)
  {
    forall id, x ensures x in Get(sw, id) <==> LabelMet(sn, id, x) {
      ListedLabels(sn, id, |sn.wls|, 0, x);
    }
    forall id, x ensures x in Get(ws, id) <==> NameMet(sn, id, x) {
      ListedSvcs(sn, id, |sn.wls|, 0, x);
    }
  }

  lemma RightLabelsMeetOnlyTied(sn: Snapshot, sw: Sets, ws: Sets, s: int, w: int)
    requires UniqueKeys(sn) && Listed(sn, sw, ws) && LabelsRight(sn, sw) && MeetAt(sn, s, w)
    ensures Tied(sn, s, w)
  {
    assert LabelTurn(sn, s, w, SvcId(sn.svcs[s]), WlLabel(sn.wls[w]));
    assert LabelMet(sn, SvcId(sn.svcs[s]), WlLabel(sn.wls[w]));
    var u :| TiedAt(sn, s, u) && WlLabel(sn.wls[u]) == WlLabel(sn.wls[w]);
    LabelInjective(sn.wls[u], sn.wls[w]);
    TiedShareNamespace(sn, s, u);
    assert WlKey(sn.wls[u]) == WlKey(sn.wls[w]);
  }

  lemma RightLabelsAreAlike(sn: Snapshot, sw: Sets, ws: Sets, s: int, t: int, w: int)
    requires Listed(sn, sw, ws) && LabelsRight(sn, sw)
    requires TiedAt(sn, t, w) && 0 <= s < |sn.svcs| && SvcId(sn.svcs[s]) == SvcId(sn.svcs[t])
    ensures LabelTied(sn, s, WlLabel(sn.wls[w]))
  {
    TiedMeet(sn, t, w);
    assert LabelTurn(sn, t, w, SvcId(sn.svcs[s]), WlLabel(sn.wls[w]));
    assert LabelMet(sn, SvcId(sn.svcs[s]), WlLabel(sn.wls[w]));
  }

  lemma AlikeGiveRightLabels(sn: Snapshot, s: int, x: string)
    requires NoChanceMeeting(sn) && LikeSvcs(sn) && 0 <= s < |sn.svcs|
    ensures LabelMet(sn, SvcId(sn.svcs[s]), x) <==> LabelTied(sn, s, x)
  {
    if LabelTied(sn, s, x) {
      var w :| TiedAt(sn, s, w) && WlLabel(sn.wls[w]) == x;
      TiedMeet(sn, s, w);
      assert LabelTurn(sn, s, w, SvcId(sn.svcs[s]), x);
    }
    if LabelMet(sn, SvcId(sn.svcs[s]), x) {
      var t, v :| LabelTurn(sn, t, v, SvcId(sn.svcs[s]), x);
      MeetsExactly(sn, t, v);
      assert TiedAt(sn, t, v);
    }
  }

  /** The services' tooltips are right if and only if nothing meets by chance and services of one id are alike. */
  lemma LabelsRightExactly(sn: Snapshot, sw: Sets, ws: Sets)
    requires UniqueKeys(sn) && Listed(sn, sw, ws)
    ensures LabelsRight(sn, sw) <==> NoChanceMeeting(sn) && LikeSvcs(sn)
  {
    MeetOnlyTied(sn);
    if LabelsRight(sn, sw) {
      forall s, w | MeetAt(sn, s, w) ensures Tied(sn, s, w) {
        RightLabelsMeetOnlyTied(sn, sw, ws, s, w);
      }
      forall s, t, w | TiedAt(sn, t, w) && 0 <= s < |sn.svcs| && SvcId(sn.svcs[s]) == SvcId(sn.svcs[t])
        ensures LabelTied(sn, s, WlLabel(sn.wls[w]))
      {
        RightLabelsAreAlike(sn, sw, ws, s, t, w);
      }
    } else if NoChanceMeeting(sn) && LikeSvcs(sn) {
      forall s, x | 0 <= s < |sn.svcs| ensures x in Get(sw, SvcId(sn.svcs[s])) <==> LabelTied(sn, s, x) {
        AlikeGiveRightLabels(sn, s, x);
      }
    }
  }

  lemma RightNamesMeetOnlyTied(sn: Snapshot, sw: Sets, ws: Sets, s: int, w: int)
    requires UniqueKeys(sn) && Listed(sn, sw, ws) && NamesRight(sn, ws) && MeetAt(sn, s, w)
    ensures Tied(sn, s, w)
  {
    assert NameTurn(sn, s, w, WlId(sn.wls[w]), sn.svcs[s].name);
    assert NameMet(sn, WlId(sn.wls[w]), sn.svcs[s].name);
    var t :| TiedAt(sn, t, w) && sn.svcs[t].name == sn.svcs[s].name;
    TiedShareNamespace(sn, t, w);
    assert SvcKey(sn.svcs[t]) == SvcKey(sn.svcs[s]);
  }

  lemma RightNamesAreAlike(sn: Snapshot, sw: Sets, ws: Sets, s: int, v: int, w: int)
    requires Listed(sn, sw, ws) && NamesRight(sn, ws)
    requires TiedAt(sn, s, v) && 0 <= w < |sn.wls| && WlId(sn.wls[w]) == WlId(sn.wls[v])
    ensures NameTied(sn, w, sn.svcs[s].name)
  {
    TiedMeet(sn, s, v);
    assert NameTurn(sn, s, v, WlId(sn.wls[w]), sn.svcs[s].name);
    assert NameMet(sn, WlId(sn.wls[w]), sn.svcs[s].name);
  }

  lemma AlikeGiveRightNames(sn: Snapshot, w: int, x: string)
    requires NoChanceMeeting(sn) && LikeWls(sn) && 0 <= w < |sn.wls|
    ensures NameMet(sn, WlId(sn.wls[w]), x) <==> NameTied(sn, w, x)
  {
    if NameTied(sn, w, x) {
      var s :| TiedAt(sn, s, w) && sn.svcs[s].name == x;
      TiedMeet(sn, s, w);
      assert NameTurn(sn, s, w, WlId(sn.wls[w]), x);
    }
    if NameMet(sn, WlId(sn.wls[w]), x) {
      var t, v :| NameTurn(sn, t, v, WlId(sn.wls[w]), x);
      MeetsExactly(sn, t, v);
      assert TiedAt(sn, t, v);
    }
  }

  /** And the workloads' tooltips if and only if nothing meets by chance and workloads of one id are alike. */
  lemma NamesRightExactly(sn: Snapshot, sw: Sets, ws: Sets)
    requires UniqueKeys(sn) && Listed(sn, sw, ws)
    ensures NamesRight(sn, ws) <==> NoChanceMeeting(sn) && LikeWls(sn)
  {
    MeetOnlyTied(sn);
    if NamesRight(sn, ws) {
      forall s, w | MeetAt(sn, s, w) ensures Tied(sn, s, w) {
        RightNamesMeetOnlyTied(sn, sw, ws, s, w);
      }
      forall s, v, w | TiedAt(sn, s, v) && 0 <= w < |sn.wls| && WlId(sn.wls[w]) == WlId(sn.wls[v])
        ensures NameTied(sn, w, sn.svcs[s].name)
      {
        RightNamesAreAlike(sn, sw, ws, s, v, w);
      }
    } else if NoChanceMeeting(sn) && LikeWls(sn) {
      forall w, x | 0 <= w < |sn.wls| ensures x in Get(ws, WlId(sn.wls[w])) <==> NameTied(sn, w, x) {
        AlikeGiveRightNames(sn, w, x);
      }
    }
  }

  /** Where nothing tied collides, objects of one id are trivially alike. */
  lemma ApartIsAlike(sn: Snapshot)
    ensures TiedSvcsApart(sn) ==> LikeSvcs(sn)
    ensures TiedWlsApart(sn) ==> LikeWls(sn)
  {
  }

  lemma DistinctIdsAreApart(sn: Snapshot)
    requires InjectiveSvcIds(sn) && InjectiveWlIds(sn)
    ensures TiedSvcsApart(sn) && TiedWlsApart(sn)
  {
  }

  /** With distinct service and workload ids both kinds of tooltips are right, even where pod ids collide. */
  lemma DistinctIdsGiveRightTooltips(sn: Snapshot, sw: Sets, ws: Sets)
    requires UniqueKeys(sn) && InjectiveSvcIds(sn) && InjectiveWlIds(sn) && Listed(sn, sw, ws)
    ensures LabelsRight(sn, sw) && NamesRight(sn, ws)
  {
    DistinctIdsMeetOnlyTied(sn);
    DistinctIdsAreApart(sn);
    ApartIsAlike(sn);
    LabelsRightExactly(sn, sw, ws);
    NamesRightExactly(sn, sw, ws);
  }

  // ---------------------------------------------------------------- the two routes

  ghost predicate Joined(sn: Snapshot, edges: seq<Edge>, s: int, w: int)
    requires 0 <= s < |sn.svcs| && 0 <= w < |sn.wls|
  {
    Edge(SvcId(sn.svcs[s]), WlId(sn.wls[w])) in edges
  }

  /**
   For one service and one workload the drawing, the service's tooltip and the workload's
   tooltip say the same; across namespaces the drawing joins nothing.
   */
  ghost predicate Agree(sn: Snapshot, edges: seq<Edge>, svcToWorkloads: Sets, wlToSvcs: Sets, s: int, w: int)
    requires 0 <= s < |sn.svcs| && 0 <= w < |sn.wls|
  {
    if sn.svcs[s].namespace != sn.wls[w].namespace then !Joined(sn, edges, s, w)
    else
      && (Joined(sn, edges, s, w) <==> WlLabel(sn.wls[w]) in Get(svcToWorkloads, SvcId(sn.svcs[s])))
      && (Joined(sn, edges, s, w) <==> sn.svcs[s].name in Get(wlToSvcs, WlId(sn.wls[w])))
  }

  /** Right tooltips mention a workload or service of one's own namespace exactly when it is tied. */
  lemma RightTooltipsSayTied(sn: Snapshot, sw: Sets, ws: Sets, s: int, w: int)
    requires UniqueKeys(sn) && LabelsRight(sn, sw) && NamesRight(sn, ws)
    requires 0 <= s < |sn.svcs| && 0 <= w < |sn.wls| && sn.svcs[s].namespace == sn.wls[w].namespace
    ensures WlLabel(sn.wls[w]) in Get(sw, SvcId(sn.svcs[s])) <==> Tied(sn, s, w)
    ensures sn.svcs[s].name in Get(ws, WlId(sn.wls[w])) <==> Tied(sn, s, w)
  {
    assert Tied(sn, s, w) ==> TiedAt(sn, s, w);
    if u :| TiedAt(sn, s, u) && WlLabel(sn.wls[u]) == WlLabel(sn.wls[w]) {
      LabelInjective(sn.wls[u], sn.wls[w]);
      TiedShareNamespace(sn, s, u);
      assert WlKey(sn.wls[u]) == WlKey(sn.wls[w]);
    }
    if t :| TiedAt(sn, t, w) && sn.svcs[t].name == sn.svcs[s].name {
      TiedShareNamespace(sn, t, w);
      assert SvcKey(sn.svcs[t]) == SvcKey(sn.svcs[s]);
    }
  }

  lemma AgreeExactlyAt(sn: Snapshot, edges: seq<Edge>, sw: Sets, ws: Sets, s: int, w: int)
    requires UniqueKeys(sn) && LabelsRight(sn, sw) && NamesRight(sn, ws)
    requires 0 <= s < |sn.svcs| && 0 <= w < |sn.wls|
    ensures Agree(sn, edges, sw, ws, s, w) <==> (Joined(sn, edges, s, w) <==> Tied(sn, s, w))
  {
    if sn.svcs[s].namespace == sn.wls[w].namespace {
      RightTooltipsSayTied(sn, sw, ws, s, w);
    } else if Tied(sn, s, w) {
      TiedShareNamespace(sn, s, w);
      assert false;
    }
  }

  ghost predicate RoutesAgree(sn: Snapshot, edges: seq<Edge>, svcToWorkloads: Sets, wlToSvcs: Sets) {
    forall s, w :: 0 <= s < |sn.svcs| && 0 <= w < |sn.wls| ==> Agree(sn, edges, svcToWorkloads, wlToSvcs, s, w)
  }

  /** Edges, services' tooltips and workloads' tooltips all mean that both selectors match some pod. */
  ghost predicate RoutesRight(sn: Snapshot, edges: seq<Edge>, svcToWorkloads: Sets, wlToSvcs: Sets) {
    && (forall s, w :: 0 <= s < |sn.svcs| && 0 <= w < |sn.wls| ==> (Joined(sn, edges, s, w) <==> Tied(sn, s, w)))
    && LabelsRight(sn, svcToWorkloads) && NamesRight(sn, wlToSvcs)
  }

  lemma JoinedAreDrawn(sn: Snapshot, m: Sets, placed: set<string>, edges: seq<Edge>)
    requires forall e :: e in edges <==> IsEdge(sn, m, placed, e)
    ensures forall s, w :: 0 <= s < |sn.svcs| && 0 <= w < |sn.wls| ==> (Joined(sn, edges, s, w) <==> TieDrawn(sn, m, s, w))
  {
    forall s, w | 0 <= s < |sn.svcs| && 0 <= w < |sn.wls| ensures Joined(sn, edges, s, w) <==> TieDrawn(sn, m, s, w) {
      ListedIsDrawn(sn, m, placed, edges, Node(""), sn.svcs[s], sn.wls[w], Pod("", None, None, None, []), WlId(sn.wls[w]));
    }
  }

  /** Both routes are right if and only if no pods, tied services or tied workloads collide and nothing meets by chance. */
  lemma RoutesRightExactly(sn: Snapshot, m: Sets, placed: set<string>, edges: seq<Edge>, sw: Sets, ws: Sets)
    requires UniqueKeys(sn) && Filed(sn, m) && Listed(sn, sw, ws)
    requires forall e :: e in edges <==> IsEdge(sn, m, placed, e)
    ensures RoutesRight(sn, edges, sw, ws)
       <==> PodsApart(sn) && TiedSvcsApart(sn) && TiedWlsApart(sn) && NoChanceMeeting(sn)
  {
    JoinedAreDrawn(sn, m, placed, edges);
    TiesDrawnExactly(sn, m);
    LabelsRightExactly(sn, sw, ws);
    NamesRightExactly(sn, sw, ws);
    ApartIsAlike(sn);
  }

  /** Agreeing routes draw rightly: what the tooltips cannot say, across namespaces, must not be drawn either. */
  lemma AgreeingDrawRightly(sn: Snapshot, m: Sets, edges: seq<Edge>, sw: Sets, ws: Sets)
    requires UniqueKeys(sn) && Filed(sn, m) && RoutesAgree(sn, edges, sw, ws)
    requires forall s, w :: 0 <= s < |sn.svcs| && 0 <= w < |sn.wls| ==> (Joined(sn, edges, s, w) <==> TieDrawn(sn, m, s, w))
    ensures PodsApart(sn) && TiedSvcsApart(sn) && TiedWlsApart(sn)
  {
    forall s, w | 0 <= s < |sn.svcs| && 0 <= w < |sn.wls| && TieDrawn(sn, m, s, w)
      ensures sn.svcs[s].namespace == sn.wls[w].namespace
    {
      assert Agree(sn, edges, sw, ws, s, w) && Joined(sn, edges, s, w);
    }
    DrawnWithinNamespacesIsApart(sn, m);
  }

  lemma AgreeingMeetOnlyTied(sn: Snapshot, edges: seq<Edge>, sw: Sets, ws: Sets, s: int, w: int)
    requires Listed(sn, sw, ws) && RoutesAgree(sn, edges, sw, ws) && MeetAt(sn, s, w)
    ensures Joined(sn, edges, s, w)
  {
    assert LabelTurn(sn, s, w, SvcId(sn.svcs[s]), WlLabel(sn.wls[w]));
    assert LabelMet(sn, SvcId(sn.svcs[s]), WlLabel(sn.wls[w]));
    assert Agree(sn, edges, sw, ws, s, w);
  }

  lemma RightRoutesAgree(sn: Snapshot, edges: seq<Edge>, sw: Sets, ws: Sets)
    requires UniqueKeys(sn) && RoutesRight(sn, edges, sw, ws)
    ensures RoutesAgree(sn, edges, sw, ws)
  {
    forall s, w | 0 <= s < |sn.svcs| && 0 <= w < |sn.wls| ensures Agree(sn, edges, sw, ws, s, w) {
      AgreeExactlyAt(sn, edges, sw, ws, s, w);
    }
  }

  /** The two routes agree if and only if both are right: they are never wrong alike. */
  lemma RoutesAgreeExactly(sn: Snapshot, m: Sets, placed: set<string>, edges: seq<Edge>, sw: Sets, ws: Sets)
    requires UniqueKeys(sn) && Filed(sn, m) && Listed(sn, sw, ws)
    requires forall e :: e in edges <==> IsEdge(sn, m, placed, e)
    ensures RoutesAgree(sn, edges, sw, ws) <==> RoutesRight(sn, edges, sw, ws)
  {
    RoutesRightExactly(sn, m, placed, edges, sw, ws);
    if RoutesRight(sn, edges, sw, ws) {
      RightRoutesAgree(sn, edges, sw, ws);
    } else if RoutesAgree(sn, edges, sw, ws) {
      JoinedAreDrawn(sn, m, placed, edges);
      AgreeingDrawRightly(sn, m, edges, sw, ws);
      TiesDrawnExactly(sn, m);
      forall s, w | MeetAt(sn, s, w) ensures Tied(sn, s, w) {
        AgreeingMeetOnlyTied(sn, edges, sw, ws, s, w);
      }
      MeetOnlyTied(sn);
      assert false;
    }
  }

  function AppLabel(value: string): Option<Labels> {
    Some(map["app" := value])
  }

  /** Two services of one id, and a pod and a stranger of one name. */
  function ChanceSnapshot(): Snapshot {
    var a, ab := Some("a"), Some("a-b");
    Snapshot([],
             [Service("b-c", a, None), Service("c", ab, AppLabel("x"))],
             [Workload(Deployment, "w", a, AppLabel("y"))],
             [Pod("n", ab, None, AppLabel("x"), []), Pod("n", a, None, AppLabel("y"), [])],
             [])
  }

  /** Where a chance meeting makes a tie that is none, both kinds of tooltips lie. */
  lemma ChanceMeetingLies(sn: Snapshot, sw: Sets, ws: Sets)
    requires UniqueKeys(sn) && !NoChanceMeeting(sn) && Listed(sn, sw, ws)
    ensures !LabelsRight(sn, sw) && !NamesRight(sn, ws)
  {
    LabelsRightExactly(sn, sw, ws);
    NamesRightExactly(sn, sw, ws);
  }

  lemma ChanceSnapshotIds()
    ensures var sn := ChanceSnapshot(); UniqueKeys(sn) && InjectiveWlIds(sn) && InjectivePodIds(sn)
    ensures var sn := ChanceSnapshot(); SvcId(sn.svcs[0]) == SvcId(sn.svcs[1])
  {
    var sn := ChanceSnapshot();
    assert SvcId(sn.svcs[0]) == "svc-a-b-c" == SvcId(sn.svcs[1]);
    assert |PodId(sn.pods[0])| != |PodId(sn.pods[1])|;
  }

  lemma ChanceSnapshotPods()
    ensures var sn := ChanceSnapshot(); SvcPod(sn, 1, 0) && WlPod(sn, 0, 1) && forall p :: !SvcPod(sn, 0, p)
  {
    assert AppLabel("x").value["app"] == "x" && AppLabel("y").value["app"] == "y";
  }

  lemma ChanceSnapshotMeets()
    ensures !NoChanceMeeting(ChanceSnapshot())
  {
    var sn := ChanceSnapshot();
    ChanceSnapshotIds();
    ChanceSnapshotPods();
    assert sn.pods[0].name == sn.pods[1].name;
    assert PodsShareName(sn, 0, 0);
    assert SharesName(sn, 0, 0) && !Tied(sn, 0, 0);
  }

  /** A snapshot a cluster can hold whose tooltips tie a service that selects no pod at all. */
  lemma ChanceMeeting() returns (sn: Snapshot)
    ensures UniqueKeys(sn) && InjectiveWlIds(sn) && InjectivePodIds(sn) && !NoChanceMeeting(sn)
    ensures |sn.svcs| == 2 && forall p :: !SvcPod(sn, 0, p)
    ensures forall sw, ws :: Listed(sn, sw, ws) ==> !LabelsRight(sn, sw) && !NamesRight(sn, ws)
  {
    sn := ChanceSnapshot();
    ChanceSnapshotIds();
    ChanceSnapshotPods();
    ChanceSnapshotMeets();
    forall sw, ws | Listed(sn, sw, ws) ensures !LabelsRight(sn, sw) && !NamesRight(sn, ws) {
      ChanceMeetingLies(sn, sw, ws);
    }
  }

  /** The two computations one after the other, as the effect runs them, and exactly when they are right or agree. */
  method BothRoutes(sn: Snapshot, placed: set<string>)
    returns (edges: seq<Edge>, svcToWorkloads: Sets, wlToSvcs: Sets)
    ensures UniqueKeys(sn) ==>
              (RoutesRight(sn, edges, svcToWorkloads, wlToSvcs)
               <==> PodsApart(sn) && TiedSvcsApart(sn) && TiedWlsApart(sn) && NoChanceMeeting(sn))
    ensures UniqueKeys(sn) ==>
              (RoutesAgree(sn, edges, svcToWorkloads, wlToSvcs) <==> RoutesRight(sn, edges, svcToWorkloads, wlToSvcs))
    ensures LabelsDecide(sn)
    ensures InjectiveIds(sn) ==>
              RoutesRight(sn, edges, svcToWorkloads, wlToSvcs) && RoutesAgree(sn, edges, svcToWorkloads, wlToSvcs)
  {
    ghost var m;
    edges, m := BuildEdges(sn, placed);
    var svcToPods, _ := ServicePods(sn);
    var _, sw, ws := WorkloadTooltips(sn, svcToPods);
    svcToWorkloads, wlToSvcs := sw, ws;
    ListsAreListed(sn, sw, ws);
    if UniqueKeys(sn) {
      RoutesRightExactly(sn, m, placed, edges, sw, ws);
      RoutesAgreeExactly(sn, m, placed, edges, sw, ws);
    }
    if InjectiveIds(sn) {
      InjectiveIdsHaveKeys(sn);
      InjectiveIdsAreApart(sn);
      DistinctIdsMeetOnlyTied(sn);
    }
  }
}
