/**
 The second computation of the same relations, for the tooltips: pod names are listed by
 service and by workload, and a service is tied to a workload when the two lists meet.
 The lists are given exactly, with order and repetitions, for every snapshot.
 */
module TopologyTooltips {
  import opened Options
  import opened Topology
  import opened TopologyEdges
  import opened TopologyMeaning

  /** The name a service's tooltip gives a workload. */
  function WlLabel(w: Workload): string {
    KindText(w.kind) + "/" + w.name
  }

  /** `map.get(key) ?? []`. */
  function Get(m: Sets, key: string): seq<string> {
    if key in m then m[key] else []
  }

  /** Appends to the key's list, creating it if it is missing. */
  function Push(m: Sets, key: string, x: string): (r: Sets)
    ensures forall k :: Get(r, k) == if k == key then Get(m, k) + [x] else Get(m, k)
  {
    m[key := Get(m, key) + [x]]
  }

  // ---------------------------------------------------------------- pods by service, services by pod

  /** Under a service id: the names of the pods selected by services before `s`, and by `s` among the first `n` pods. */
  function PodsOfSvc(sn: Snapshot, svcId: string, s: nat, n: nat): seq<string>
    requires s <= |sn.svcs| && n <= |sn.pods| && (n > 0 ==> s < |sn.svcs|)
    decreases s, n
  {
    if n > 0 then
      var r := PodsOfSvc(sn, svcId, s, n - 1);
      if Selects(sn.svcs[s], sn.pods[n - 1]) && SvcId(sn.svcs[s]) == svcId then r + [sn.pods[n - 1].name] else r
    else if s > 0 then PodsOfSvc(sn, svcId, s - 1, |sn.pods|)
    else []
  }

  /** Under a pod id, likewise: the names of the services, once for each pod of that id they select. */
  function SvcsOfPod(sn: Snapshot, podId: string, s: nat, n: nat): seq<string>
    requires s <= |sn.svcs| && n <= |sn.pods| && (n > 0 ==> s < |sn.svcs|)
    decreases s, n
  {
    if n > 0 then
      var r := SvcsOfPod(sn, podId, s, n - 1);
      if Selects(sn.svcs[s], sn.pods[n - 1]) && PodId(sn.pods[n - 1]) == podId then r + [sn.svcs[s].name] else r
    else if s > 0 then SvcsOfPod(sn, podId, s - 1, |sn.pods|)
    else []
  }

  method ServicePods(sn: Snapshot) returns (svcToPods: Sets, podToSvcs: Sets)
    ensures forall id :: Get(svcToPods, id) == PodsOfSvc(sn, id, |sn.svcs|, 0)
    ensures forall id :: Get(podToSvcs, id) == SvcsOfPod(sn, id, |sn.svcs|, 0)
  {
    svcToPods, podToSvcs := map[], map[];
    for s := 0 to |sn.svcs|
      invariant forall id :: Get(svcToPods, id) == PodsOfSvc(sn, id, s, 0)
      invariant forall id :: Get(podToSvcs, id) == SvcsOfPod(sn, id, s, 0)
    {
      svcToPods, podToSvcs := OneService(sn, s, svcToPods, podToSvcs);
    }
  }

  method OneService(sn: Snapshot, s: nat, sp: Sets, ps: Sets) returns (sp': Sets, ps': Sets)
    requires s < |sn.svcs|
    requires forall id :: Get(sp, id) == PodsOfSvc(sn, id, s, 0)
    requires forall id :: Get(ps, id) == SvcsOfPod(sn, id, s, 0)
    ensures forall id :: Get(sp', id) == PodsOfSvc(sn, id, s + 1, 0)
    ensures forall id :: Get(ps', id) == SvcsOfPod(sn, id, s + 1, 0)
  {
    sp', ps' := sp, ps;
    for p := 0 to |sn.pods|
      invariant forall id :: Get(sp', id) == PodsOfSvc(sn, id, s, p)
      invariant forall id :: Get(ps', id) == SvcsOfPod(sn, id, s, p)
    {
      if Selects(sn.svcs[s], sn.pods[p]) {
        FileTurn(sn, s, p, sp', ps');
        sp' := Push(sp', SvcId(sn.svcs[s]), sn.pods[p].name);
        ps' := Push(ps', PodId(sn.pods[p]), sn.svcs[s].name);
      } else {
        SkipTurn(sn, s, p);
      }
    }
  }

  lemma FileTurn(sn: Snapshot, s: nat, p: nat, sp: Sets, ps: Sets)
    requires s < |sn.svcs| && p < |sn.pods| && Selects(sn.svcs[s], sn.pods[p])
    requires forall id :: Get(sp, id) == PodsOfSvc(sn, id, s, p)
    requires forall id :: Get(ps, id) == SvcsOfPod(sn, id, s, p)
    ensures forall id :: Get(Push(sp, SvcId(sn.svcs[s]), sn.pods[p].name), id) == PodsOfSvc(sn, id, s, p + 1)
    ensures forall id :: Get(Push(ps, PodId(sn.pods[p]), sn.svcs[s].name), id) == SvcsOfPod(sn, id, s, p + 1)
  {
  }

  lemma SkipTurn(sn: Snapshot, s: nat, p: nat)
    requires s < |sn.svcs| && p < |sn.pods| && !Selects(sn.svcs[s], sn.pods[p])
    ensures forall id :: PodsOfSvc(sn, id, s, p + 1) == PodsOfSvc(sn, id, s, p)
    ensures forall id :: SvcsOfPod(sn, id, s, p + 1) == SvcsOfPod(sn, id, s, p)
  {
  }

  // ---------------------------------------------------------------- pods by workload

  /** Under a workload id: the names of the pods owned by workloads before `w`, and by `w` among the first `n` pods. */
  function PodsOfWl(sn: Snapshot, wlId: string, w: nat, n: nat): seq<string>
    requires w <= |sn.wls| && n <= |sn.pods| && (n > 0 ==> w < |sn.wls|)
    decreases w, n
  {
    if n > 0 then
      var r := PodsOfWl(sn, wlId, w, n - 1);
      if Owns(sn.wls[w], sn.pods[n - 1]) && WlId(sn.wls[w]) == wlId then r + [sn.pods[n - 1].name] else r
    else if w > 0 then PodsOfWl(sn, wlId, w - 1, |sn.pods|)
    else []
  }

  method OneWorkload(sn: Snapshot, w: nat, m: Sets) returns (m': Sets)
    requires w < |sn.wls|
    requires forall id :: Get(m, id) == PodsOfWl(sn, id, w, 0)
    ensures forall id :: Get(m', id) == PodsOfWl(sn, id, w + 1, 0)
  {
    m' := m;
    for p := 0 to |sn.pods|
      invariant forall id :: Get(m', id) == PodsOfWl(sn, id, w, p)
    {
      if Owns(sn.wls[w], sn.pods[p]) {
        m' := Push(m', WlId(sn.wls[w]), sn.pods[p].name);
      }
    }
  }

  // ---------------------------------------------------------------- services and workloads

  /** `svcPods.some((p) => wlPodSet.has(p))`. */
  method Meet(a: seq<string>, b: seq<string>) returns (r: bool)
    ensures r <==> exists x :: x in a && x in b
  {
    for k := 0 to |a|
      invariant forall j :: 0 <= j < k ==> a[j] !in b
    {
      if a[k] in b {
        return true;
      }
    }
    r := false;
  }

  /** The lists of service `s` and workload `w` have a name in common when the loop comes to the pair. */
  ghost predicate MeetAt(sn: Snapshot, s: int, w: int) {
    && 0 <= s < |sn.svcs| && 0 <= w < |sn.wls|
    && sn.svcs[s].namespace == sn.wls[w].namespace
    && sn.wls[w].matchLabels.Some?
    && exists x :: x in PodsOfSvc(sn, SvcId(sn.svcs[s]), |sn.svcs|, 0) && x in PodsOfWl(sn, WlId(sn.wls[w]), w + 1, 0)
  }

  /** Under a service id: the labels of the workloads before `w`, and of `w` among the first `n` services, that meet. */
  ghost function LabelsOfSvc(sn: Snapshot, svcId: string, w: nat, n: nat): seq<string>
    requires w <= |sn.wls| && n <= |sn.svcs| && (n > 0 ==> w < |sn.wls|)
    decreases w, n
  {
    if n > 0 then
      var r := LabelsOfSvc(sn, svcId, w, n - 1);
      if MeetAt(sn, n - 1, w) && SvcId(sn.svcs[n - 1]) == svcId then r + [WlLabel(sn.wls[w])] else r
    else if w > 0 then LabelsOfSvc(sn, svcId, w - 1, |sn.svcs|)
    else []
  }

  /** Under a workload id, likewise: the names of the services. */
  ghost function SvcsOfWl(sn: Snapshot, wlId: string, w: nat, n: nat): seq<string>
    requires w <= |sn.wls| && n <= |sn.svcs| && (n > 0 ==> w < |sn.wls|)
    decreases w, n
  {
    if n > 0 then
      var r := SvcsOfWl(sn, wlId, w, n - 1);
      if MeetAt(sn, n - 1, w) && WlId(sn.wls[w]) == wlId then r + [sn.svcs[n - 1].name] else r
    else if w > 0 then SvcsOfWl(sn, wlId, w - 1, |sn.svcs|)
    else []
  }

  method WorkloadTooltips(sn: Snapshot, svcToPods: Sets)
    returns (wlToPods: Sets, svcToWorkloads: Sets, wlToSvcs: Sets)
    requires forall id :: Get(svcToPods, id) == PodsOfSvc(sn, id, |sn.svcs|, 0)
    ensures forall id :: Get(wlToPods, id) == PodsOfWl(sn, id, |sn.wls|, 0)
    ensures forall id :: Get(svcToWorkloads, id) == LabelsOfSvc(sn, id, |sn.wls|, 0)
    ensures forall id :: Get(wlToSvcs, id) == SvcsOfWl(sn, id, |sn.wls|, 0)
  {
    wlToPods, svcToWorkloads, wlToSvcs := map[], map[], map[];
    for w := 0 to |sn.wls|
      invariant forall id :: Get(wlToPods, id) == PodsOfWl(sn, id, w, 0)
      invariant forall id :: Get(svcToWorkloads, id) == LabelsOfSvc(sn, id, w, 0)
      invariant forall id :: Get(wlToSvcs, id) == SvcsOfWl(sn, id, w, 0)
    {
      if sn.wls[w].matchLabels.None? {
        NoSelectorNoTurn(sn, w);
        continue;
      }
      wlToPods := OneWorkload(sn, w, wlToPods);
      svcToWorkloads, wlToSvcs := TieServices(sn, w, svcToPods, wlToPods, svcToWorkloads, wlToSvcs);
    }
  }

  /** Skipping a workload without a selector leaves the lists as its turn would. */
  lemma {:induction false} NoSelectorNoPods(sn: Snapshot, wlId: string, w: nat, n: nat)
    requires w < |sn.wls| && n <= |sn.pods| && sn.wls[w].matchLabels.None?
    ensures PodsOfWl(sn, wlId, w, n) == PodsOfWl(sn, wlId, w, 0)
  {
    if n > 0 {
      NoSelectorNoPods(sn, wlId, w, n - 1);
    }
  }

  lemma {:induction false} NoSelectorNoTies(sn: Snapshot, id: string, w: nat, n: nat)
    requires w < |sn.wls| && n <= |sn.svcs| && sn.wls[w].matchLabels.None?
    ensures LabelsOfSvc(sn, id, w, n) == LabelsOfSvc(sn, id, w, 0)
    ensures SvcsOfWl(sn, id, w, n) == SvcsOfWl(sn, id, w, 0)
  {
    if n > 0 {
      NoSelectorNoTies(sn, id, w, n - 1);
    }
  }

  lemma NoSelectorNoTurn(sn: Snapshot, w: nat)
    requires w < |sn.wls| && sn.wls[w].matchLabels.None?
    ensures forall id :: PodsOfWl(sn, id, w + 1, 0) == PodsOfWl(sn, id, w, 0)
    ensures forall id :: LabelsOfSvc(sn, id, w + 1, 0) == LabelsOfSvc(sn, id, w, 0)
    ensures forall id :: SvcsOfWl(sn, id, w + 1, 0) == SvcsOfWl(sn, id, w, 0)
  {
    forall id
      ensures PodsOfWl(sn, id, w + 1, 0) == PodsOfWl(sn, id, w, 0)
      ensures LabelsOfSvc(sn, id, w + 1, 0) == LabelsOfSvc(sn, id, w, 0)
      ensures SvcsOfWl(sn, id, w + 1, 0) == SvcsOfWl(sn, id, w, 0)
    {
      NoSelectorNoPods(sn, id, w, |sn.pods|);
      NoSelectorNoTies(sn, id, w, |sn.svcs|);
    }
  }

  method TieServices(sn: Snapshot, w: nat, svcToPods: Sets, wlToPods: Sets, sw: Sets, ws: Sets)
    returns (sw': Sets, ws': Sets)
    requires w < |sn.wls| && sn.wls[w].matchLabels.Some?
    requires forall id :: Get(svcToPods, id) == PodsOfSvc(sn, id, |sn.svcs|, 0)
    requires forall id :: Get(wlToPods, id) == PodsOfWl(sn, id, w + 1, 0)
    requires forall id :: Get(sw, id) == LabelsOfSvc(sn, id, w, 0)
    requires forall id :: Get(ws, id) == SvcsOfWl(sn, id, w, 0)
    ensures forall id :: Get(sw', id) == LabelsOfSvc(sn, id, w + 1, 0)
    ensures forall id :: Get(ws', id) == SvcsOfWl(sn, id, w + 1, 0)
  {
    sw', ws' := sw, ws;
    var wl := sn.wls[w];
    for s := 0 to |sn.svcs|
      invariant forall id :: Get(sw', id) == LabelsOfSvc(sn, id, w, s)
      invariant forall id :: Get(ws', id) == SvcsOfWl(sn, id, w, s)
    {
      var svc := sn.svcs[s];
      if svc.namespace != wl.namespace {
        continue;
      }
      var meet := Meet(Get(svcToPods, SvcId(svc)), Get(wlToPods, WlId(wl)));
      assert meet <==> MeetAt(sn, s, w);
      if meet {
        sw' := Push(sw', SvcId(svc), WlLabel(wl));
        ws' := Push(ws', WlId(wl), svc.name);
      }
    }
  }

  // ---------------------------------------------------------------- which names are listed

  lemma {:induction false} ListedPodsOfSvc(sn: Snapshot, svcId: string, s: nat, n: nat)
    requires s <= |sn.svcs| && n <= |sn.pods| && (n > 0 ==> s < |sn.svcs|)
    ensures forall x :: x in PodsOfSvc(sn, svcId, s, n) <==>
              exists t, p :: (t < s || (t == s && p < n)) && SvcPod(sn, t, p) && SvcId(sn.svcs[t]) == svcId && sn.pods[p].name == x
    decreases s, n
  {
    if n > 0 {
      ListedPodsOfSvc(sn, svcId, s, n - 1);
      assert Selects(sn.svcs[s], sn.pods[n - 1]) <==> SvcPod(sn, s, n - 1);
    } else if s > 0 {
      ListedPodsOfSvc(sn, svcId, s - 1, |sn.pods|);
    }
  }

  lemma {:induction false} ListedPodsOfWl(sn: Snapshot, wlId: string, w: nat, n: nat)
    requires w <= |sn.wls| && n <= |sn.pods| && (n > 0 ==> w < |sn.wls|)
    ensures forall x :: x in PodsOfWl(sn, wlId, w, n) <==>
              exists v, p :: (v < w || (v == w && p < n)) && WlPod(sn, v, p) && WlId(sn.wls[v]) == wlId && sn.pods[p].name == x
    decreases w, n
  {
    if n > 0 {
      ListedPodsOfWl(sn, wlId, w, n - 1);
      assert Owns(sn.wls[w], sn.pods[n - 1]) <==> WlPod(sn, w, n - 1);
    } else if w > 0 {
      ListedPodsOfWl(sn, wlId, w - 1, |sn.pods|);
    }
  }

  /** When the loop comes to the pair it lists `x` under the service id. */
  ghost predicate LabelTurn(sn: Snapshot, s: int, w: int, svcId: string, x: string) {
    MeetAt(sn, s, w) && SvcId(sn.svcs[s]) == svcId && WlLabel(sn.wls[w]) == x
  }

  /** And under the workload id. */
  ghost predicate NameTurn(sn: Snapshot, s: int, w: int, wlId: string, x: string) {
    MeetAt(sn, s, w) && WlId(sn.wls[w]) == wlId && sn.svcs[s].name == x
  }

  lemma OneMoreTurn(sn: Snapshot, id: string, w: nat, n: nat, x: string)
    requires w < |sn.wls| && 0 < n <= |sn.svcs|
    ensures x in LabelsOfSvc(sn, id, w, n) <==> x in LabelsOfSvc(sn, id, w, n - 1) || LabelTurn(sn, n - 1, w, id, x)
    ensures x in SvcsOfWl(sn, id, w, n) <==> x in SvcsOfWl(sn, id, w, n - 1) || NameTurn(sn, n - 1, w, id, x)
  {
  }

  lemma {:induction false} ListedLabels(sn: Snapshot, svcId: string, w: nat, n: nat, x: string)
    requires w <= |sn.wls| && n <= |sn.svcs| && (n > 0 ==> w < |sn.wls|)
    ensures x in LabelsOfSvc(sn, svcId, w, n) <==>
              exists s, v :: (v < w || (v == w && s < n)) && LabelTurn(sn, s, v, svcId, x)
    decreases w, n
  {
    if n > 0 {
      ListedLabels(sn, svcId, w, n - 1, x);
      OneMoreTurn(sn, svcId, w, n, x);
    } else if w > 0 {
      ListedLabels(sn, svcId, w - 1, |sn.svcs|, x);
    }
  }

  lemma {:induction false} ListedSvcs(sn: Snapshot, wlId: string, w: nat, n: nat, x: string)
    requires w <= |sn.wls| && n <= |sn.svcs| && (n > 0 ==> w < |sn.wls|)
    ensures x in SvcsOfWl(sn, wlId, w, n) <==>
              exists s, v :: (v < w || (v == w && s < n)) && NameTurn(sn, s, v, wlId, x)
    decreases w, n
  {
    if n > 0 {
      ListedSvcs(sn, wlId, w, n - 1, x);
      OneMoreTurn(sn, wlId, w, n, x);
    } else if w > 0 {
      ListedSvcs(sn, wlId, w - 1, |sn.svcs|, x);
    }
  }

  // ---------------------------------------------------------------- each selected pod once, in order

  /** The names of the pods service `s` selects among the first `n`, in snapshot order. */
  function SelectedNames(sn: Snapshot, s: nat, n: nat): seq<string>
    requires s < |sn.svcs| && n <= |sn.pods|
  {
    if n == 0 then []
    else
      var r := SelectedNames(sn, s, n - 1);
      if Selects(sn.svcs[s], sn.pods[n - 1]) then r + [sn.pods[n - 1].name] else r
  }

  /** No other service of that id selects any pod. */
  ghost predicate SelectsAlone(sn: Snapshot, s: nat)
    requires s < |sn.svcs|
  {
    forall t, p :: SvcPod(sn, t, p) && SvcId(sn.svcs[t]) == SvcId(sn.svcs[s]) ==> t == s
  }

  lemma {:induction false} ListedInOrder(sn: Snapshot, s: nat, t: nat, n: nat)
    requires s < |sn.svcs| && SelectsAlone(sn, s)
    requires t <= |sn.svcs| && n <= |sn.pods| && (n > 0 ==> t < |sn.svcs|)
    ensures PodsOfSvc(sn, SvcId(sn.svcs[s]), t, n) ==
              if t < s then [] else SelectedNames(sn, s, if t == s then n else |sn.pods|)
    decreases t, n
  {
    if n > 0 {
      ListedInOrder(sn, s, t, n - 1);
      assert Selects(sn.svcs[t], sn.pods[n - 1]) <==> SvcPod(sn, t, n - 1);
    } else if t > 0 {
      ListedInOrder(sn, s, t - 1, |sn.pods|);
    }
  }

  /** The list under an id is at least as long as what any two services of that id select. */
  lemma {:induction false} ListedBoth(sn: Snapshot, s: nat, u: nat, t: nat, n: nat)
    requires s < |sn.svcs| && u < |sn.svcs| && s != u && SvcId(sn.svcs[u]) == SvcId(sn.svcs[s])
    requires t <= |sn.svcs| && n <= |sn.pods| && (n > 0 ==> t < |sn.svcs|)
    ensures |PodsOfSvc(sn, SvcId(sn.svcs[s]), t, n)| >= Selected(sn, s, t, n) + Selected(sn, u, t, n)
    decreases t, n
  {
    if n > 0 {
      ListedBoth(sn, s, u, t, n - 1);
    } else if t > 0 {
      ListedBoth(sn, s, u, t - 1, |sn.pods|);
    }
  }

  /** How many pods service `s` has put in the lists when the loops stand at service `t` and pod `n`. */
  function Selected(sn: Snapshot, s: nat, t: nat, n: nat): nat
    requires s < |sn.svcs| && n <= |sn.pods|
  {
    if t < s then 0 else |SelectedNames(sn, s, if t == s then n else |sn.pods|)|
  }

  lemma SelectedIsLonger(sn: Snapshot, u: nat, p: int)
    requires SvcPod(sn, u, p)
    ensures |SelectedNames(sn, u, |sn.pods|)| > 0
  {
    SelectedNamesAre(sn, u, |sn.pods|, sn.pods[p].name);
  }

  lemma {:induction false} SelectedNamesAre(sn: Snapshot, s: nat, n: nat, x: string)
    requires s < |sn.svcs| && n <= |sn.pods|
    ensures x in SelectedNames(sn, s, n) <==> exists p :: p < n && SvcPod(sn, s, p) && sn.pods[p].name == x
  {
    if n > 0 {
      SelectedNamesAre(sn, s, n - 1, x);
      assert Selects(sn.svcs[s], sn.pods[n - 1]) <==> SvcPod(sn, s, n - 1);
    }
  }

  lemma {:induction false} NoNameTwice(sn: Snapshot, s: nat, n: nat)
    requires UniqueKeys(sn) && s < |sn.svcs| && n <= |sn.pods|
    ensures Once(SelectedNames(sn, s, n))
  {
    if n > 0 {
      NoNameTwice(sn, s, n - 1);
      SelectedNamesAre(sn, s, n - 1, sn.pods[n - 1].name);
      assert forall p :: p < n - 1 && SvcPod(sn, s, p) && SvcPod(sn, s, n - 1) ==> PodKey(sn.pods[p]) != PodKey(sn.pods[n - 1]);
    }
  }

  /** A service's list names each pod it selects once, in snapshot order, if and only if it selects alone under its id. */
  lemma EachPodListedOnce(sn: Snapshot, s: nat)
    requires UniqueKeys(sn) && s < |sn.svcs|
    ensures Once(SelectedNames(sn, s, |sn.pods|))
    ensures PodsOfSvc(sn, SvcId(sn.svcs[s]), |sn.svcs|, 0) == SelectedNames(sn, s, |sn.pods|) <==> SelectsAlone(sn, s)
  {
    NoNameTwice(sn, s, |sn.pods|);
    if SelectsAlone(sn, s) {
      ListedInOrder(sn, s, |sn.svcs|, 0);
    } else {
      var u, p :| SvcPod(sn, u, p) && SvcId(sn.svcs[u]) == SvcId(sn.svcs[s]) && u != s;
      ListedBoth(sn, s, u, |sn.svcs|, 0);
      SelectedIsLonger(sn, u, p);
    }
  }
}
