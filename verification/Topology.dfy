/**
 The cluster snapshot, the ids its objects get in the drawing, and what the selectors say.
 */
module Topology {
  import opened Options

  type Labels = map<string, string>

  datatype Node = Node(name: string)
  datatype Service = Service(name: string, namespace: Option<string>, selector: Option<Labels>)
  datatype WorkloadKind = Deployment | StatefulSet | DaemonSet
  datatype Workload = Workload(kind: WorkloadKind, name: string, namespace: Option<string>, matchLabels: Option<Labels>)

  /** `claims` has an entry for each volume: the claim it mounts, if it mounts one. */
  datatype Pod = Pod(
    name: string,
    namespace: Option<string>,
    nodeName: Option<string>,
    labels: Option<Labels>,
    claims: seq<Option<string>>)

  datatype Pvc = Pvc(name: string, namespace: Option<string>)

  datatype Snapshot = Snapshot(nodes: seq<Node>, svcs: seq<Service>, wls: seq<Workload>, pods: seq<Pod>, pvcs: seq<Pvc>)

  /** An absent selector or absent labels match nothing; an empty selector matches any labels. */
  predicate MatchesSelector(selector: Option<Labels>, labels: Option<Labels>) {
    && selector.Some? && labels.Some?
    && forall k :: k in selector.value ==> k in labels.value && labels.value[k] == selector.value[k]
  }

  /** The pod is in the namespace, and laying the selector over its labels changes nothing. */
  ghost predicate Chosen(selector: Option<Labels>, ns: Option<string>, p: Pod) {
    && p.namespace == ns
    && selector.Some? && p.labels.Some?
    && p.labels.value + selector.value == p.labels.value
  }

  /** Matching is inclusion: labels beyond those the selector names do not matter. */
  lemma MatchesExactly(selector: Option<Labels>, labels: Option<Labels>)
    ensures MatchesSelector(selector, labels) <==>
              selector.Some? && labels.Some? && labels.value + selector.value == labels.value
  {
    if selector.Some? && labels.Some? {
      var laid := labels.value + selector.value;
      if MatchesSelector(selector, labels) {
        assert laid.Keys == labels.value.Keys;
      }
      if laid == labels.value {
        forall k | k in selector.value ensures k in labels.value && labels.value[k] == selector.value[k] {
          assert laid[k] == selector.value[k];
        }
      }
    }
  }

  predicate Selects(s: Service, p: Pod) {
    s.namespace == p.namespace && MatchesSelector(s.selector, p.labels)
  }

  predicate Owns(w: Workload, p: Pod) {
    w.namespace == p.namespace && MatchesSelector(w.matchLabels, p.labels)
  }

  // ---------------------------------------------------------------- ids

  /** How a template literal prints an optional namespace. */
  function NsText(ns: Option<string>): string {
    match ns
    case Some(text) => text
    case None => "undefined"
  }

  function KindText(k: WorkloadKind): string {
    match k
    case Deployment => "Deployment"
    case StatefulSet => "StatefulSet"
    case DaemonSet => "DaemonSet"
  }

  function NodeId(n: Node): string {
    "node-" + n.name
  }

  function SvcId(s: Service): string {
    "svc-" + NsText(s.namespace) + "-" + s.name
  }

  function WlId(w: Workload): string {
    "wl-" + KindText(w.kind) + "-" + NsText(w.namespace) + "-" + w.name
  }

  function PodId(p: Pod): string {
    "pod-" + NsText(p.namespace) + "-" + p.name
  }

  function PvcIdOf(ns: Option<string>, claim: string): string {
    "pvc-" + NsText(ns) + "-" + claim
  }

  function PvcId(c: Pvc): string {
    PvcIdOf(c.namespace, c.name)
  }

  ghost predicate InjectiveSvcIds(sn: Snapshot) {
    forall i, j :: 0 <= i < |sn.svcs| && 0 <= j < |sn.svcs| && SvcId(sn.svcs[i]) == SvcId(sn.svcs[j]) ==> i == j
  }

  ghost predicate InjectiveWlIds(sn: Snapshot) {
    forall i, j :: 0 <= i < |sn.wls| && 0 <= j < |sn.wls| && WlId(sn.wls[i]) == WlId(sn.wls[j]) ==> i == j
  }

  ghost predicate InjectivePodIds(sn: Snapshot) {
    forall i, j :: 0 <= i < |sn.pods| && 0 <= j < |sn.pods| && PodId(sn.pods[i]) == PodId(sn.pods[j]) ==> i == j
  }

  /** No two services, workloads or pods of the snapshot get the same id. */
  ghost predicate InjectiveIds(sn: Snapshot) {
    InjectiveSvcIds(sn) && InjectiveWlIds(sn) && InjectivePodIds(sn)
  }

  ghost predicate InjectiveNodeIds(sn: Snapshot) {
    forall i, j :: 0 <= i < |sn.nodes| && 0 <= j < |sn.nodes| && NodeId(sn.nodes[i]) == NodeId(sn.nodes[j]) ==> i == j
  }

  function SvcKey(s: Service): (Option<string>, string) {
    (s.namespace, s.name)
  }

  function WlKey(w: Workload): (WorkloadKind, Option<string>, string) {
    (w.kind, w.namespace, w.name)
  }

  function PodKey(p: Pod): (Option<string>, string) {
    (p.namespace, p.name)
  }

  /** The cluster tells objects of one kind apart by namespace and name. */
  ghost predicate UniqueKeys(sn: Snapshot) {
    && (forall i, j :: 0 <= i < |sn.svcs| && 0 <= j < |sn.svcs| && SvcKey(sn.svcs[i]) == SvcKey(sn.svcs[j]) ==> i == j)
    && (forall i, j :: 0 <= i < |sn.wls| && 0 <= j < |sn.wls| && WlKey(sn.wls[i]) == WlKey(sn.wls[j]) ==> i == j)
    && (forall i, j :: 0 <= i < |sn.pods| && 0 <= j < |sn.pods| && PodKey(sn.pods[i]) == PodKey(sn.pods[j]) ==> i == j)
  }

  lemma SameTail(front: string, a: string, b: string)
    requires front + a == front + b
    ensures a == b
  {
    assert a == (front + a)[|front|..] && b == (front + b)[|front|..];
  }

  /** Objects that share an id without being the same object live in different namespaces. */
  lemma SvcIdsCollideAcross(sn: Snapshot, i: int, j: int)
    requires UniqueKeys(sn) && 0 <= i < |sn.svcs| && 0 <= j < |sn.svcs| && i != j
    requires SvcId(sn.svcs[i]) == SvcId(sn.svcs[j])
    ensures sn.svcs[i].namespace != sn.svcs[j].namespace
  {
    if sn.svcs[i].namespace == sn.svcs[j].namespace {
      SameTail("svc-" + NsText(sn.svcs[i].namespace) + "-", sn.svcs[i].name, sn.svcs[j].name);
    }
  }

  lemma PodIdsCollideAcross(sn: Snapshot, i: int, j: int)
    requires UniqueKeys(sn) && 0 <= i < |sn.pods| && 0 <= j < |sn.pods| && i != j
    requires PodId(sn.pods[i]) == PodId(sn.pods[j])
    ensures sn.pods[i].namespace != sn.pods[j].namespace
  {
    if sn.pods[i].namespace == sn.pods[j].namespace {
      SameTail("pod-" + NsText(sn.pods[i].namespace) + "-", sn.pods[i].name, sn.pods[j].name);
    }
  }

  lemma WlIdsCollideAcross(sn: Snapshot, i: int, j: int)
    requires UniqueKeys(sn) && 0 <= i < |sn.wls| && 0 <= j < |sn.wls| && i != j
    requires WlId(sn.wls[i]) == WlId(sn.wls[j])
    ensures sn.wls[i].namespace != sn.wls[j].namespace
  {
    var v, w := sn.wls[i], sn.wls[j];
    assert WlId(v)[4] == KindText(v.kind)[1] && WlId(w)[4] == KindText(w.kind)[1];
    assert v.kind == w.kind;
    if v.namespace == w.namespace {
      SameTail("wl-" + KindText(v.kind) + "-" + NsText(v.namespace) + "-", v.name, w.name);
    }
  }

  /** Injective ids presuppose unique keys. */
  lemma InjectiveIdsHaveKeys(sn: Snapshot)
    requires InjectiveIds(sn)
    ensures UniqueKeys(sn)
  {
  }

  /** The rows of the drawing, top to bottom. */
  function Rank(id: string): nat {
    if |id| < 2 || id[0] == 'n' then 0
    else if id[0] == 's' then 1
    else if id[0] == 'w' then 2
    else if id[1] == 'o' then 3
    else 4
  }

  lemma IdRanks(n: Node, s: Service, w: Workload, p: Pod, ns: Option<string>, claim: string)
    ensures Rank(NodeId(n)) == 0 && Rank(SvcId(s)) == 1 && Rank(WlId(w)) == 2 && Rank(PodId(p)) == 3
    ensures Rank(PvcIdOf(ns, claim)) == 4
  {
    assert NodeId(n)[0] == 'n';
    assert SvcId(s)[0] == 's';
    assert WlId(w)[0] == 'w';
    assert PodId(p)[0] == 'p' && PodId(p)[1] == 'o';
    assert PvcIdOf(ns, claim)[0] == 'p' && PvcIdOf(ns, claim)[1] == 'v';
  }

  // ---------------------------------------------------------------- relations by position

  ghost predicate SvcPod(sn: Snapshot, s: int, p: int) {
    0 <= s < |sn.svcs| && 0 <= p < |sn.pods| && Selects(sn.svcs[s], sn.pods[p])
  }

  ghost predicate WlPod(sn: Snapshot, w: int, p: int) {
    0 <= w < |sn.wls| && 0 <= p < |sn.pods| && Owns(sn.wls[w], sn.pods[p])
  }

  ghost predicate OnNode(sn: Snapshot, n: int, p: int) {
    0 <= n < |sn.nodes| && 0 <= p < |sn.pods| && sn.pods[p].nodeName == Some(sn.nodes[n].name)
  }

  /** Some pod is matched by both selectors: what ties a service to a workload. */
  ghost predicate Tied(sn: Snapshot, s: int, w: int) {
    exists p :: SvcPod(sn, s, p) && WlPod(sn, w, p)
  }

  ghost predicate TiedAt(sn: Snapshot, s: int, w: int) {
    0 <= s < |sn.svcs| && 0 <= w < |sn.wls| && Tied(sn, s, w)
  }

  ghost predicate SvcChooses(sn: Snapshot, s: int, p: int) {
    0 <= s < |sn.svcs| && 0 <= p < |sn.pods| && Chosen(sn.svcs[s].selector, sn.svcs[s].namespace, sn.pods[p])
  }

  ghost predicate WlChooses(sn: Snapshot, w: int, p: int) {
    0 <= w < |sn.wls| && 0 <= p < |sn.pods| && Chosen(sn.wls[w].matchLabels, sn.wls[w].namespace, sn.pods[p])
  }

  lemma ChosenByLabels(sn: Snapshot, i: int, p: int)
    ensures SvcPod(sn, i, p) <==> SvcChooses(sn, i, p)
    ensures WlPod(sn, i, p) <==> WlChooses(sn, i, p)
  {
    if 0 <= p < |sn.pods| {
      if 0 <= i < |sn.svcs| {
        MatchesExactly(sn.svcs[i].selector, sn.pods[p].labels);
      }
      if 0 <= i < |sn.wls| {
        MatchesExactly(sn.wls[i].matchLabels, sn.pods[p].labels);
      }
    }
  }

  /** Selection and ownership are what labels and selectors say they are. */
  ghost predicate LabelsDecide(sn: Snapshot) {
    forall i, p :: (SvcPod(sn, i, p) <==> SvcChooses(sn, i, p)) && (WlPod(sn, i, p) <==> WlChooses(sn, i, p))
  }

  lemma LabelsAlwaysDecide(sn: Snapshot)
    ensures LabelsDecide(sn)
  {
    forall i, p ensures (SvcPod(sn, i, p) <==> SvcChooses(sn, i, p)) && (WlPod(sn, i, p) <==> WlChooses(sn, i, p)) {
      ChosenByLabels(sn, i, p);
    }
  }

  /** Some workload's selector matches the pod. */
  ghost predicate Owned(sn: Snapshot, p: int) {
    exists w :: WlPod(sn, w, p)
  }
}
