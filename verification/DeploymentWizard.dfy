/**
 The deployment wizard: four steps, validation on the way forward, and a preview request
 whose payload is built from the form on arrival at the review step.
 */
module DeploymentWizard {
  import opened Lists
  import opened Options
  import opened WizardRules
  import Preview

  datatype Label = Label(key: string, value: string)
  datatype Port = Port(name: string, containerPort: int, protocol: string)
  datatype EnvKind = Literal | ConfigMap | Secret
  datatype EnvVar = EnvVar(name: string, kind: EnvKind, value: string, ref: string, key: string)
  datatype Limits = Limits(cpuRequest: string, memoryRequest: string, cpuLimit: string, memoryLimit: string)
  datatype Probe = Probe(kind: string, path: string, port: int, initialDelaySeconds: int, periodSeconds: int)
  datatype Strategy = Strategy(kind: string, maxSurge: string, maxUnavailable: string)

  datatype Form = Form(
    name: string,
    namespace: string,
    image: string,
    replicas: int,
    labels: seq<Label>,
    ports: seq<Port>,
    envVars: seq<EnvVar>,
    limits: Limits,
    liveness: Option<Probe>,
    readiness: Option<Probe>,
    strategy: Strategy)

  /** A call of `updateField`, one constructor per field a step hands out. */
  datatype Edit =
    | Name(name: string) | Namespace(namespace: string) | Image(image: string)
    | Replicas(replicas: int) | Labels(labels: seq<Label>)
    | Ports(ports: seq<Port>) | EnvVars(envVars: seq<EnvVar>)
    | SetLimits(limits: Limits) | Liveness(liveness: Option<Probe>) | Readiness(readiness: Option<Probe>)
    | SetStrategy(strategy: Strategy)

  /** The step whose form offers the edit. */
  function StepOf(e: Edit): nat {
    match e
    case Name(_) => 0 case Namespace(_) => 0 case Image(_) => 0 case Replicas(_) => 0 case Labels(_) => 0
    case Ports(_) => 1 case EnvVars(_) => 1
    case _ => 2
  }

  /** `findIndex` of the label keyed "app"; the length when there is none. */
  function FirstApp(labels: seq<Label>): (i: nat)
    ensures i <= |labels|
    ensures i < |labels| ==> labels[i].key == "app"
    ensures forall k :: 0 <= k < i ==> labels[k].key != "app"
  {
    if labels == [] || labels[0].key == "app" then 0 else 1 + FirstApp(labels[1..])
  }

  /** Writes `value` into the first label whose key is "app". */
  function SyncApp(labels: seq<Label>, value: string): seq<Label> {
    var i := FirstApp(labels);
    if i < |labels| then labels[i := labels[i].(value := value)] else labels
  }

  function Update(f: Form, e: Edit): Form {
    match e
    case Name(name) => f.(name := name, labels := SyncApp(f.labels, name))
    case Namespace(namespace) => f.(namespace := namespace)
    case Image(image) => f.(image := image)
    case Replicas(n) => f.(replicas := n)
    case Labels(labels) => f.(labels := labels)
    case Ports(ports) => f.(ports := ports)
    case EnvVars(vars) => f.(envVars := vars)
    case SetLimits(limits) => f.(limits := limits)
    case Liveness(p) => f.(liveness := p)
    case Readiness(p) => f.(readiness := p)
    case SetStrategy(strategy) => f.(strategy := strategy)
  }

  /** An edit sets its own field and no other, but that a new name is also the value of the first label keyed "app". */
  lemma EditSetsItsField(f: Form, e: Edit)
    ensures var g := Update(f, e);
            && g.name == (if e.Name? then e.name else f.name)
            && g.namespace == (if e.Namespace? then e.namespace else f.namespace)
            && g.image == (if e.Image? then e.image else f.image)
            && g.replicas == (if e.Replicas? then e.replicas else f.replicas)
            && g.ports == (if e.Ports? then e.ports else f.ports)
            && g.envVars == (if e.EnvVars? then e.envVars else f.envVars)
            && g.limits == (if e.SetLimits? then e.limits else f.limits)
            && g.liveness == (if e.Liveness? then e.liveness else f.liveness)
            && g.readiness == (if e.Readiness? then e.readiness else f.readiness)
            && g.strategy == (if e.SetStrategy? then e.strategy else f.strategy)
            && (e.Labels? ==> g.labels == e.labels)
            && (!e.Labels? ==>
                  |g.labels| == |f.labels| && forall k :: 0 <= k < |f.labels| ==>
                    && g.labels[k].key == f.labels[k].key
                    && g.labels[k].value == if e.Name? && IsFirstApp(f.labels, k) then e.name else f.labels[k].value)
  {
  }

  predicate IsFirstApp(labels: seq<Label>, k: int) {
    0 <= k < |labels| && labels[k].key == "app" && forall j :: 0 <= j < k ==> labels[j].key != "app"
  }

  // ---------------------------------------------------------------- validation

  /** The keys of the `errors` record. */
  datatype Fault = BadName | NoNamespace | NoImage | BadReplicas | BadPort(i: nat) | BadEnvVar(j: nat)

  predicate PortRefused(p: Port) {
    p.containerPort != 0 && (p.containerPort < 1 || p.containerPort > MAX_PORT)
  }

  predicate EnvVarRefused(e: EnvVar) {
    e.name != "" && !EnvVarName(e.name)
  }

  ghost predicate Refused(f: Form, step: nat, fault: Fault) {
    match fault
    case BadName => step == 0 && !DnsLabel(f.name)
    case NoNamespace => step == 0 && f.namespace == ""
    case NoImage => step == 0 && f.image == ""
    case BadReplicas => step == 0 && !(0 <= f.replicas <= MAX_REPLICAS)
    case BadPort(i) => step == 1 && i < |f.ports| && PortRefused(f.ports[i])
    case BadEnvVar(j) => step == 1 && j < |f.envVars| && EnvVarRefused(f.envVars[j])
  }

  ghost predicate Passes(f: Form, step: nat) {
    forall fault :: !Refused(f, step, fault)
  }

  /** The faults of a step, as the set the `errors` record is. */
  ghost function Faults(f: Form, step: nat): (r: set<Fault>)
    ensures forall fault :: fault in r <==> Refused(f, step, fault)
  {
    if step == 0 then
      (if !DnsLabel(f.name) then {BadName} else {}) + (if f.namespace == "" then {NoNamespace} else {})
      + (if f.image == "" then {NoImage} else {}) + (if !(0 <= f.replicas <= MAX_REPLICAS) then {BadReplicas} else {})
    else if step == 1 then
      (set i | 0 <= i < |f.ports| && PortRefused(f.ports[i]) :: BadPort(i))
      + (set j | 0 <= j < |f.envVars| && EnvVarRefused(f.envVars[j]) :: BadEnvVar(j))
    else {}
  }

  method Validate(f: Form, step: nat) returns (errs: set<Fault>)
    ensures forall fault :: fault in errs <==> Refused(f, step, fault)
    ensures errs == {} <==> Passes(f, step)
  {
    errs := {};
    if step == 0 {
      if f.name == "" || !DnsLabel(f.name) {
        errs := errs + {BadName};
      }
      if f.namespace == "" {
        errs := errs + {NoNamespace};
      }
      if f.image == "" {
        errs := errs + {NoImage};
      }
      if f.replicas < 0 || f.replicas > MAX_REPLICAS {
        errs := errs + {BadReplicas};
      }
    }
    if step == 1 {
      for i := 0 to |f.ports|
        invariant forall fault :: fault in errs <==> fault.BadPort? && fault.i < i && Refused(f, 1, fault)
      {
        if f.ports[i].containerPort != 0 && (f.ports[i].containerPort < 1 || f.ports[i].containerPort > MAX_PORT) {
          errs := errs + {BadPort(i)};
        }
      }
      for j := 0 to |f.envVars|
        invariant forall fault :: fault in errs <==>
                    Refused(f, 1, fault) && (fault.BadEnvVar? ==> fault.j < j)
      {
        if f.envVars[j].name != "" && !EnvVarName(f.envVars[j].name) {
          errs := errs + {BadEnvVar(j)};
        }
      }
    }
    assert errs != {} ==> exists fault :: fault in errs;
  }

  // ---------------------------------------------------------------- the payload

  datatype EnvSource = Value(value: string) | FromConfigMap(ref: string, key: string) | FromSecret(ref: string, key: string)
  datatype EnvEntry = EnvEntry(name: string, source: EnvSource)

  datatype Resources = Resources(
    requestCpu: Option<string>,
    requestMemory: Option<string>,
    limitCpu: Option<string>,
    limitMemory: Option<string>)
  datatype Probes = Probes(liveness: Option<Probe>, readiness: Option<Probe>)

  /** A field left out of the request is None. */
  datatype Payload = Payload(
    name: string,
    namespace: string,
    image: string,
    replicas: int,
    labels: Option<map<string, string>>,
    ports: Option<seq<Port>>,
    envVars: Option<seq<EnvEntry>>,
    resources: Option<Resources>,
    probes: Option<Probes>,
    strategy: Option<Strategy>)

  function LabelMap(labels: seq<Label>): map<string, string> {
    if labels == [] then map[]
    else
      var l := labels[|labels| - 1];
      var m := LabelMap(labels[..|labels| - 1]);
      if l.key == "" then m else m[l.key := l.value]
  }

  /** Every non-empty key is sent, with the value of the last row that has it. */
  lemma {:induction false} LabelMapKeepsLast(labels: seq<Label>, i: nat)
    requires i < |labels| && labels[i].key != ""
    requires forall j :: i < j < |labels| ==> labels[j].key != labels[i].key
    ensures labels[i].key in LabelMap(labels) && LabelMap(labels)[labels[i].key] == labels[i].value
  {
    if i < |labels| - 1 {
      LabelMapKeepsLast(labels[..|labels| - 1], i);
    }
  }

  /** And no other key is. */
  lemma {:induction false} LabelMapKeys(labels: seq<Label>, k: string)
    requires k in LabelMap(labels)
    ensures k != "" && exists i :: 0 <= i < |labels| && labels[i].key == k
  {
    var n := |labels| - 1;
    if labels[n].key == "" || k != labels[n].key {
      LabelMapKeys(labels[..n], k);
      var i :| 0 <= i < n && labels[..n][i].key == k;
      assert labels[i].key == k;
    }
  }

  function OpenPorts(ports: seq<Port>): (r: seq<Port>)
    ensures forall p :: p in r <==> p in ports && p.containerPort > 0
    ensures (forall p :: p in ports ==> p.containerPort > 0) ==> r == ports
  {
    if ports == [] then []
    else
      var p := ports[|ports| - 1];
      OpenPorts(ports[..|ports| - 1]) + if p.containerPort > 0 then [p] else []
  }

  lemma {:induction false} OpenPortsFilter(rows: seq<Port>)
    ensures OpenPorts(rows) == Filter((p: Port) => p.containerPort > 0, rows)
  {
    if rows != [] {
      OpenPortsFilter(rows[..|rows| - 1]);
    }
  }

  /** Dropping rows keeps the order and the multiplicity of the others. */
  lemma OpenPortsSplit(a: seq<Port>, b: seq<Port>)
    ensures OpenPorts(a + b) == OpenPorts(a) + OpenPorts(b)
  {
    OpenPortsFilter(a);
    OpenPortsFilter(b);
    OpenPortsFilter(a + b);
    FilterSplit((p: Port) => p.containerPort > 0, a, b);
  }

  function Entry(e: EnvVar): EnvEntry {
    match e.kind
    case ConfigMap => EnvEntry(e.name, FromConfigMap(e.ref, e.key))
    case Secret => EnvEntry(e.name, FromSecret(e.ref, e.key))
    case Literal => EnvEntry(e.name, Value(e.value))
  }

  function EnvEntries(vars: seq<EnvVar>): (r: seq<EnvEntry>)
    ensures forall x :: x in r <==> exists e :: e in vars && e.name != "" && x == Entry(e)
  {
    if vars == [] then []
    else
      var e := vars[|vars| - 1];
      var r := EnvEntries(vars[..|vars| - 1]) + if e.name != "" then [Entry(e)] else [];
      assert forall v :: v in vars <==> v in vars[..|vars| - 1] || v == e;
      r
  }

  /** The entries keep the order and the multiplicity of the named variables. */
  lemma {:induction false} EnvEntriesSplit(a: seq<EnvVar>, b: seq<EnvVar>)
    ensures EnvEntries(a + b) == EnvEntries(a) + EnvEntries(b)
  {
    if b == [] {
      assert a + b == a;
    } else {
      assert (a + b)[..|a + b| - 1] == a + b[..|b| - 1];
      EnvEntriesSplit(a, b[..|b| - 1]);
    }
  }

  /** `text || undefined`. */
  function Given(text: string): Option<string> {
    if text == "" then None else Some(text)
  }

  function PayloadOf(f: Form): Payload {
    var labels := LabelMap(f.labels);
    var ports := OpenPorts(f.ports);
    var vars := EnvEntries(f.envVars);
    Payload(f.name, f.namespace, f.image, f.replicas,
            if labels == map[] then None else Some(labels),
            if ports == [] then None else Some(ports),
            if vars == [] then None else Some(vars),
            if f.limits == Limits("", "", "", "") then None
            else Some(Resources(Given(f.limits.cpuRequest), Given(f.limits.memoryRequest),
                                Given(f.limits.cpuLimit), Given(f.limits.memoryLimit))),
            if f.liveness.None? && f.readiness.None? then None else Some(Probes(f.liveness, f.readiness)),
            if f.strategy.kind == "" then None else Some(f.strategy))
  }

  method BuildLabels(labels: seq<Label>) returns (labelsMap: map<string, string>)
    ensures labelsMap == LabelMap(labels)
  {
    labelsMap := map[];
    for i := 0 to |labels|
      invariant labelsMap == LabelMap(labels[..i])
    {
      assert labels[..i + 1][..i] == labels[..i];
      if labels[i].key != "" {
        labelsMap := labelsMap[labels[i].key := labels[i].value];
      }
    }
    assert labels[..|labels|] == labels;
  }

  lemma OpenPortsPush(rows: seq<Port>, i: nat)
    requires i < |rows|
    ensures OpenPorts(rows[..i + 1]) == OpenPorts(rows[..i]) + if rows[i].containerPort > 0 then [rows[i]] else []
  {
    assert rows[..i + 1][..i] == rows[..i];
  }

  method BuildPorts(rows: seq<Port>) returns (ports: seq<Port>)
    ensures ports == OpenPorts(rows)
  {
    ports := [];
    for i := 0 to |rows|
      invariant ports == OpenPorts(rows[..i])
    {
      OpenPortsPush(rows, i);
      if rows[i].containerPort > 0 {
        ports := ports + [rows[i]];
      }
    }
    assert rows[..|rows|] == rows;
  }

  method BuildEnvVars(rows: seq<EnvVar>) returns (envVars: seq<EnvEntry>)
    ensures envVars == EnvEntries(rows)
  {
    envVars := [];
    for i := 0 to |rows|
      invariant envVars == EnvEntries(rows[..i])
    {
      assert rows[..i + 1][..i] == rows[..i];
      if rows[i].name != "" {
        envVars := envVars + [Entry(rows[i])];
      }
    }
    assert rows[..|rows|] == rows;
  }

  method BuildPayload(f: Form) returns (payload: Payload)
    ensures payload == PayloadOf(f) && Faithful(f, payload)
  {
    PayloadIsFaithful(f);
    payload := Payload(f.name, f.namespace, f.image, f.replicas, None, None, None, None, None, None);
    var labelsMap := BuildLabels(f.labels);
    if labelsMap != map[] {
      payload := payload.(labels := Some(labelsMap));
    }
    var ports := BuildPorts(f.ports);
    if |ports| > 0 {
      payload := payload.(ports := Some(ports));
    }
    var envVars := BuildEnvVars(f.envVars);
    if |envVars| > 0 {
      payload := payload.(envVars := Some(envVars));
    }
    if f.limits.cpuRequest != "" || f.limits.memoryRequest != "" || f.limits.cpuLimit != "" || f.limits.memoryLimit != "" {
      payload := payload.(resources := Some(Resources(
        Given(f.limits.cpuRequest), Given(f.limits.memoryRequest), Given(f.limits.cpuLimit), Given(f.limits.memoryLimit))));
    }
    if f.liveness.Some? || f.readiness.Some? {
      payload := payload.(probes := Some(Probes(f.liveness, f.readiness)));
    }
    if f.strategy.kind != "" {
      payload := payload.(strategy := Some(f.strategy));
    }
  }

  // ---------------------------------------------------------------- what a request says of its form

  /** Label `i` has a key, and is the last to have it. */
  ghost predicate LastOfKey(labels: seq<Label>, i: int) {
    0 <= i < |labels| && labels[i].key != "" && forall j :: i < j < |labels| ==> labels[j].key != labels[i].key
  }

  /** Each key with the value of its last row, and no other; nothing at all where no row has a key. */
  ghost predicate LabelsSent(sent: Option<map<string, string>>, labels: seq<Label>) {
    && (sent.None? <==> forall l :: l in labels ==> l.key == "")
    && (sent.Some? ==>
          && (forall i :: LastOfKey(labels, i) ==> labels[i].key in sent.value && sent.value[labels[i].key] == labels[i].value)
          && (forall k :: k in sent.value ==> k != "" && exists i :: 0 <= i < |labels| && labels[i].key == k))
  }

  /** The rows whose port is positive, as they are and in their order; nothing where there is none. */
  ghost predicate PortsSent(sent: Option<seq<Port>>, rows: seq<Port>) {
    var origin := Positions((p: Port) => p.containerPort > 0, rows, |rows|);
    if origin == [] then sent == None
    else sent.Some? && TakenFrom(sent.value, rows, origin)
  }

  /** The entry names the variable and takes its value from where the variable's kind says. */
  ghost predicate EntrySays(x: EnvEntry, e: EnvVar) {
    && x.name == e.name
    && match e.kind
       case Literal => x.source == Value(e.value)
       case ConfigMap => x.source == FromConfigMap(e.ref, e.key)
       case Secret => x.source == FromSecret(e.ref, e.key)
  }

  /** The variables with a name, in their order; nothing where there is none. */
  ghost predicate EnvVarsSent(sent: Option<seq<EnvEntry>>, rows: seq<EnvVar>) {
    var origin := Positions((e: EnvVar) => e.name != "", rows, |rows|);
    if origin == [] then sent == None
    else
      && sent.Some? && |sent.value| == |origin|
      && forall k :: 0 <= k < |origin| ==> origin[k] < |rows| && EntrySays(sent.value[k], rows[origin[k]])
  }

  /** Each amount given is sent under its own name, and the four together only where one is given. */
  ghost predicate ResourcesSent(sent: Option<Resources>, limits: Limits) {
    && (sent.None? <==> limits.cpuRequest == "" && limits.memoryRequest == "" && limits.cpuLimit == "" && limits.memoryLimit == "")
    && (sent.Some? ==>
          && (if limits.cpuRequest == "" then sent.value.requestCpu == None else sent.value.requestCpu == Some(limits.cpuRequest))
          && (if limits.memoryRequest == "" then sent.value.requestMemory == None else sent.value.requestMemory == Some(limits.memoryRequest))
          && (if limits.cpuLimit == "" then sent.value.limitCpu == None else sent.value.limitCpu == Some(limits.cpuLimit))
          && (if limits.memoryLimit == "" then sent.value.limitMemory == None else sent.value.limitMemory == Some(limits.memoryLimit)))
  }

  /** The request says what the form does, every part in its own place. */
  ghost predicate Faithful(f: Form, p: Payload) {
    && p.name == f.name && p.namespace == f.namespace && p.image == f.image && p.replicas == f.replicas
    && LabelsSent(p.labels, f.labels)
    && PortsSent(p.ports, f.ports)
    && EnvVarsSent(p.envVars, f.envVars)
    && ResourcesSent(p.resources, f.limits)
    && (p.probes.None? <==> f.liveness == None && f.readiness == None)
    && (p.probes.Some? ==> p.probes.value.liveness == f.liveness && p.probes.value.readiness == f.readiness)
    && (if f.strategy.kind == "" then p.strategy == None else p.strategy == Some(f.strategy))
  }

  lemma {:induction false} LabelMapKeysSent(labels: seq<Label>, i: nat)
    requires i < |labels| && labels[i].key != ""
    ensures labels[i].key in LabelMap(labels)
  {
    if i < |labels| - 1 {
      LabelMapKeysSent(labels[..|labels| - 1], i);
    }
  }

  lemma LabelsAreSent(labels: seq<Label>)
    ensures LabelsSent(if LabelMap(labels) == map[] then None else Some(LabelMap(labels)), labels)
  {
    var m := LabelMap(labels);
    forall i | 0 <= i < |labels| && labels[i].key != "" ensures labels[i].key in m {
      LabelMapKeysSent(labels, i);
    }
    forall i | LastOfKey(labels, i) ensures labels[i].key in m && m[labels[i].key] == labels[i].value {
      LabelMapKeepsLast(labels, i);
    }
    forall k | k in m ensures k != "" && exists i :: 0 <= i < |labels| && labels[i].key == k {
      LabelMapKeys(labels, k);
    }
    if m != map[] {
      assert exists k :: k in m;
    }
  }

  lemma PortsAreSent(rows: seq<Port>)
    ensures PortsSent(if OpenPorts(rows) == [] then None else Some(OpenPorts(rows)), rows)
  {
    OpenPortsFilter(rows);
    FilterKeepsOrder((p: Port) => p.containerPort > 0, rows, |rows|);
    assert rows[..|rows|] == rows;
  }

  lemma {:induction false} EnvEntriesFilter(rows: seq<EnvVar>)
    ensures EnvEntries(rows) == Map(Entry, Filter((e: EnvVar) => e.name != "", rows))
  {
    if rows != [] {
      EnvEntriesFilter(rows[..|rows| - 1]);
    }
  }

  lemma EnvVarsAreSent(rows: seq<EnvVar>)
    ensures EnvVarsSent(if EnvEntries(rows) == [] then None else Some(EnvEntries(rows)), rows)
  {
    EnvEntriesFilter(rows);
    FilterKeepsOrder((e: EnvVar) => e.name != "", rows, |rows|);
    assert rows[..|rows|] == rows;
    var kept := Filter((e: EnvVar) => e.name != "", rows);
    forall k | 0 <= k < |kept| ensures EntrySays(Map(Entry, kept)[k], kept[k]) {
    }
  }

  /** Of any form. */
  lemma PayloadIsFaithful(f: Form)
    ensures Faithful(f, PayloadOf(f))
  {
    LabelsAreSent(f.labels);
    PortsAreSent(f.ports);
    EnvVarsAreSent(f.envVars);
  }

  /** What the backend may rely on in every preview request. */
  ghost predicate Sound(p: Payload) {
    && DnsLabel(p.name) && p.namespace != "" && p.image != ""
    && 0 <= p.replicas <= 1000
    && (p.ports.Some? ==> p.ports.value != [] && forall q :: q in p.ports.value ==> 1 <= q.containerPort <= 65535)
    && (p.envVars.Some? ==> p.envVars.value != [] && forall x :: x in p.envVars.value ==> EnvVarName(x.name))
    && (p.labels.Some? ==> "" !in p.labels.value)
  }

  /** The two validated steps accept exactly the forms whose fields are these. */
  lemma AcceptsExactly(f: Form, step: nat)
    ensures Passes(f, 0) <==> DnsLabel(f.name) && f.namespace != "" && f.image != "" && 0 <= f.replicas <= 1000
    ensures Passes(f, 1) <==>
              && (forall q :: q in f.ports ==> 0 <= q.containerPort <= 65535)
              && (forall e :: e in f.envVars ==> e.name == "" || EnvVarName(e.name))
    ensures step >= 2 ==> Passes(f, step)
  {
    if Passes(f, 0) {
      assert !Refused(f, 0, BadName) && !Refused(f, 0, NoNamespace) && !Refused(f, 0, NoImage) && !Refused(f, 0, BadReplicas);
    }
    if Passes(f, 1) {
      forall q | q in f.ports ensures 0 <= q.containerPort <= 65535 {
        ValidatedPorts(f, q);
      }
      forall e | e in f.envVars && e.name != "" ensures EnvVarName(e.name) {
        ValidatedEnvVars(f, e);
      }
    }
  }

  lemma ValidatedPorts(f: Form, q: Port)
    requires Passes(f, 1) && q in f.ports
    ensures 0 <= q.containerPort <= MAX_PORT
  {
    var i :| 0 <= i < |f.ports| && f.ports[i] == q;
    assert !Refused(f, 1, BadPort(i));
  }

  lemma ValidatedEnvVars(f: Form, e: EnvVar)
    requires Passes(f, 1) && e in f.envVars && e.name != ""
    ensures EnvVarName(e.name)
  {
    var j :| 0 <= j < |f.envVars| && f.envVars[j] == e;
    assert !Refused(f, 1, BadEnvVar(j));
  }

  lemma ValidatedRows(f: Form)
    requires Passes(f, 1)
    ensures forall q :: q in OpenPorts(f.ports) ==> 1 <= q.containerPort <= MAX_PORT
    ensures forall x :: x in EnvEntries(f.envVars) ==> EnvVarName(x.name)
  {
    forall q | q in OpenPorts(f.ports) ensures 1 <= q.containerPort <= MAX_PORT {
      ValidatedPorts(f, q);
    }
    forall x | x in EnvEntries(f.envVars) ensures EnvVarName(x.name) {
      var e :| e in f.envVars && e.name != "" && x == Entry(e);
      ValidatedEnvVars(f, e);
    }
  }

  lemma PayloadIsSound(f: Form)
    requires Passes(f, 0) && Passes(f, 1)
    ensures Sound(PayloadOf(f))
  {
    assert !Refused(f, 0, BadName) && !Refused(f, 0, NoNamespace) && !Refused(f, 0, NoImage) && !Refused(f, 0, BadReplicas);
    ValidatedRows(f);
    if "" in LabelMap(f.labels) {
      LabelMapKeys(f.labels, "");
    }
  }

  lemma ValidatedFormIsSound(f: Form)
    requires Passes(f, 0) && Passes(f, 1)
    ensures Sound(PayloadOf(f)) && Faithful(f, PayloadOf(f))
  {
    PayloadIsFaithful(f);
    PayloadIsSound(f);
  }

  /** Of a validated form's port rows only those left at zero are dropped. */
  lemma NoOtherPortDropped(f: Form, q: Port)
    requires Passes(f, 1) && q in f.ports && q.containerPort != 0
    ensures PayloadOf(f).ports.Some? && q in PayloadOf(f).ports.value
  {
    ValidatedPorts(f, q);
    assert q in OpenPorts(f.ports);
  }

  /** And of any form's variables only those left without a name. */
  lemma NoOtherVariableDropped(f: Form, e: EnvVar)
    requires e in f.envVars && e.name != ""
    ensures PayloadOf(f).envVars.Some? && Entry(e) in PayloadOf(f).envVars.value
  {
    assert Entry(e) in EnvEntries(f.envVars);
  }

  // ---------------------------------------------------------------- the wizard

  /** `currentStep`, `form` and `errors`, and beside them the preview. */
  datatype Page = Page(step: nat, form: Form, errors: set<Fault>)
  datatype Wizard = Wizard(page: Page, board: Preview.Board)

  function Edited(p: Page, e: Edit): Page {
    p.(form := Update(p.form, e))
  }

  ghost function Advanced(p: Page): Page {
    p.(step := if Passes(p.form, p.step) then p.step + 1 else p.step, errors := Faults(p.form, p.step))
  }

  /** The request that leaves as the page advances: only on the way from step 2 to the review. */
  ghost function Asked(p: Page): Option<Payload> {
    if p.step == 2 && Passes(p.form, 2) then Some(PayloadOf(p.form)) else None
  }

  function WentTo(p: Page, i: nat): Page {
    if i <= p.step then p.(step := i) else p
  }

  function WentBack(p: Page): Page {
    p.(step := if p.step == 0 then 0 else p.step - 1)
  }

  class Island {
    var currentStep: nat
    var form: Form
    var errors: set<Fault>
    var board: Preview.Board

    ghost function Model(): Wizard
      reads this
    {
      Wizard(Page(currentStep, form, errors), board)
    }

    constructor (initial: Form)
      ensures Model() == Wizard(Page(0, initial, {}), Preview.BLANK)
    {
      currentStep, form, errors, board := 0, initial, {}, Preview.BLANK;
    }

    method UpdateField(e: Edit)
      modifies this
      ensures Model() == old(Model()).(page := Edited(old(Model()).page, e))
    {
      var f := form;
      match e {
        case Name(name) =>
          var i := 0;
          while i < |f.labels| && f.labels[i].key != "app"
            invariant 0 <= i <= |f.labels|
            invariant forall k :: 0 <= k < i ==> f.labels[k].key != "app"
          {
            i := i + 1;
          }
          var labels := f.labels;
          if i < |labels| {
            labels := labels[i := labels[i].(value := name)];
          }
          assert i == FirstApp(f.labels);
          form := f.(name := name, labels := labels);
        case Namespace(namespace) => form := f.(namespace := namespace);
        case Image(image) => form := f.(image := image);
        case Replicas(n) => form := f.(replicas := n);
        case Labels(labels) => form := f.(labels := labels);
        case Ports(ports) => form := f.(ports := ports);
        case EnvVars(vars) => form := f.(envVars := vars);
        case SetLimits(limits) => form := f.(limits := limits);
        case Liveness(p) => form := f.(liveness := p);
        case Readiness(p) => form := f.(readiness := p);
        case SetStrategy(strategy) => form := f.(strategy := strategy);
      }
    }

    method ValidateStep(step: nat) returns (ok: bool)
      modifies this
      ensures ok <==> Passes(form, step)
      ensures Model() == old(Model()).(page := old(Model()).page.(errors := Faults(form, step)))
    {
      errors := Validate(form, step);
      assert errors == Faults(form, step);
      ok := errors == {};
    }

    /** `fetchPreview` up to its request; `gen` is the number it captures. */
    method FetchPreview() returns (gen: nat, payload: Payload)
      modifies this
      ensures Model() == old(Model()).(board := Preview.Begin(old(board)))
      ensures gen == board.gen && payload == PayloadOf(form) && Faithful(form, payload)
    {
      board := board.(gen := board.gen + 1);
      gen := board.gen;
      board := board.(loading := true, error := None);
      payload := BuildPayload(form);
    }

    /** `goNext`. */
    method GoNext() returns (sent: Option<Payload>)
      modifies this
      ensures sent == Asked(old(Model()).page) && (sent.Some? ==> Faithful(form, sent.value))
      ensures Model() == Wizard(Advanced(old(Model()).page), if sent.Some? then Preview.Begin(old(board)) else old(board))
    {
      sent := None;
      var ok := ValidateStep(currentStep);
      if !ok {
        return;
      }
      if currentStep == 2 {
        currentStep := 3;
        var _, payload := FetchPreview();
        sent := Some(payload);
      } else {
        currentStep := currentStep + 1;
      }
    }

    method OnStep(i: nat)
      modifies this
      ensures Model() == old(Model()).(page := WentTo(old(Model()).page, i))
    {
      if i <= currentStep {
        currentStep := i;
      }
    }

    method OnBack()
      modifies this
      ensures Model() == old(Model()).(page := WentBack(old(Model()).page))
    {
      currentStep := if currentStep > 0 then currentStep - 1 else 0;
    }

    method PreviewReturned(gen: nat, o: Preview.Outcome)
      modifies this
      ensures Model() == old(Model()).(board := Preview.Land(old(board), gen, o))
    {
      if gen != board.gen {
        return;
      }
      match o
      case Yaml(text) => board := board.(yaml := text, loading := false);
      case Failed(message) => board := board.(error := Some(message), loading := false);
    }
  }

  // ---------------------------------------------------------------- the whole system

  datatype System = System(page: Page, session: Preview.Session<Payload>)

  datatype Event =
    | Edits(edit: Edit)
    | Next
    | Back
    | GoTo(i: nat)
    | PreviewReply(request: nat, outcome: Preview.Outcome)
    | EditYaml(text: string)

  function Start(initial: Form): System {
    System(Page(0, initial, {}), Preview.Opened())
  }

  /** Each step's fields can be edited only while that step is on screen; the last step's button closes. */
  ghost function Step(s: System, e: Event): System {
    match e
    case Edits(edit) =>
      if StepOf(edit) != s.page.step then s else s.(page := Edited(s.page, edit))
    case Next =>
      if s.page.step >= 3 then s
      else
        System(Advanced(s.page),
               if Asked(s.page).Some? then Preview.Step(s.session, Preview.Request(Asked(s.page).value)) else s.session)
    case Back =>
      s.(page := WentBack(s.page))
    case GoTo(i) =>
      s.(page := WentTo(s.page, i))
    case PreviewReply(i, o) =>
      s.(session := Preview.Step(s.session, Preview.Reply(i, o)))
    case EditYaml(text) =>
      if s.page.step != 3 then s else s.(session := Preview.Step(s.session, Preview.Edit(text)))
  }

  ghost function Run(initial: Form, es: seq<Event>): System {
    if es == [] then Start(initial) else Step(Run(initial, es[..|es| - 1]), es[|es| - 1])
  }

  /** The request says what some form did that had passed both validated steps. */
  ghost predicate FaithfulToSome(p: Payload) {
    exists f: Form :: Passes(f, 0) && Passes(f, 1) && Faithful(f, p)
  }

  ghost predicate StepsBehindPass(s: System) {
    s.page.step <= 3 && forall j :: 0 <= j < s.page.step ==> Passes(s.page.form, j)
  }

  /** On the review step the newest request is the form as it stands. */
  ghost predicate ReviewIsCurrent(s: System) {
    s.page.step == 3 ==> s.session.flights.sent != [] && s.session.flights.sent[|s.session.flights.sent| - 1] == PayloadOf(s.page.form)
  }

  ghost predicate AllFit(sent: seq<Payload>) {
    forall p :: p in sent ==> Sound(p) && FaithfulToSome(p)
  }

  ghost predicate Inv(s: System) {
    StepsBehindPass(s) && ReviewIsCurrent(s) && Preview.Inv(s.session) && AllFit(s.session.flights.sent)
  }

  /** An edit of one step's fields cannot spoil another step's validation. */
  lemma EditIsLocal(f: Form, e: Edit, j: nat)
    requires StepOf(e) != j
    ensures Passes(Update(f, e), j) <==> Passes(f, j)
  {
    assert forall fault :: Refused(Update(f, e), j, fault) <==> Refused(f, j, fault);
  }

  lemma RequestFits(sent: seq<Payload>, f: Form)
    requires AllFit(sent) && Passes(f, 0) && Passes(f, 1)
    ensures AllFit(sent + [PayloadOf(f)])
  {
    ValidatedFormIsSound(f);
    assert FaithfulToSome(PayloadOf(f));
  }

  lemma NextKeepsPage(s: System)
    requires StepsBehindPass(s) && ReviewIsCurrent(s)
    ensures StepsBehindPass(Step(s, Next)) && ReviewIsCurrent(Step(s, Next))
  {
  }

  lemma NextKeepsSession(s: System)
    requires Inv(s)
    ensures Preview.Inv(Step(s, Next).session) && AllFit(Step(s, Next).session.flights.sent)
  {
    if s.page.step == 2 && Passes(s.page.form, 2) {
      RequestFits(s.session.flights.sent, s.page.form);
      Preview.StepKeepsInv(s.session, Preview.Request(PayloadOf(s.page.form)));
    }
  }

  lemma NextKeepsInv(s: System)
    requires Inv(s)
    ensures Inv(Step(s, Next))
  {
    NextKeepsPage(s);
    NextKeepsSession(s);
  }

  lemma EditKeepsInv(s: System, edit: Edit)
    requires Inv(s)
    ensures Inv(Step(s, Edits(edit)))
  {
    forall j | 0 <= j < s.page.step && StepOf(edit) == s.page.step ensures Passes(Update(s.page.form, edit), j) {
      EditIsLocal(s.page.form, edit, j);
    }
  }

  lemma StepKeepsInv(s: System, e: Event)
    requires Inv(s)
    ensures Inv(Step(s, e))
  {
    match e
    case Edits(edit) => EditKeepsInv(s, edit);
    case Next => NextKeepsInv(s);
    case PreviewReply(i, o) => Preview.StepKeepsInv(s.session, Preview.Reply(i, o));
    case EditYaml(text) => Preview.StepKeepsInv(s.session, Preview.Edit(text));
    case Back =>
    case GoTo(_) =>
  }

  lemma {:induction false} Invariant(initial: Form, es: seq<Event>)
    ensures Inv(Run(initial, es))
  {
    if es != [] {
      Invariant(initial, es[..|es| - 1]);
      StepKeepsInv(Run(initial, es[..|es| - 1]), es[|es| - 1]);
    }
  }

  /** In every reachable state the form passes every step already left behind. */
  lemma ReachedStepsAreValid(initial: Form, es: seq<Event>, j: nat)
    requires j < Run(initial, es).page.step
    ensures Passes(Run(initial, es).page.form, j)
  {
    Invariant(initial, es);
  }

  /** Every preview request of every run is sound, and says what a validated form did. */
  lemma EveryPayloadIsSound(initial: Form, es: seq<Event>, p: Payload)
    requires p in Run(initial, es).session.flights.sent
    ensures Sound(p)
    ensures exists f: Form :: Passes(f, 0) && Passes(f, 1) && Faithful(f, p)
  {
    Invariant(initial, es);
    assert FaithfulToSome(p);
  }

  /** The newest request is for the form as it stands, and the board shows its reply. */
  ghost predicate ReviewIsShown(s: System) {
    var newest := |s.session.flights.sent| - 1;
    && newest >= 0 && Faithful(s.page.form, s.session.flights.sent[newest])
    && newest in s.session.replies && Preview.Shows(s.session, s.session.replies[newest])
  }

  lemma ReviewAsked(s: System)
    requires ReviewIsCurrent(s) && s.page.step == 3
    ensures var sent := s.session.flights.sent; sent != [] && Faithful(s.page.form, sent[|sent| - 1])
  {
    PayloadIsFaithful(s.page.form);
  }

  lemma ReviewShows(s: System)
    requires Inv(s) && s.page.step == 3 && !s.session.board.loading
    ensures ReviewIsShown(s)
  {
    ReviewAsked(s);
    Preview.NewestShown(s.session);
  }

  /** What is reviewed, when it has loaded and is unedited, is the reply for the form as it stands. */
  lemma ReviewShowsCurrentForm(initial: Form, es: seq<Event>)
    requires Run(initial, es).page.step == 3
    requires !Run(initial, es).session.board.loading
    ensures ReviewIsShown(Run(initial, es))
  {
    Invariant(initial, es);
    ReviewShows(Run(initial, es));
  }

  /** What the buttons do: on by one where the step passes, back by one, back to a step; the form stays as it is. */
  lemma Navigation(s: System, i: nat)
    ensures s.page.step < 3 ==>
              && Step(s, Next).page.step == s.page.step + (if Passes(s.page.form, s.page.step) then 1 else 0)
              && forall fault :: fault in Step(s, Next).page.errors <==> Refused(s.page.form, s.page.step, fault)
    ensures s.page.step > 0 ==> Step(s, Back).page.step == s.page.step - 1
    ensures i <= s.page.step ==> Step(s, GoTo(i)).page.step == i
    ensures i > s.page.step ==> Step(s, GoTo(i)) == s
    ensures Step(s, Next).page.form == Step(s, Back).page.form == Step(s, GoTo(i)).page.form == s.page.form
    ensures Step(s, Back).session == Step(s, GoTo(i)).session == s.session
  {
  }

  lemma RunAppend(initial: Form, es: seq<Event>, e: Event)
    ensures Run(initial, es + [e]) == Step(Run(initial, es), e)
  {
    assert (es + [e])[..|es|] == es;
  }

  /** A form that both steps accept reaches the review in three clicks, and its request leaves once. */
  lemma AcceptedFormReachesReview(initial: Form)
    requires Passes(initial, 0) && Passes(initial, 1)
    ensures var s := Run(initial, [Next] + [Next] + [Next]);
            && s.page.step == 3 && s.page.form == initial && s.page.errors == {}
            && |s.session.flights.sent| == 1 && Faithful(initial, s.session.flights.sent[0])
  {
    RunAppend(initial, [], Next);
    assert [] + [Next] == [Next];
    RunAppend(initial, [Next], Next);
    RunAppend(initial, [Next] + [Next], Next);
    AcceptsExactly(initial, 2);
    PayloadIsFaithful(initial);
  }
}
