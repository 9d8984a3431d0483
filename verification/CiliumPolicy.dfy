/**
 The Cilium policy editor: rule rows are edited, validated, compiled to a request payload,
 and separately grouped for the YAML preview.
 */
module CiliumPolicy {
  import opened Lists
  import opened Options
  import opened Text
  import opened Decimal

  datatype Direction = Ingress | Egress
  datatype Action = Allow | Deny
  datatype PeerType = Endpoints | Entities | Cidr
  datatype Label = Label(key: string, value: string)

  datatype RuleRow = RuleRow(
    id: nat,
    direction: Direction,
    peerType: PeerType,
    labels: seq<Label>,
    entities: seq<string>,
    cidrs: string,
    ports: string,
    protocol: string,
    action: Action)

  // ---------------------------------------------------------------- text fields

  /** `split(",")`, `piece` having been read since the last comma. */
  function SplitCommas(s: string, piece: string): (r: seq<string>)
    ensures |r| >= 1
  {
    if s == "" then [piece]
    else if s[0] == ',' then [piece] + SplitCommas(s[1..], "")
    else SplitCommas(s[1..], piece + [s[0]])
  }

  /** The trimmed non-empty pieces of a comma-separated field. */
  function Pieces(s: string): (r: seq<string>) {
    Filter((t: string) => t != "", Map(Trim, SplitCommas(s, "")))
  }

  function Join(ps: seq<string>): string {
    if ps == [] then "" else if |ps| == 1 then ps[0] else ps[0] + "," + Join(ps[1..])
  }

  predicate Piece(p: string) {
    p != "" && Trim(p) == p && ',' !in p
  }

  lemma {:induction false} SplitPlain(p: string, rest: string, piece: string)
    requires ',' !in p
    ensures SplitCommas(p + rest, piece) == SplitCommas(rest, piece + p)
  {
    if p == "" {
      assert p + rest == rest && piece + p == piece;
    } else {
      assert (p + rest)[1..] == p[1..] + rest;
      SplitPlain(p[1..], rest, piece + [p[0]]);
      assert piece + [p[0]] + p[1..] == piece + p;
    }
  }

  lemma {:induction false} SplitJoin(ps: seq<string>)
    requires ps != [] && forall p :: p in ps ==> ',' !in p
    ensures SplitCommas(Join(ps), "") == ps
  {
    assert ps[0] in ps;
    if |ps| == 1 {
      SplitPlain(ps[0], "", "");
      assert ps[0] + "" == ps[0] && "" + ps[0] == ps[0];
    } else {
      var rest := "," + Join(ps[1..]);
      assert ps[0] + "," + Join(ps[1..]) == ps[0] + rest;
      SplitPlain(ps[0], rest, "");
      assert "" + ps[0] == ps[0] && rest[1..] == Join(ps[1..]);
      SplitJoin(ps[1..]);
    }
  }

  /** Pieces joined with commas are read back as they were. */
  lemma PiecesOfJoin(ps: seq<string>)
    requires ps != [] && forall p :: p in ps ==> Piece(p)
    ensures Pieces(Join(ps)) == ps
  {
    SplitJoin(ps);
    assert Map(Trim, ps) == ps by {
      assert forall k :: 0 <= k < |ps| ==> ps[k] in ps;
    }
    FilterAll((t: string) => t != "", ps);
  }

  function LeadingDigits(s: string): (r: string)
    ensures AllDigits(r) && |r| <= |s| && r == s[..|r|]
    ensures |r| < |s| ==> !IsDigit(s[|r|])
  {
    if s != "" && IsDigit(s[0]) then [s[0]] + LeadingDigits(s[1..]) else ""
  }

  /** `parseInt(s, 10)`: white space, a sign, then as many digits as there are; None is NaN. */
  function ParseInt(s: string): Option<int> {
    var t := TrimStart(s);
    var signed := t != "" && (t[0] == '-' || t[0] == '+');
    var digits := LeadingDigits(if signed then t[1..] else t);
    if digits == "" then None
    else Some(if signed && t[0] == '-' then -(Value(digits) as int) else Value(digits))
  }

  // ---------------------------------------------------------------- validation

  /** A lowercase alphanumeric at both ends, dots and dashes between, at most 253 characters. */
  predicate PolicyName(s: string) {
    && 1 <= |s| <= 253
    && (IsLower(s[0]) || IsDigit(s[0])) && (IsLower(s[|s| - 1]) || IsDigit(s[|s| - 1]))
    && forall k :: 0 <= k < |s| ==> IsLower(s[k]) || IsDigit(s[k]) || s[k] == '.' || s[k] == '-'
  }

  /** As the pattern `^[a-z0-9]([a-z0-9.\-]{0,251}[a-z0-9])?$` has it. */
  lemma PolicyNamePattern(s: string)
    ensures var outer := (c: char) => 'a' <= c <= 'z' || '0' <= c <= '9';
            var inner := (c: char) => outer(c) || c == '.' || c == '-';
            PolicyName(s) <==> Enclosed(s, outer, inner, 251)
  {
    var outer := (c: char) => 'a' <= c <= 'z' || '0' <= c <= '9';
    EnclosedAt(s, outer, (c: char) => outer(c) || c == '.' || c == '-', 251);
  }

  predicate PortRefused(piece: string) {
    match ParseInt(piece)
    case None => true
    case Some(n) => n < 1 || n > 65535
  }

  datatype Error =
    | NameRequired
    | NameInvalid
    | NoEntity(rule: nat)
    | NoCidr(rule: nat)
    | InvalidPort(rule: nat, piece: string)

  ghost predicate RowAccepted(r: RuleRow) {
    && (r.peerType == Entities ==> r.entities != [])
    && (r.peerType == Cidr ==> Trim(r.cidrs) != "")
    && (Trim(r.ports) != "" ==> forall p :: p in Pieces(r.ports) ==> !PortRefused(p))
  }

  /** The message is about row `i`, and is the first that applies to it. */
  ghost predicate Explains(e: Error, i: nat, r: RuleRow) {
    if r.peerType == Entities && r.entities == [] then e == NoEntity(i)
    else if r.peerType == Cidr && Trim(r.cidrs) == "" then e == NoCidr(i)
    else
      && Trim(r.ports) != ""
      && exists k :: 0 <= k < |Pieces(r.ports)| && PortRefused(Pieces(r.ports)[k])
           && e == InvalidPort(i, Pieces(r.ports)[k])
           && forall j :: 0 <= j < k ==> !PortRefused(Pieces(r.ports)[j])
  }

  method ValidateForm(name: string, rules: seq<RuleRow>) returns (error: Option<Error>)
    ensures error == None <==>
              Trim(name) != "" && PolicyName(name) && forall r :: r in rules ==> RowAccepted(r)
    ensures Trim(name) == "" ==> error == Some(NameRequired)
    ensures Trim(name) != "" && !PolicyName(name) ==> error == Some(NameInvalid)
    ensures Trim(name) != "" && PolicyName(name) && error.Some? ==>
              exists i :: 0 <= i < |rules| && Explains(error.value, i, rules[i])
                          && forall j :: 0 <= j < i ==> RowAccepted(rules[j])
  {
    if Trim(name) == "" {
      return Some(NameRequired);
    }
    if !PolicyName(name) {
      return Some(NameInvalid);
    }
    for i := 0 to |rules|
      invariant forall j :: 0 <= j < i ==> RowAccepted(rules[j])
    {
      error := ValidateRow(i, rules[i]);
      if error.Some? {
        return;
      }
    }
    error := None;
  }

  method ValidateRow(i: nat, r: RuleRow) returns (error: Option<Error>)
    ensures error == None <==> RowAccepted(r)
    ensures error.Some? ==> Explains(error.value, i, r)
  {
    if r.peerType == Entities && |r.entities| == 0 {
      return Some(NoEntity(i));
    }
    if r.peerType == Cidr && Trim(r.cidrs) == "" {
      return Some(NoCidr(i));
    }
    if Trim(r.ports) != "" {
      var pieces := Pieces(r.ports);
      for k := 0 to |pieces|
        invariant forall j :: 0 <= j < k ==> !PortRefused(pieces[j])
      {
        var n := ParseInt(pieces[k]);
        if n.None? || n.value < 1 || n.value > 65535 {
          assert pieces[k] in pieces && PortRefused(pieces[k]);
          return Some(InvalidPort(i, pieces[k]));
        }
      }
    }
    error := None;
  }

  // ---------------------------------------------------------------- the payload

  datatype Peer =
    | MatchLabels(labels: map<string, string>)
    | ToEntities(entities: seq<string>)
    | ToCidrs(cidrs: seq<string>)

  /** A port of the request; None is the null JSON makes of NaN. */
  datatype PortSpec = PortSpec(port: Option<int>, protocol: string)

  datatype Rule = Rule(peerType: PeerType, action: Action, peer: Peer, ports: Option<seq<PortSpec>>)

  datatype Payload = Payload(
    name: string,
    namespace: string,
    selector: map<string, string>,
    ingress: seq<Rule>,
    egress: seq<Rule>)

  predicate HasKey(l: Label) {
    Trim(l.key) != ""
  }

  /** Trimmed labels with a key, the last of equal keys staying. */
  function LabelMap(labels: seq<Label>): map<string, string> {
    if labels == [] then map[]
    else
      var l := labels[|labels| - 1];
      var m := LabelMap(labels[..|labels| - 1]);
      if HasKey(l) then m[Trim(l.key) := Trim(l.value)] else m
  }

  lemma LabelMapPush(labels: seq<Label>, l: Label)
    ensures LabelMap(labels + [l]) == if HasKey(l) then LabelMap(labels)[Trim(l.key) := Trim(l.value)] else LabelMap(labels)
  {
    assert (labels + [l])[..|labels|] == labels;
  }

  function PortsOf(r: RuleRow): Option<seq<PortSpec>> {
    if Trim(r.ports) == "" then None
    else Some(Map((p: string) => PortSpec(ParseInt(p), r.protocol), Pieces(r.ports)))
  }

  function PeerOf(r: RuleRow): Peer {
    match r.peerType
    case Endpoints => MatchLabels(LabelMap(r.labels))
    case Entities => ToEntities(r.entities)
    case Cidr => ToCidrs(Pieces(r.cidrs))
  }

  function RuleOf(r: RuleRow): Rule {
    Rule(r.peerType, r.action, PeerOf(r), PortsOf(r))
  }

  function Facing(d: Direction): RuleRow -> bool {
    (r: RuleRow) => r.direction == d
  }

  method BuildLabels(labels: seq<Label>) returns (record: map<string, string>)
    ensures record == LabelMap(labels)
  {
    record := map[];
    for i := 0 to |labels|
      invariant record == LabelMap(labels[..i])
    {
      assert labels[..i + 1][..i] == labels[..i];
      if Trim(labels[i].key) != "" {
        record := record[Trim(labels[i].key) := Trim(labels[i].value)];
      }
    }
    assert labels[..|labels|] == labels;
  }

  method BuildPayload(name: string, namespace: string, selectorLabels: seq<Label>, rows: seq<RuleRow>)
    returns (payload: Payload)
    ensures payload == Payload(name, namespace, LabelMap(selectorLabels),
                               Map(RuleOf, Filter(Facing(Ingress), rows)), Map(RuleOf, Filter(Facing(Egress), rows)))
    ensures PayloadSays(payload, selectorLabels, rows)
  {
    var selector := BuildLabels(selectorLabels);
    var ingressRules: seq<Rule> := [];
    var egressRules: seq<Rule> := [];
    for i := 0 to |rows|
      invariant ingressRules == Map(RuleOf, Filter(Facing(Ingress), rows[..i]))
      invariant egressRules == Map(RuleOf, Filter(Facing(Egress), rows[..i]))
    {
      var row := rows[i];
      assert rows[..i + 1][..i] == rows[..i];
      var rule := BuildRule(row);
      if row.direction == Ingress {
        ingressRules := ingressRules + [rule];
      } else {
        egressRules := egressRules + [rule];
      }
    }
    assert rows[..|rows|] == rows;
    payload := Payload(name, namespace, selector, ingressRules, egressRules);
    PayloadSaysItsForm(payload, selectorLabels, rows);
  }

  method BuildRule(row: RuleRow) returns (rule: Rule)
    ensures rule == RuleOf(row) && Says(rule, row)
  {
    RuleSaysItsRow(row);
    var peer;
    if row.peerType == Endpoints {
      var labels := BuildLabels(row.labels);
      peer := MatchLabels(labels);
    } else if row.peerType == Entities {
      peer := ToEntities(row.entities);
    } else {
      peer := ToCidrs(Pieces(row.cidrs));
    }
    var ports := None;
    if Trim(row.ports) != "" {
      ports := Some(Map((p: string) => PortSpec(ParseInt(p), row.protocol), Pieces(row.ports)));
    }
    rule := Rule(row.peerType, row.action, peer, ports);
  }

  /** Ingress and egress split the rows: each row goes to one list, each list keeps their order. */
  lemma DirectionsPartitionRows(rows: seq<RuleRow>)
    ensures var ins, outs := Positions(Facing(Ingress), rows, |rows|), Positions(Facing(Egress), rows, |rows|);
            && TakenFrom(Filter(Facing(Ingress), rows), rows, ins)
            && TakenFrom(Filter(Facing(Egress), rows), rows, outs)
            && forall i :: 0 <= i < |rows| ==> (i in ins <==> rows[i].direction == Ingress) && (i in outs <==> i !in ins)
  {
    FilterKeepsOrder(Facing(Ingress), rows, |rows|);
    FilterKeepsOrder(Facing(Egress), rows, |rows|);
    assert rows[..|rows|] == rows;
    forall i | 0 <= i < |rows| ensures Facing(Ingress)(rows[i]) <==> !Facing(Egress)(rows[i]) {}
  }

  /** An accepted row's ports are numbers in range, one for each piece of its text, in order. */
  lemma AcceptedPortsAreInRange(r: RuleRow)
    requires RowAccepted(r) && RuleOf(r).ports.Some?
    ensures var ports, pieces := RuleOf(r).ports.value, Pieces(r.ports);
            && |ports| == |pieces|
            && forall k :: 0 <= k < |ports| ==>
                 && ports[k].port == ParseInt(pieces[k]) && ports[k].port.Some? && ports[k].protocol == r.protocol
                 && 1 <= ports[k].port.value <= 65535
  {
    forall k | 0 <= k < |Pieces(r.ports)| ensures !PortRefused(Pieces(r.ports)[k]) {
      assert Pieces(r.ports)[k] in Pieces(r.ports);
    }
  }

  /** So a form that validates sends only port numbers in range. */
  lemma AcceptedPayloadPorts(rows: seq<RuleRow>, d: Direction, rule: Rule, spec: PortSpec)
    requires forall r :: r in rows ==> RowAccepted(r)
    requires rule in Map(RuleOf, Filter(Facing(d), rows)) && rule.ports.Some? && spec in rule.ports.value
    ensures spec.port.Some? && 1 <= spec.port.value <= 65535
  {
    var k :| 0 <= k < |Filter(Facing(d), rows)| && RuleOf(Filter(Facing(d), rows)[k]) == rule;
    var origin := Positions(Facing(d), rows, |rows|);
    FilterKeepsOrder(Facing(d), rows, |rows|);
    assert rows[..|rows|] == rows;
    var r := rows[origin[k]];
    assert r in rows;
    AcceptedPortsAreInRange(r);
  }

  // ---------------------------------------------------------------- what a rule says of its row

  /** A comma-separated field as typed: each text with white space around it, however much. */
  ghost predicate Spaced(raws: seq<string>, texts: seq<string>) {
    && |raws| == |texts|
    && forall k :: 0 <= k < |raws| ==>
         ',' !in raws[k] && Bare(texts[k]) && exists a, b :: AllSpace(a) && AllSpace(b) && raws[k] == a + texts[k] + b
  }

  /** Read back, such a field gives its texts in order, the empty ones left out. */
  lemma PiecesOfField(raws: seq<string>, texts: seq<string>)
    requires raws != [] && Spaced(raws, texts)
    ensures Pieces(Join(raws)) == Filter((t: string) => t != "", texts)
  {
    SplitJoin(raws);
    forall k | 0 <= k < |raws| ensures Trim(raws[k]) == texts[k] {
      var a, b :| AllSpace(a) && AllSpace(b) && raws[k] == a + texts[k] + b;
      TrimExactly(a, texts[k], b);
    }
    assert Map(Trim, raws) == texts;
  }

  /** Label `i` has a key, and is the last to have it. */
  ghost predicate LastOfKey(labels: seq<Label>, i: int) {
    && 0 <= i < |labels| && Trim(labels[i].key) != ""
    && forall j :: i < j < |labels| ==> Trim(labels[j].key) != Trim(labels[i].key)
  }

  /** The map holds, for each key with outer white space off, the value of its last label, likewise, and nothing else. */
  ghost predicate MapsLabels(m: map<string, string>, labels: seq<Label>) {
    && (forall i :: LastOfKey(labels, i) ==> Trim(labels[i].key) in m && m[Trim(labels[i].key)] == Trim(labels[i].value))
    && (forall k :: k in m ==> k != "" && KeyOccurs(labels, k))
  }

  lemma LabelMapMaps(labels: seq<Label>)
    ensures MapsLabels(LabelMap(labels), labels)
  {
    forall i | LastOfKey(labels, i)
      ensures Trim(labels[i].key) in LabelMap(labels) && LabelMap(labels)[Trim(labels[i].key)] == Trim(labels[i].value)
    {
      LabelMapKeepsLast(labels, i);
    }
    forall k | k in LabelMap(labels) ensures k != "" && KeyOccurs(labels, k) {
      LabelMapKeys(labels, k);
    }
  }

  /** The last label of a key, trimmed, is in the map with its value, trimmed; and nothing else is. */
  lemma {:induction false} LabelMapKeepsLast(labels: seq<Label>, i: nat)
    requires LastOfKey(labels, i)
    ensures Trim(labels[i].key) in LabelMap(labels) && LabelMap(labels)[Trim(labels[i].key)] == Trim(labels[i].value)
  {
    var before, l := labels[..|labels| - 1], labels[|labels| - 1];
    LabelMapPush(before, l);
    assert labels == before + [l];
    if i < |labels| - 1 {
      LabelMapKeepsLast(before, i);
    }
  }

  ghost predicate KeyOccurs(labels: seq<Label>, k: string) {
    exists i :: 0 <= i < |labels| && Trim(labels[i].key) == k
  }

  lemma KeyOccursPush(labels: seq<Label>, l: Label, k: string)
    ensures KeyOccurs(labels, k) ==> KeyOccurs(labels + [l], k)
    ensures Trim(l.key) == k ==> KeyOccurs(labels + [l], k)
  {
    if i :| 0 <= i < |labels| && Trim(labels[i].key) == k {
      assert (labels + [l])[i] == labels[i];
    }
    assert (labels + [l])[|labels|] == l;
  }

  lemma {:induction false} LabelMapKeys(labels: seq<Label>, k: string)
    requires k in LabelMap(labels)
    ensures k != "" && KeyOccurs(labels, k)
  {
    var before, l := labels[..|labels| - 1], labels[|labels| - 1];
    LabelMapPush(before, l);
    assert labels == before + [l];
    KeyOccursPush(before, l, k);
    if k in LabelMap(before) {
      LabelMapKeys(before, k);
    }
  }

  /**
   A rule carries its row: direction apart, its kind of peer and its action; the entities
   themselves, the CIDRs as typed, or the labels by key; and where ports are typed one for each
   text, with the row's protocol.
   */
  ghost predicate Says(rule: Rule, r: RuleRow) {
    && rule.peerType == r.peerType && rule.action == r.action
    && (match r.peerType
        case Entities => rule.peer == ToEntities(r.entities)
        case Cidr =>
          && rule.peer.ToCidrs?
          && forall raws, texts :: raws != [] && Spaced(raws, texts) && r.cidrs == Join(raws) ==>
               rule.peer.cidrs == Filter((t: string) => t != "", texts)
        case Endpoints => rule.peer.MatchLabels? && MapsLabels(rule.peer.labels, r.labels))
    && (AllSpace(r.ports) <==> rule.ports == None)
    && (forall raws, texts :: raws != [] && Spaced(raws, texts) && r.ports == Join(raws) && rule.ports.Some? ==>
          var shown := Filter((t: string) => t != "", texts);
          && |rule.ports.value| == |shown|
          && forall k :: 0 <= k < |shown| ==>
               rule.ports.value[k].port == ParseInt(shown[k]) && rule.ports.value[k].protocol == r.protocol)
  }

  lemma BlankIsAllSpace(s: string)
    ensures Trim(s) == "" <==> AllSpace(s)
  {
    var a, b := TrimParts(s);
    if AllSpace(s) {
      TrimExactly(s, "", "");
      assert s + "" + "" == s;
    }
  }

  lemma RuleSaysItsRow(r: RuleRow)
    ensures Says(RuleOf(r), r)
  {
    BlankIsAllSpace(r.ports);
    forall raws, texts | raws != [] && Spaced(raws, texts) && (r.cidrs == Join(raws) || r.ports == Join(raws))
      ensures Pieces(Join(raws)) == Filter((t: string) => t != "", texts)
    {
      PiecesOfField(raws, texts);
    }
    LabelMapMaps(r.labels);
  }

  /** The rules of a direction say, one by one and in order, what the rows of that direction do. */
  ghost predicate RulesSay(rules: seq<Rule>, rows: seq<RuleRow>, d: Direction) {
    var origin := Positions(Facing(d), rows, |rows|);
    && (forall i :: 0 <= i < |rows| ==> (i in origin <==> rows[i].direction == d))
    && |rules| == |origin|
    && forall k :: 0 <= k < |origin| ==> origin[k] < |rows| && Says(rules[k], rows[origin[k]])
  }

  ghost predicate PayloadSays(p: Payload, selectorLabels: seq<Label>, rows: seq<RuleRow>) {
    MapsLabels(p.selector, selectorLabels) && RulesSay(p.ingress, rows, Ingress) && RulesSay(p.egress, rows, Egress)
  }

  lemma PayloadSaysItsForm(p: Payload, selectorLabels: seq<Label>, rows: seq<RuleRow>)
    requires p.selector == LabelMap(selectorLabels)
    requires p.ingress == Map(RuleOf, Filter(Facing(Ingress), rows))
    requires p.egress == Map(RuleOf, Filter(Facing(Egress), rows))
    ensures PayloadSays(p, selectorLabels, rows)
  {
    LabelMapMaps(selectorLabels);
    RulesSayTheirRows(rows, Ingress);
    RulesSayTheirRows(rows, Egress);
  }

  lemma RulesSayTheirRows(rows: seq<RuleRow>, d: Direction)
    ensures RulesSay(Map(RuleOf, Filter(Facing(d), rows)), rows, d)
  {
    FilterKeepsOrder(Facing(d), rows, |rows|);
    assert rows[..|rows|] == rows;
    var kept, origin := Filter(Facing(d), rows), Positions(Facing(d), rows, |rows|);
    forall k | 0 <= k < |origin| ensures Says(RuleOf(kept[k]), rows[origin[k]]) {
      RuleSaysItsRow(kept[k]);
    }
  }

  // ---------------------------------------------------------------- the preview

  /** What the preview renders of a row: its peer's kind and lists as typed, and its ports. */
  datatype Shown = Shown(
    peerType: PeerType,
    labels: seq<Label>,
    entities: seq<string>,
    cidrs: seq<string>,
    ports: seq<string>,
    protocol: string)

  function ShownOf(r: RuleRow): Shown {
    Shown(r.peerType,
          if r.peerType == Endpoints then Filter(HasKey, r.labels) else [],
          if r.peerType == Entities then r.entities else [],
          if r.peerType == Cidr then Pieces(r.cidrs) else [],
          if Trim(r.ports) == "" then [] else Pieces(r.ports),
          r.protocol)
  }

  function Acting(a: Action): RuleRow -> bool {
    (r: RuleRow) => r.action == a
  }

  /** The rows under one of the four keys `ingress`, `ingressDeny`, `egress`, `egressDeny`. */
  function Group(rows: seq<RuleRow>, d: Direction, a: Action): seq<RuleRow> {
    Filter(Acting(a), Filter(Facing(d), rows))
  }

  function Belongs(d: Direction, a: Action): RuleRow -> bool {
    (r: RuleRow) => r.direction == d && r.action == a
  }

  /** Each of the four groups holds exactly its own rows, in order. */
  lemma FourGroups(rows: seq<RuleRow>, d: Direction, a: Action)
    ensures TakenFrom(Group(rows, d, a), rows, Positions(Belongs(d, a), rows, |rows|))
  {
    FilterTwice(Facing(d), Acting(a), Belongs(d, a), rows);
    FilterKeepsOrder(Belongs(d, a), rows, |rows|);
    assert rows[..|rows|] == rows;
  }

  /** The entry lists what its row's peer type calls for: the labels with a key, the entities, or the CIDRs; and the ports. */
  ghost predicate Renders(shown: Shown, r: RuleRow) {
    && shown.peerType == r.peerType && shown.protocol == r.protocol
    && (if r.peerType == Endpoints then
          TakenFrom(shown.labels, r.labels, Positions((l: Label) => !AllSpace(l.key), r.labels, |r.labels|))
        else shown.labels == [])
    && shown.entities == (if r.peerType == Entities then r.entities else [])
    && (if r.peerType == Cidr then
          forall raws, texts :: raws != [] && Spaced(raws, texts) && r.cidrs == Join(raws) ==>
            shown.cidrs == Filter((t: string) => t != "", texts)
        else shown.cidrs == [])
    && forall raws, texts :: raws != [] && Spaced(raws, texts) && r.ports == Join(raws) ==>
         shown.ports == Filter((t: string) => t != "", texts)
  }

  lemma {:induction false} SamePositions<T(!new)>(p: T -> bool, q: T -> bool, s: seq<T>, n: nat)
    requires n <= |s| && forall x :: p(x) <==> q(x)
    ensures Positions(p, s, n) == Positions(q, s, n)
  {
    if n > 0 {
      SamePositions(p, q, s, n - 1);
    }
  }

  lemma LabelsAreShown(labels: seq<Label>)
    ensures TakenFrom(Filter(HasKey, labels), labels, Positions((l: Label) => !AllSpace(l.key), labels, |labels|))
  {
    var keyed := (l: Label) => !AllSpace(l.key);
    forall l ensures HasKey(l) <==> keyed(l) {
      BlankIsAllSpace(l.key);
    }
    SamePositions(HasKey, keyed, labels, |labels|);
    FilterKeepsOrder(HasKey, labels, |labels|);
    assert labels[..|labels|] == labels;
  }

  lemma BlankFieldHasNoPieces(s: string)
    requires AllSpace(s)
    ensures Pieces(s) == []
  {
    assert ',' !in s && s == s + "" + "" && AllSpace("");
    PiecesOfField([s], [""]);
    assert [""][..0] == [];
  }

  lemma RowIsRendered(r: RuleRow)
    ensures Renders(ShownOf(r), r)
  {
    LabelsAreShown(r.labels);
    BlankIsAllSpace(r.ports);
    if AllSpace(r.ports) {
      BlankFieldHasNoPieces(r.ports);
    }
    forall raws, texts | raws != [] && Spaced(raws, texts) && (r.cidrs == Join(raws) || r.ports == Join(raws))
      ensures Pieces(Join(raws)) == Filter((t: string) => t != "", texts)
    {
      PiecesOfField(raws, texts);
    }
  }

  /** The k-th entry shown renders the k-th of the rows, as listed, with that direction and action. */
  ghost predicate GroupShown(shown: seq<Shown>, rows: seq<RuleRow>, d: Direction, a: Action) {
    var origin := Positions(Belongs(d, a), rows, |rows|);
    && (forall i :: 0 <= i < |rows| ==> (i in origin <==> rows[i].direction == d && rows[i].action == a))
    && |shown| == |origin|
    && forall k :: 0 <= k < |origin| ==> origin[k] < |rows| && Renders(shown[k], rows[origin[k]])
  }

  lemma GroupIsShown(rows: seq<RuleRow>, d: Direction, a: Action)
    ensures GroupShown(Map(ShownOf, Group(rows, d, a)), rows, d, a)
  {
    FourGroups(rows, d, a);
    var origin, group := Positions(Belongs(d, a), rows, |rows|), Group(rows, d, a);
    forall k | 0 <= k < |origin| ensures Renders(ShownOf(group[k]), rows[origin[k]]) {
      RowIsRendered(group[k]);
    }
  }

  method PreviewGroups(rows: seq<RuleRow>)
    returns (ingressAllow: seq<Shown>, ingressDeny: seq<Shown>, egressAllow: seq<Shown>, egressDeny: seq<Shown>)
    ensures GroupShown(ingressAllow, rows, Ingress, Allow) && GroupShown(ingressDeny, rows, Ingress, Deny)
    ensures GroupShown(egressAllow, rows, Egress, Allow) && GroupShown(egressDeny, rows, Egress, Deny)
    ensures |ingressAllow| + |ingressDeny| + |egressAllow| + |egressDeny| == |rows|
  {
    var ingress := Filter(Facing(Ingress), rows);
    var egress := Filter(Facing(Egress), rows);
    ingressAllow := RenderRules(Filter(Acting(Allow), ingress));
    ingressDeny := RenderRules(Filter(Acting(Deny), ingress));
    egressAllow := RenderRules(Filter(Acting(Allow), egress));
    egressDeny := RenderRules(Filter(Acting(Deny), egress));
    GroupIsShown(rows, Ingress, Allow);
    GroupIsShown(rows, Ingress, Deny);
    GroupIsShown(rows, Egress, Allow);
    GroupIsShown(rows, Egress, Deny);
    FilterCounts(Facing(Ingress), Facing(Egress), rows);
    FilterCounts(Acting(Allow), Acting(Deny), ingress);
    FilterCounts(Acting(Allow), Acting(Deny), egress);
  }

  method RenderRules(rules: seq<RuleRow>) returns (shown: seq<Shown>)
    ensures shown == Map(ShownOf, rules)
  {
    shown := [];
    for i := 0 to |rules|
      invariant shown == Map(ShownOf, rules[..i])
    {
      shown := shown + [ShownOf(rules[i])];
    }
    assert rules[..|rules|] == rules;
  }

  /** Rule and preview entry describe one row alike: the same kind of peer, with the same content. */
  ghost predicate Matches(rule: Rule, shown: Shown) {
    && rule.peerType == shown.peerType
    && (match shown.peerType
        case Endpoints => rule.peer.MatchLabels? && rule.peer.labels == LabelMap(shown.labels)
        case Entities => rule.peer.ToEntities? && rule.peer.entities == shown.entities
        case Cidr => rule.peer.ToCidrs? && rule.peer.cidrs == shown.cidrs)
    && (rule.ports.None? ==> shown.ports == [])
    && (rule.ports.Some? ==>
          && |rule.ports.value| == |shown.ports|
          && forall k :: 0 <= k < |shown.ports| ==>
               rule.ports.value[k] == PortSpec(ParseInt(shown.ports[k]), shown.protocol))
  }

  lemma RowMatches(r: RuleRow)
    ensures Matches(RuleOf(r), ShownOf(r))
  {
    KeylessLabelsAreDropped(r.labels);
  }

  lemma {:induction false} KeylessLabelsAreDropped(labels: seq<Label>)
    ensures LabelMap(Filter(HasKey, labels)) == LabelMap(labels)
  {
    if labels != [] {
      var before, l := labels[..|labels| - 1], labels[|labels| - 1];
      KeylessLabelsAreDropped(before);
      LabelMapPush(Filter(HasKey, before), l);
      LabelMapPush(before, l);
      assert labels == before + [l];
      assert Filter(HasKey, labels) == if HasKey(l) then Filter(HasKey, before) + [l] else Filter(HasKey, before);
    }
  }

  /** The lines of a label list as a map, the last of equal keys staying. */
  function LineMap(labels: seq<Label>): map<string, string> {
    if labels == [] then map[]
    else LineMap(labels[..|labels| - 1])[labels[|labels| - 1].key := labels[|labels| - 1].value]
  }

  lemma {:induction false} TrimmedLines(labels: seq<Label>)
    requires forall l :: l in labels ==> HasKey(l)
    requires forall k :: k in LineMap(labels) ==> Trim(k) == k
    ensures LabelMap(labels).Keys == LineMap(labels).Keys
    ensures forall k :: k in LabelMap(labels) ==> LabelMap(labels)[k] == Trim(LineMap(labels)[k])
  {
    if labels != [] {
      var before, l := labels[..|labels| - 1], labels[|labels| - 1];
      TrimmedLines(before);
      LabelMapPush(before, l);
      assert labels == before + [l] && l in labels;
      assert l.key in LineMap(labels);
    }
  }

  lemma {:induction false} SentLabelsAreTrimmed(labels: seq<Label>, k: string)
    requires k in LabelMap(labels)
    ensures Trim(k) == k && Trim(LabelMap(labels)[k]) == LabelMap(labels)[k]
  {
    var l := labels[|labels| - 1];
    TrimTwice(l.key);
    TrimTwice(l.value);
    if k != Trim(l.key) || !HasKey(l) {
      SentLabelsAreTrimmed(labels[..|labels| - 1], k);
    }
  }

  /** The label lines shown are the labels sent if and only if they are typed without outer white space. */
  lemma LabelLinesAgreeExactly(labels: seq<Label>)
    ensures var lines := LineMap(Filter(HasKey, labels));
            LabelMap(labels) == lines <==> forall k :: k in lines ==> Trim(k) == k && Trim(lines[k]) == lines[k]
  {
    var shown := Filter(HasKey, labels);
    KeylessLabelsAreDropped(labels);
    forall l | l in shown ensures HasKey(l) {
      FilterMembers(HasKey, labels, l);
    }
    if LabelMap(labels) == LineMap(shown) {
      forall k | k in LineMap(shown) ensures Trim(k) == k && Trim(LineMap(shown)[k]) == LineMap(shown)[k] {
        SentLabelsAreTrimmed(labels, k);
      }
    }
    if forall k :: k in LineMap(shown) ==> Trim(k) == k && Trim(LineMap(shown)[k]) == LineMap(shown)[k] {
      TrimmedLines(shown);
    }
  }

  /**
   Filtering the payload's list of a direction by an action gives the preview's group under
   that key, rule for rule and in the same order.
   */
  lemma PreviewAgreesWithPayload(rows: seq<RuleRow>, d: Direction, a: Action)
    ensures var rules := Filter((r: Rule) => r.action == a, Map(RuleOf, Filter(Facing(d), rows)));
            var shown := Map(ShownOf, Group(rows, d, a));
            |rules| == |shown| && forall k :: 0 <= k < |rules| ==> Matches(rules[k], shown[k])
  {
    var q := (r: Rule) => r.action == a;
    var facing := Filter(Facing(d), rows);
    var group := Group(rows, d, a);
    FilterMap(RuleOf, q, Acting(a), facing);
    assert Filter(q, Map(RuleOf, facing)) == Map(RuleOf, group);
    forall k | 0 <= k < |group| ensures Matches(Map(RuleOf, group)[k], Map(ShownOf, group)[k]) {
      RowMatches(group[k]);
    }
  }

  /** The preview's port text is the payload's number if and only if it is in plain decimal. */
  lemma PortTextAgreesExactly(piece: string)
    requires !PortRefused(piece)
    ensures Dec(ParseInt(piece).value) == piece <==> Canonical(piece)
  {
    if Canonical(piece) {
      DigitsOnly(piece);
      ValueDec(piece);
    } else {
      DecValue(ParseInt(piece).value);
    }
  }

  lemma {:induction false} LeadingDigitsOf(d: string, rest: string)
    requires AllDigits(d) && (rest == "" || !IsDigit(rest[0]))
    ensures LeadingDigits(d + rest) == d
  {
    if d == "" {
      assert d + rest == rest;
    } else {
      LeadingDigitsOf(d[1..], rest);
      assert (d + rest)[1..] == d[1..] + rest;
    }
  }

  /** White space in front is skipped. */
  lemma ParseIntSkips(a: string, s: string)
    requires AllSpace(a)
    ensures ParseInt(a + s) == ParseInt(s)
  {
    TrimStartSkips(a, s);
  }

  /** A number is read up to the first character that is no digit. */
  lemma ParseIntReads(d: string, rest: string)
    requires d != "" && AllDigits(d) && (rest == "" || !IsDigit(rest[0]))
    ensures ParseInt(d + rest) == Some(Value(d))
  {
    assert TrimStart(d + rest) == d + rest;
    LeadingDigitsOf(d, rest);
  }

  /** One sign in front of it counts; a sign with no number behind it is none. */
  lemma ParseIntReadsSign(sign: char, t: string)
    requires sign == '-' || sign == '+'
    ensures t != "" && IsDigit(t[0]) ==>
              ParseInt(t).Some? && ParseInt([sign] + t) == Some(if sign == '-' then -ParseInt(t).value else ParseInt(t).value)
    ensures t == "" || !IsDigit(t[0]) ==> ParseInt([sign] + t) == None
  {
    var signed := [sign] + t;
    assert signed[0] == sign && signed[1..] == t;
  }

  /** Where no digit comes first there is no number. */
  lemma ParseIntRefuses(a: string, rest: string)
    requires AllSpace(a) && (rest == "" || !(IsDigit(rest[0]) || IsSpace(rest[0]) || rest[0] == '-' || rest[0] == '+'))
    ensures ParseInt(a + rest) == None
  {
    TrimStartSkips(a, rest);
    assert TrimStart(rest) == rest;
  }

  lemma DigitsArePiece(t: string)
    requires t != "" && AllDigits(t)
    ensures Piece(t)
  {
    assert t[0] in t && t[|t| - 1] in t;
    TrimExactly("", t, "");
    assert "" + t + "" == t;
  }

  lemma GoodPort(n: nat)
    requires 1 <= n <= 65535
    ensures Piece(Dec(n)) && !PortRefused(Dec(n))
  {
    DecValue(n);
    DigitsArePiece(Dec(n));
    DigitsOnly(Dec(n));
  }

  /** A row is accepted whose peer is filled in and whose ports are numbers in range in plain decimal. */
  lemma GoodRowsAreAccepted(r: RuleRow, numbers: seq<nat>)
    requires r.peerType == Entities ==> r.entities != []
    requires r.peerType == Cidr ==> !AllSpace(r.cidrs)
    requires numbers != [] && r.ports == Join(Map(Dec, numbers)) && forall k :: 0 <= k < |numbers| ==> 1 <= numbers[k] <= 65535
    ensures RowAccepted(r)
  {
    BlankIsAllSpace(r.cidrs);
    GoodPortsAreRead(numbers);
  }

  lemma GoodPortsAreRead(numbers: seq<nat>)
    requires numbers != [] && forall k :: 0 <= k < |numbers| ==> 1 <= numbers[k] <= 65535
    ensures forall p :: p in Pieces(Join(Map(Dec, numbers))) ==> !PortRefused(p)
  {
    var texts := Map(Dec, numbers);
    forall t | t in texts ensures Piece(t) && !PortRefused(t) {
      var k :| 0 <= k < |texts| && texts[k] == t;
      GoodPort(numbers[k]);
    }
    PiecesOfJoin(texts);
  }

  lemma DigitsOnly(s: string)
    requires s != "" && AllDigits(s)
    ensures ParseInt(s) == Some(Value(s))
  {
    var digits := LeadingDigits(s);
    assert TrimStart(s) == s;
    assert |digits| == |s| && s[..|s|] == s;
  }

  // ---------------------------------------------------------------- editing rows

  datatype Editor = Editor(nextRuleId: nat, rules: seq<RuleRow>)

  function NewRule(id: nat): RuleRow {
    RuleRow(id, Ingress, Endpoints, [Label("", "")], [], "", "", "TCP", Allow)
  }

  /** The fields `updateRule` may be given; none of the editor's inputs hands in an id. */
  datatype Update =
    | SetDirection(direction: Direction) | SetPeerType(peerType: PeerType) | SetLabels(labels: seq<Label>)
    | SetEntities(entities: seq<string>) | SetCidrs(cidrs: string) | SetPorts(ports: string)
    | SetProtocol(protocol: string) | SetAction(action: Action)

  function Updated(r: RuleRow, u: Update): (t: RuleRow)
    ensures t.id == r.id
  {
    match u
    case SetDirection(d) => r.(direction := d)
    case SetPeerType(p) => r.(peerType := p)
    case SetLabels(labels) => r.(labels := labels)
    case SetEntities(entities) => r.(entities := entities)
    case SetCidrs(cidrs) => r.(cidrs := cidrs)
    case SetPorts(ports) => r.(ports := ports)
    case SetProtocol(protocol) => r.(protocol := protocol)
    case SetAction(a) => r.(action := a)
  }

  /** An update sets its own field and no other. */
  lemma UpdateSetsOneField(r: RuleRow, u: Update)
    ensures var t := Updated(r, u);
            && t.direction == (if u.SetDirection? then u.direction else r.direction)
            && t.peerType == (if u.SetPeerType? then u.peerType else r.peerType)
            && t.labels == (if u.SetLabels? then u.labels else r.labels)
            && t.entities == (if u.SetEntities? then u.entities else r.entities)
            && t.cidrs == (if u.SetCidrs? then u.cidrs else r.cidrs)
            && t.ports == (if u.SetPorts? then u.ports else r.ports)
            && t.protocol == (if u.SetProtocol? then u.protocol else r.protocol)
            && t.action == (if u.SetAction? then u.action else r.action)
            && t.id == r.id
  {
  }

  /** `Render` is a render of the island: it builds the initial row anew, and throws it away. */
  datatype Edit = Add | Remove(id: nat) | Change(id: nat, update: Update) | Render

  function Apply(e: Editor, edit: Edit): Editor {
    match edit
    case Add => Editor(e.nextRuleId + 1, e.rules + [NewRule(e.nextRuleId)])
    case Remove(id) =>
      if |e.rules| <= 1 then e else e.(rules := Filter((r: RuleRow) => r.id != id, e.rules))
    case Change(id, u) =>
      e.(rules := Map((r: RuleRow) => if r.id == id then Updated(r, u) else r, e.rules))
    case Render => e.(nextRuleId := e.nextRuleId + 1)
  }

  /** Some row is left to edit, and ids tell the rows apart. */
  ghost predicate Editable(e: Editor) {
    && e.rules != []
    && (forall k :: 0 <= k < |e.rules| ==> e.rules[k].id < e.nextRuleId)
    && (forall j, k :: 0 <= j < k < |e.rules| ==> e.rules[j].id < e.rules[k].id)
  }

  /** A removal from a list of two or more takes out its row and no other. */
  lemma RemoveTakesOneRow(e: Editor, id: nat)
    requires Editable(e) && |e.rules| > 1
    ensures Editable(Apply(e, Remove(id)))
    ensures |Apply(e, Remove(id)).rules| >= |e.rules| - 1
    ensures forall r :: r in Apply(e, Remove(id)).rules <==> r in e.rules && r.id != id
  {
    var keep := (r: RuleRow) => r.id != id;
    forall r ensures r in Filter(keep, e.rules) <==> r in e.rules && r.id != id {
      FilterMembers(keep, e.rules, r);
    }
    RemovesAtMostOne(e.rules, id);
    KeptStayOrdered(e.rules, keep);
    var kept := Filter(keep, e.rules);
    assert kept != [];
    forall k | 0 <= k < |kept| ensures kept[k].id < e.nextRuleId {
      assert kept[k] in kept;
    }
  }

  lemma KeptStayOrdered(rules: seq<RuleRow>, keep: RuleRow -> bool)
    requires forall j, k :: 0 <= j < k < |rules| ==> rules[j].id < rules[k].id
    ensures var kept := Filter(keep, rules);
            forall j, k :: 0 <= j < k < |kept| ==> kept[j].id < kept[k].id
  {
    FilterKeepsOrder(keep, rules, |rules|);
    assert rules[..|rules|] == rules;
  }

  /** An update changes its own row and leaves every other as it was. */
  lemma ChangeTouchesOneRow(e: Editor, id: nat, u: Update)
    requires Editable(e)
    ensures Editable(Apply(e, Change(id, u)))
    ensures |Apply(e, Change(id, u)).rules| == |e.rules|
    ensures forall k :: 0 <= k < |e.rules| ==>
              Apply(e, Change(id, u)).rules[k] == if e.rules[k].id == id then Updated(e.rules[k], u) else e.rules[k]
  {
  }

  /** Adding puts a blank row behind the others, under an id none of them has; a render changes no row. */
  lemma AddAppendsBlankRow(e: Editor)
    requires Editable(e)
    ensures var t := Apply(e, Add);
            && |t.rules| == |e.rules| + 1 && t.rules[..|e.rules|] == e.rules
            && var r := t.rules[|e.rules|];
               && (forall q :: q in e.rules ==> q.id != r.id)
               && r.direction == Ingress && r.action == Allow && r.peerType == Endpoints && r.protocol == "TCP"
               && r.labels == [Label("", "")] && r.entities == [] && r.cidrs == "" && r.ports == ""
    ensures Apply(e, Render).rules == e.rules
    ensures forall id :: |e.rules| == 1 ==> Apply(e, Remove(id)) == e
  {
  }

  /** No edit empties the list or makes two ids equal. */
  lemma EditsKeepRows(e: Editor, edit: Edit)
    requires Editable(e)
    ensures Editable(Apply(e, edit))
  {
    match edit
    case Add =>
    case Render =>
    case Remove(id) => if |e.rules| > 1 { RemoveTakesOneRow(e, id); }
    case Change(id, u) => ChangeTouchesOneRow(e, id, u);
  }

  lemma {:induction false} RemovesAtMostOne(rules: seq<RuleRow>, id: nat)
    requires forall j, k :: 0 <= j < k < |rules| ==> rules[j].id < rules[k].id
    ensures |Filter((r: RuleRow) => r.id != id, rules)| >= |rules| - 1
    ensures (forall r :: r in rules ==> r.id != id) ==> |Filter((r: RuleRow) => r.id != id, rules)| == |rules|
  {
    if rules != [] {
      var n := |rules| - 1;
      RemovesAtMostOne(rules[..n], id);
      assert forall r :: r in rules[..n] ==> r in rules;
      if rules[n].id == id {
        assert forall r :: r in rules[..n] ==> r.id < id;
      }
    }
  }

  /** The editor mounted when the counter stood at `first`. */
  function Run(first: nat, edits: seq<Edit>): Editor {
    if edits == [] then Editor(first + 1, [NewRule(first)])
    else Apply(Run(first, edits[..|edits| - 1]), edits[|edits| - 1])
  }

  /** At every moment some row is left, and no two rows share an id. */
  lemma {:induction false} AlwaysEditable(first: nat, edits: seq<Edit>)
    ensures Editable(Run(first, edits))
  {
    if edits != [] {
      AlwaysEditable(first, edits[..|edits| - 1]);
      EditsKeepRows(Run(first, edits[..|edits| - 1]), edits[|edits| - 1]);
    }
  }
}
