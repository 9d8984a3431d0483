/**
 The config-map wizard: rows of keys and values, one validation loop, and a payload map
 whose entries must be exactly the rows the user filled in.
 */
module ConfigMapWizard {
  import opened Options
  import opened Text
  import opened WizardRules
  import Preview

  datatype Row = Row(key: string, value: string)

  datatype Form = Form(name: string, namespace: string, entries: seq<Row>)

  predicate Blank(r: Row) {
    r.key == "" && r.value == ""
  }

  const NEW_ROW := Row("", "")

  // ---------------------------------------------------------------- edits

  datatype Edit =
    | SetName(name: string)
    | SetNamespace(namespace: string)
    | SetKey(index: nat, key: string)
    | SetValue(index: nat, value: string)
    | AddRow
    | RemoveRow(index: nat)

  /** An edit of a row that is not on screen cannot happen. */
  predicate Offered(f: Form, e: Edit) {
    match e
    case SetKey(i, _) => i < |f.entries|
    case SetValue(i, _) => i < |f.entries|
    case RemoveRow(i) => i < |f.entries|
    case _ => true
  }

  function Update(f: Form, e: Edit): Form
    requires Offered(f, e)
  {
    match e
    case SetName(name) => f.(name := name)
    case SetNamespace(namespace) => f.(namespace := namespace)
    case SetKey(i, key) => f.(entries := f.entries[i := f.entries[i].(key := key)])
    case SetValue(i, value) => f.(entries := f.entries[i := f.entries[i].(value := value)])
    case AddRow => f.(entries := f.entries + [NEW_ROW])
    case RemoveRow(i) =>
      var rest := f.entries[..i] + f.entries[i + 1..];
      f.(entries := if |rest| > 0 then rest else [NEW_ROW])
  }

  /** An edit sets its own field of its own row, adds a blank row at the end or takes one row out, and no more. */
  lemma EditSetsItsField(f: Form, e: Edit)
    requires Offered(f, e)
    ensures var g := Update(f, e);
            && g.name == (if e.SetName? then e.name else f.name)
            && g.namespace == (if e.SetNamespace? then e.namespace else f.namespace)
            && (e.SetName? || e.SetNamespace? ==> g.entries == f.entries)
            && (e.SetKey? || e.SetValue? ==>
                  |g.entries| == |f.entries| && forall k :: 0 <= k < |f.entries| ==>
                    && g.entries[k].key == (if e.SetKey? && k == e.index then e.key else f.entries[k].key)
                    && g.entries[k].value == (if e.SetValue? && k == e.index then e.value else f.entries[k].value))
            && (e.AddRow? ==> g.entries == f.entries + [Row("", "")])
            && (e.RemoveRow? && |f.entries| == 1 ==> g.entries == [Row("", "")])
            && (e.RemoveRow? && |f.entries| > 1 ==>
                  |g.entries| == |f.entries| - 1 && forall k :: 0 <= k < |g.entries| ==>
                    g.entries[k] == f.entries[if k < e.index then k else k + 1])
  {
  }

  // ---------------------------------------------------------------- validation

  /** The keys of the `errors` record; a row gets at most one of the three row faults. */
  datatype Fault = BadName | NoNamespace | KeyMissing(i: nat) | BadKey(i: nat) | DuplicateKey(i: nat) | TooLarge

  /** The summed lengths of all keys and values, in UTF-16 code units. */
  function Total(rows: seq<Row>): nat {
    if rows == [] then 0
    else Total(rows[..|rows| - 1]) + Units(rows[|rows| - 1].key) + Units(rows[|rows| - 1].value)
  }

  /** Sizes add up, a row's being that of its key and of its value. */
  lemma {:induction false} TotalAdds(a: seq<Row>, b: seq<Row>)
    ensures Total(a + b) == Total(a) + Total(b)
    ensures |a| == 1 ==> Total(a) == Units(a[0].key) + Units(a[0].value)
  {
    if b == [] {
      assert a + b == a;
    } else {
      assert (a + b)[..|a + b| - 1] == a + b[..|b| - 1];
      TotalAdds(a, b[..|b| - 1]);
    }
    if |a| == 1 {
      assert a[..0] == [];
    }
  }

  ghost predicate Refused(f: Form, fault: Fault) {
    match fault
    case BadName => !DnsLabel(f.name)
    case NoNamespace => f.namespace == ""
    case KeyMissing(i) => i < |f.entries| && f.entries[i].key == "" && f.entries[i].value != ""
    case BadKey(i) => i < |f.entries| && f.entries[i].key != "" && !DataKey(f.entries[i].key)
    case DuplicateKey(i) =>
      i < |f.entries| && DataKey(f.entries[i].key) && exists j :: 0 <= j < i && f.entries[j].key == f.entries[i].key
    case TooLarge => Total(f.entries) > MAX_DATA
  }

  ghost predicate Passes(f: Form) {
    forall fault :: !Refused(f, fault)
  }

  /** The faults of a form, as the set the `errors` record is. */
  ghost function Faults(f: Form): (r: set<Fault>)
    ensures forall fault :: fault in r <==> Refused(f, fault)
  {
    (if !DnsLabel(f.name) then {BadName} else {}) + (if f.namespace == "" then {NoNamespace} else {})
    + (if Total(f.entries) > MAX_DATA then {TooLarge} else {})
    + (set i | 0 <= i < |f.entries| && Refused(f, KeyMissing(i)) :: KeyMissing(i))
    + (set i | 0 <= i < |f.entries| && Refused(f, BadKey(i)) :: BadKey(i))
    + (set i | 0 <= i < |f.entries| && Refused(f, DuplicateKey(i)) :: DuplicateKey(i))
  }

  predicate RowFault(fault: Fault) {
    fault.KeyMissing? || fault.BadKey? || fault.DuplicateKey?
  }

  method ValidateRows(f: Form) returns (errs: set<Fault>, totalSize: nat)
    ensures forall fault :: fault in errs <==> RowFault(fault) && Refused(f, fault)
    ensures totalSize == Total(f.entries)
  {
    errs := {};
    totalSize := 0;
    var seenKeys: set<string> := {};
    for i := 0 to |f.entries|
      invariant forall fault :: fault in errs <==> RowFault(fault) && fault.i < i && Refused(f, fault)
      invariant forall k :: k in seenKeys <==> DataKey(k) && exists j :: 0 <= j < i && f.entries[j].key == k
      invariant totalSize == Total(f.entries[..i])
    {
      var entry := f.entries[i];
      assert f.entries[..i + 1][..i] == f.entries[..i];
      if entry.key == "" && entry.value == "" {
        continue;
      }
      if entry.key == "" {
        errs := errs + {KeyMissing(i)};
      } else if !DataKey(entry.key) {
        errs := errs + {BadKey(i)};
      } else if entry.key in seenKeys {
        errs := errs + {DuplicateKey(i)};
      } else {
        seenKeys := seenKeys + {entry.key};
      }
      totalSize := totalSize + Units(entry.key) + Units(entry.value);
    }
    assert f.entries[..|f.entries|] == f.entries;
  }

  method Validate(f: Form) returns (errs: set<Fault>)
    ensures forall fault :: fault in errs <==> Refused(f, fault)
    ensures errs == {} <==> Passes(f)
  {
    errs := {};
    if f.name == "" || !DnsLabel(f.name) {
      errs := errs + {BadName};
    }
    if f.namespace == "" {
      errs := errs + {NoNamespace};
    }
    var rows, totalSize := ValidateRows(f);
    errs := errs + rows;
    if totalSize > MAX_DATA {
      errs := errs + {TooLarge};
    }
    assert errs != {} ==> exists fault :: fault in errs;
  }

  ghost predicate KeysDistinct(rows: seq<Row>) {
    forall i, j :: 0 <= i < j < |rows| && !Blank(rows[i]) && !Blank(rows[j]) ==> rows[i].key != rows[j].key
  }

  ghost predicate KeysValid(rows: seq<Row>) {
    forall i :: 0 <= i < |rows| && !Blank(rows[i]) ==> DataKey(rows[i].key)
  }

  /** The loop's verdict, said without the loop: blank rows aside, valid and pairwise distinct keys. */
  lemma AcceptsExactly(f: Form)
    ensures Passes(f) <==>
              && DnsLabel(f.name) && f.namespace != ""
              && KeysValid(f.entries) && KeysDistinct(f.entries)
              && Total(f.entries) <= 1048576
  {
    if Passes(f) {
      assert !Refused(f, BadName) && !Refused(f, NoNamespace) && !Refused(f, TooLarge);
      forall i | 0 <= i < |f.entries| && !Blank(f.entries[i]) ensures DataKey(f.entries[i].key) {
        assert !Refused(f, KeyMissing(i)) && !Refused(f, BadKey(i));
      }
      forall i, j | 0 <= i < j < |f.entries| && !Blank(f.entries[i]) && !Blank(f.entries[j])
        ensures f.entries[i].key != f.entries[j].key
      {
        assert !Refused(f, DuplicateKey(j));
      }
    }
  }

  // ---------------------------------------------------------------- the payload

  /** The `data` record of the request; a later row with the same key would win. */
  function DataOf(rows: seq<Row>): map<string, string> {
    if rows == [] then map[]
    else
      var r := rows[|rows| - 1];
      var m := DataOf(rows[..|rows| - 1]);
      if r.key == "" then m else m[r.key := r.value]
  }

  function Filled(rows: seq<Row>): seq<Row> {
    if rows == [] then []
    else Filled(rows[..|rows| - 1]) + if Blank(rows[|rows| - 1]) then [] else [rows[|rows| - 1]]
  }

  lemma {:induction false} DataKeys(rows: seq<Row>, k: string)
    ensures k in DataOf(rows) <==> k != "" && exists i :: 0 <= i < |rows| && rows[i].key == k
  {
    if rows != [] {
      var n := |rows| - 1;
      DataKeys(rows[..n], k);
      if i: nat :| i < n && rows[..n][i].key == k {
        assert rows[i].key == k;
      }
      if i :| 0 <= i < |rows| && rows[i].key == k {
        assert i < n ==> rows[..n][i].key == k;
      }
    }
  }

  /** With distinct valid keys, every filled row has its own entry, and there are no others. */
  lemma {:induction false} DataHasEveryRow(rows: seq<Row>)
    requires KeysValid(rows) && KeysDistinct(rows)
    ensures |DataOf(rows)| == |Filled(rows)|
    ensures forall i :: 0 <= i < |rows| && !Blank(rows[i]) ==>
              rows[i].key in DataOf(rows) && DataOf(rows)[rows[i].key] == rows[i].value
  {
    if rows != [] {
      var n := |rows| - 1;
      DataHasEveryRow(rows[..n]);
      assert forall i :: 0 <= i < n ==> rows[..n][i] == rows[i];
      if !Blank(rows[n]) {
        DataKeys(rows[..n], rows[n].key);
      }
    }
  }

  method BuildData(rows: seq<Row>) returns (data: map<string, string>)
    ensures data == DataOf(rows)
  {
    data := map[];
    for i := 0 to |rows|
      invariant data == DataOf(rows[..i])
    {
      assert rows[..i + 1][..i] == rows[..i];
      if rows[i].key != "" {
        data := data[rows[i].key := rows[i].value];
      }
    }
    assert rows[..|rows|] == rows;
  }

  datatype Payload = Payload(name: string, namespace: string, data: map<string, string>)

  function PayloadOf(f: Form): Payload {
    Payload(f.name, f.namespace, DataOf(f.entries))
  }

  /** The payload is the form: one entry for each filled row, none lost to another row. */
  ghost predicate Faithful(f: Form, p: Payload) {
    && DnsLabel(p.name) && p.name == f.name && p.namespace == f.namespace != ""
    && |p.data| == |Filled(f.entries)|
    && (forall i :: 0 <= i < |f.entries| && !Blank(f.entries[i]) ==>
          f.entries[i].key in p.data && p.data[f.entries[i].key] == f.entries[i].value)
    && (forall k :: k in p.data ==> DataKey(k) && exists i :: 0 <= i < |f.entries| && f.entries[i].key == k)
    && Total(f.entries) <= 1048576
  }

  lemma AcceptedPayloadIsFaithful(f: Form)
    requires Passes(f)
    ensures Faithful(f, PayloadOf(f))
  {
    AcceptsExactly(f);
    DataHasEveryRow(f.entries);
    forall k | k in DataOf(f.entries)
      ensures DataKey(k) && exists i :: 0 <= i < |f.entries| && f.entries[i].key == k
    {
      DataKeys(f.entries, k);
    }
  }

  // ---------------------------------------------------------------- the wizard

  /** `currentStep`, `form` and `errors`, and beside them the preview. */
  datatype Page = Page(step: nat, form: Form, errors: set<Fault>)
  datatype Wizard = Wizard(page: Page, board: Preview.Board)

  function Edited(p: Page, e: Edit): Page
    requires Offered(p.form, e)
  {
    p.(form := Update(p.form, e))
  }

  ghost function Advanced(p: Page): Page {
    p.(step := if Passes(p.form) then 1 else p.step, errors := Faults(p.form))
  }

  /** The request that leaves as the page advances. */
  ghost function Asked(p: Page): Option<Payload> {
    if Passes(p.form) then Some(PayloadOf(p.form)) else None
  }

  function WentTo(p: Page, i: nat): Page {
    if i < p.step then p.(step := i) else p
  }

  function WentBack(p: Page): Page {
    if p.step > 0 then p.(step := 0) else p
  }

  class Island {
    var currentStep: nat
    var form: Form
    var errors: set<Fault>
    var board: Preview.Board

    ghost function Model(): Wizard
      reads this
    {
      Wizard(Page(currentStep, form, errors), board)
    }

    constructor (namespace: string)
      ensures Model() == Wizard(Page(0, Form("", namespace, [NEW_ROW]), {}), Preview.BLANK)
    {
      currentStep, form, errors, board := 0, Form("", namespace, [NEW_ROW]), {}, Preview.BLANK;
    }

    /** `updateEntry` on either field of a row. */
    method UpdateEntry(e: Edit)
      requires (e.SetKey? || e.SetValue?) && Offered(form, e)
      modifies this
      ensures Model() == old(Model()).(page := Edited(old(Model()).page, e))
    {
      var entries := form.entries;
      match e {
        case SetKey(i, key) => entries := entries[i := entries[i].(key := key)];
        case SetValue(i, value) => entries := entries[i := entries[i].(value := value)];
      }
      form := form.(entries := entries);
    }

    method AddEntry()
      modifies this
      ensures Model() == old(Model()).(page := Edited(old(Model()).page, AddRow))
    {
      form := form.(entries := form.entries + [NEW_ROW]);
    }

    method RemoveEntry(index: nat)
      requires index < |form.entries|
      modifies this
      ensures Model() == old(Model()).(page := Edited(old(Model()).page, RemoveRow(index)))
    {
      var entries: seq<Row> := [];
      for i := 0 to |form.entries|
        invariant entries == if i <= index then form.entries[..i] else form.entries[..index] + form.entries[index + 1..i]
        invariant form == old(form) && currentStep == old(currentStep) && errors == old(errors) && board == old(board)
      {
        if i != index {
          entries := entries + [form.entries[i]];
        }
      }
      form := form.(entries := if |entries| > 0 then entries else [NEW_ROW]);
    }

    /** `goNext` with the start of `fetchPreview`: the payload that leaves, if the form passes. */
    method GoNext() returns (sent: Option<Payload>)
      modifies this
      ensures sent == Asked(old(Model()).page)
      ensures Model() == Wizard(Advanced(old(Model()).page), if sent.Some? then Preview.Begin(old(board)) else old(board))
    {
      errors := Validate(form);
      assert errors == Faults(form);
      if errors != {} {
        return None;
      }
      currentStep := 1;
      board := board.(gen := board.gen + 1, loading := true, error := None);
      var data := BuildData(form.entries);
      sent := Some(Payload(form.name, form.namespace, data));
    }

    method OnStep(i: nat)
      modifies this
      ensures Model() == old(Model()).(page := WentTo(old(Model()).page, i))
    {
      if i < currentStep {
        currentStep := i;
      }
    }

    method GoBack()
      modifies this
      ensures Model() == old(Model()).(page := WentBack(old(Model()).page))
    {
      if currentStep > 0 {
        currentStep := 0;
      }
    }

    method PreviewReturned(gen: nat, o: Preview.Outcome)
      modifies this
      ensures Model() == old(Model()).(board := Preview.Land(old(board), gen, o))
    {
      if gen != board.gen {
        return;
      }
      match o
      case Yaml(text) => board := board.(yaml := text, loading := false);
      case Failed(message) => board := board.(error := Some(message), loading := false);
    }
  }

  // ---------------------------------------------------------------- the whole system

  datatype System = System(page: Page, session: Preview.Session<Payload>)

  datatype Event =
    | Edits(edit: Edit)
    | Next
    | Back
    | GoTo(i: nat)
    | PreviewReply(request: nat, outcome: Preview.Outcome)
    | EditYaml(text: string)

  function Start(namespace: string): System {
    System(Page(0, Form("", namespace, [NEW_ROW]), {}), Preview.Opened())
  }

  /** The fields can be edited only on the first step, whose button continues; the last step's closes. */
  ghost function Step(s: System, e: Event): System {
    match e
    case Edits(edit) =>
      if s.page.step != 0 || !Offered(s.page.form, edit) then s else s.(page := Edited(s.page, edit))
    case Next =>
      if s.page.step != 0 then s
      else
        System(Advanced(s.page),
               if Asked(s.page).Some? then Preview.Step(s.session, Preview.Request(Asked(s.page).value)) else s.session)
    case Back =>
      s.(page := WentBack(s.page))
    case GoTo(i) =>
      s.(page := WentTo(s.page, i))
    case PreviewReply(i, o) =>
      s.(session := Preview.Step(s.session, Preview.Reply(i, o)))
    case EditYaml(text) =>
      if s.page.step != 1 then s else s.(session := Preview.Step(s.session, Preview.Edit(text)))
  }

  ghost function Run(namespace: string, es: seq<Event>): System {
    if es == [] then Start(namespace) else Step(Run(namespace, es[..|es| - 1]), es[|es| - 1])
  }

  ghost predicate FaithfulToSome(p: Payload) {
    exists f: Form :: Passes(f) && Faithful(f, p)
  }

  ghost predicate ReviewIsCurrent(s: System) {
    && s.page.step == 1 && Passes(s.page.form)
    && s.session.flights.sent != []
    && s.session.flights.sent[|s.session.flights.sent| - 1] == PayloadOf(s.page.form)
  }

  ghost predicate Inv(s: System) {
    && s.page.form.entries != []
    && (s.page.step != 0 ==> ReviewIsCurrent(s))
    && Preview.Inv(s.session)
    && (forall p :: p in s.session.flights.sent ==> FaithfulToSome(p))
  }

  lemma StepKeepsInv(s: System, e: Event)
    requires Inv(s)
    ensures Inv(Step(s, e))
  {
    match e
    case Next =>
      if s.page.step == 0 && Passes(s.page.form) {
        AcceptedPayloadIsFaithful(s.page.form);
        Preview.StepKeepsInv(s.session, Preview.Request(PayloadOf(s.page.form)));
      }
    case PreviewReply(i, o) => Preview.StepKeepsInv(s.session, Preview.Reply(i, o));
    case EditYaml(text) => Preview.StepKeepsInv(s.session, Preview.Edit(text));
    case Edits(_) =>
    case Back =>
    case GoTo(_) =>
  }

  lemma {:induction false} Invariant(namespace: string, es: seq<Event>)
    ensures Inv(Run(namespace, es))
  {
    if es != [] {
      Invariant(namespace, es[..|es| - 1]);
      StepKeepsInv(Run(namespace, es[..|es| - 1]), es[|es| - 1]);
    }
  }

  /**
   On the review step the form is valid, the newest request is that form's faithful payload,
   and once loading is over the preview shows what came back for it.
   */
  lemma ReviewShowsCurrentForm(namespace: string, es: seq<Event>)
    requires Run(namespace, es).page.step == 1
    ensures var s := Run(namespace, es);
            var newest := |s.session.flights.sent| - 1;
            && newest >= 0 && Faithful(s.page.form, s.session.flights.sent[newest])
            && (!s.session.board.loading ==>
                  newest in s.session.replies && Preview.Shows(s.session, s.session.replies[newest]))
  {
    Invariant(namespace, es);
    var s := Run(namespace, es);
    AcceptedPayloadIsFaithful(s.page.form);
    if !s.session.board.loading {
      Preview.NewestShown(s.session);
    }
  }

  /** No request of any run was built from a form that validation had not accepted. */
  lemma EveryPayloadIsFaithful(namespace: string, es: seq<Event>, p: Payload)
    requires p in Run(namespace, es).session.flights.sent
    ensures exists f: Form :: Passes(f) && Faithful(f, p)
  {
    Invariant(namespace, es);
    assert FaithfulToSome(p);
  }

  /** What the buttons do: on to the review where the form is accepted, back to the first step; the form stays as it is. */
  lemma Navigation(s: System, i: nat)
    ensures s.page.step == 0 ==>
              && Step(s, Next).page.step == (if Passes(s.page.form) then 1 else 0)
              && forall fault :: fault in Step(s, Next).page.errors <==> Refused(s.page.form, fault)
    ensures Step(s, Back).page.step == 0
    ensures i < s.page.step ==> Step(s, GoTo(i)).page.step == i
    ensures i >= s.page.step ==> Step(s, GoTo(i)) == s
    ensures Step(s, Next).page.form == Step(s, Back).page.form == Step(s, GoTo(i)).page.form == s.page.form
    ensures Step(s, Back).session == Step(s, GoTo(i)).session == s.session
  {
  }

  /** From the first step an accepted form reaches the review in one click, and its request leaves. */
  lemma AcceptedFormReachesReview(namespace: string, es: seq<Event>)
    requires Run(namespace, es).page.step == 0 && Passes(Run(namespace, es).page.form)
    ensures var s, t := Run(namespace, es), Step(Run(namespace, es), Next);
            && t.page.step == 1 && t.page.form == s.page.form && t.page.errors == {}
            && |t.session.flights.sent| == |s.session.flights.sent| + 1
            && Faithful(s.page.form, t.session.flights.sent[|s.session.flights.sent|])
  {
    AcceptedPayloadIsFaithful(Run(namespace, es).page.form);
  }
}
