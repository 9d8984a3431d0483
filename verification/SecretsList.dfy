/**
 The ExternalSecrets list: a debounce timer, a fetch sequence number and a namespace filter
 that the user keeps typing into while earlier fetches are still out.
 */
module SecretsList {
  import opened InFlight
  import opened Options
  import opened Text

  /** `detected` stays None until the status reply; `debounce` holds the armed timer's handle. */
  datatype Island<T> = Island(
    namespace: string,
    fetchSeq: nat,
    debounce: Option<nat>,
    items: seq<T>,
    error: Option<string>,
    detected: Option<bool>,
    loading: bool)

  const LOAD_FAILED := "Failed to load ExternalSecrets"

  /** The namespace argument of the list call. */
  function Query(namespace: string): Option<string> {
    if Trim(namespace) == "" then None else Some(Trim(namespace))
  }

  /**
   The call asks for the namespace typed: white space at both ends apart, the text sent is the
   text typed, and only where nothing but white space is typed is nothing sent.
   */
  ghost predicate AsksFor(sent: Option<string>, typed: string) {
    exists a, b :: AllSpace(a) && AllSpace(b)
      && match sent
         case None => typed == a + b
         case Some(text) => text != "" && Bare(text) && typed == a + text + b
  }

  lemma QueryAsksFor(namespace: string)
    ensures AsksFor(Query(namespace), namespace)
  {
    var a, b := TrimParts(namespace);
    assert Trim(namespace) == "" ==> a + Trim(namespace) + b == a + b;
  }

  function FetchStart<T>(v: Island<T>): Island<T> {
    v.(fetchSeq := v.fetchSeq + 1)
  }

  /** After the await of the fetch numbered `sq`; no list means the call threw. */
  function FetchDone<T>(v: Island<T>, sq: nat, reply: Option<seq<T>>): Island<T> {
    if sq != v.fetchSeq then v
    else match reply
      case Some(items) => v.(items := items, error := None)
      case None => v.(error := Some(LOAD_FAILED))
  }

  function Typed<T>(v: Island<T>, value: string, timer: nat): Island<T> {
    v.(namespace := value, debounce := Some(timer))
  }

  function TimerFired<T>(v: Island<T>): Island<T> {
    FetchStart(v.(debounce := None))
  }

  class List<T> {
    var namespace: string
    var fetchSeq: nat
    var debounce: Option<nat>
    var items: seq<T>
    var error: Option<string>
    var detected: Option<bool>
    var loading: bool

    ghost function Model(): Island<T>
      reads this
    {
      Island(namespace, fetchSeq, debounce, items, error, detected, loading)
    }

    constructor ()
      ensures Model() == Island("", 0, None, [], None, None, true)
    {
      namespace, fetchSeq, debounce := "", 0, None;
      items, error, detected, loading := [], None, None, true;
    }

    /** `fetchData` up to its await: the captured number and the query that leaves. */
    method FetchData() returns (sq: nat, ns: Option<string>)
      modifies this
      ensures Model() == FetchStart(old(Model()))
      ensures sq == fetchSeq && ns == Query(namespace) && AsksFor(ns, namespace)
    {
      fetchSeq := fetchSeq + 1;
      sq := fetchSeq;
      var trimmed := Trim(namespace);
      ns := if trimmed == "" then None else Some(trimmed);
      QueryAsksFor(namespace);
    }

    method FetchReturned(sq: nat, reply: Option<seq<T>>)
      modifies this
      ensures Model() == FetchDone(old(Model()), sq, reply)
    {
      if sq != fetchSeq {
        return;
      }
      match reply
      case Some(list) =>
        items := list;
        error := None;
      case None =>
        error := Some(LOAD_FAILED);
    }

    /** Returns the timer that was cancelled, if one was armed. */
    method HandleNamespaceChange(value: string, timer: nat) returns (cleared: Option<nat>)
      modifies this
      ensures Model() == Typed(old(Model()), value, timer)
      ensures cleared == old(debounce)
    {
      namespace := value;
      cleared := debounce;
      debounce := Some(timer);
    }

    method DebounceElapsed() returns (sq: nat, ns: Option<string>)
      modifies this
      ensures Model() == TimerFired(old(Model()))
      ensures sq == fetchSeq && ns == Query(namespace) && AsksFor(ns, namespace)
    {
      debounce := None;
      sq, ns := FetchData();
    }
  }

  /**
   The island with what the browser holds: armed timers, fetches out, the status call.
   `boot` is the fetch the load effect waits for before it clears `loading`, and `typed` the
   last text typed into the filter.
   */
  datatype System<T> = System(
    view: Island<T>,
    typed: string,
    mounted: bool,
    statusOpen: bool,
    boot: Option<nat>,
    timers: set<nat>,
    nextTimer: nat,
    fetches: Flights<Option<string>>,
    replies: map<nat, Option<seq<T>>>)

  datatype Event<T> =
    | Types(value: string)
    | TimerFires(timer: nat)
    | StatusReply(present: bool)
    | StatusFails
    | ListReply(fetch: nat, reply: Option<seq<T>>)
    | Unmount

  function Start<T>(): System<T> {
    System(Island("", 0, None, [], None, None, true), "", true, true, None, {}, 0, Flights([], {}), map[])
  }

  /** `clearTimeout` on the handle the island remembers. */
  function Cleared<T>(s: System<T>): set<nat> {
    if s.view.debounce.Some? then s.timers - {s.view.debounce.value} else s.timers
  }

  function Fetch<T>(s: System<T>, view: Island<T>): System<T> {
    s.(view := view, fetches := s.fetches.Send(Query(view.namespace)))
  }

  function Boot<T>(s: System<T>): System<T> {
    Fetch(s, FetchStart(s.view)).(boot := Some(|s.fetches.sent|))
  }

  function Step<T>(s: System<T>, e: Event<T>): System<T> {
    match e
    case Types(value) =>
      if !s.mounted then s
      else s.(view := Typed(s.view, value, s.nextTimer), typed := value, timers := Cleared(s) + {s.nextTimer},
              nextTimer := s.nextTimer + 1)
    case TimerFires(t) =>
      if t !in s.timers then s
      else Fetch(s.(timers := s.timers - {t}), TimerFired(s.view))
    case StatusReply(present) =>
      if !s.statusOpen then s
      else
        var seen := s.(statusOpen := false, view := s.view.(detected := Some(present)));
        if present then Boot(seen) else seen.(view := seen.view.(loading := false))
    case StatusFails =>
      if !s.statusOpen then s
      else Boot(s.(statusOpen := false, view := s.view.(detected := Some(true))))
    case ListReply(i, reply) =>
      if i !in s.fetches.open then s
      else
        var done := FetchDone(s.view, i + 1, reply);
        s.(view := if s.boot == Some(i) then done.(loading := false) else done,
           fetches := s.fetches.Settle(i), replies := s.replies[i := reply])
    case Unmount =>
      if !s.mounted then s
      else s.(mounted := false, timers := Cleared(s), view := s.view.(debounce := None))
  }

  function Run<T>(es: seq<Event<T>>): System<T> {
    if es == [] then Start() else Step(Run(es[..|es| - 1]), es[|es| - 1])
  }

  /** What the newest fetch's reply has left in the list. */
  ghost predicate Shows<T>(v: Island<T>, reply: Option<seq<T>>) {
    match reply
    case Some(items) => v.items == items && v.error == None
    case None => v.error == Some("Failed to load ExternalSecrets")
  }

  /** One timer at most, and the island knows its handle. */
  ghost predicate TimerInv<T>(s: System<T>) {
    && s.timers == (if s.view.debounce.Some? then {s.view.debounce.value} else {})
    && (s.view.debounce.Some? ==> s.mounted && s.view.debounce.value < s.nextTimer)
  }

  ghost predicate FetchInv<T>(s: System<T>) {
    && s.fetches.Valid()
    && s.view.fetchSeq == |s.fetches.sent|
    && (forall i :: i in s.replies <==> s.fetches.Settled(i))
    && (forall i :: i in s.replies && s.fetches.IsNewest(i) ==> Shows(s.view, s.replies[i]))
  }

  /** With no timer armed the newest fetch asked for what the filter now says. */
  ghost predicate FilterInv<T>(s: System<T>) {
    && s.view.namespace == s.typed
    && (s.mounted && s.view.debounce == None && s.fetches.sent != [] ==>
      s.fetches.sent[|s.fetches.sent| - 1] == Query(s.view.namespace))
    && (s.fetches.sent == [] && s.view.namespace != "" && s.mounted ==> s.view.debounce.Some?)
  }

  ghost predicate LoadInv<T>(s: System<T>) {
    && (s.statusOpen ==> s.view.loading && s.boot == None && s.view.detected == None)
    && (!s.statusOpen ==> s.view.detected.Some? && (s.boot.Some? <==> s.view.detected == Some(true)))
    && (s.boot.Some? ==> s.boot.value < |s.fetches.sent|)
    && (s.view.loading <==> s.statusOpen || (s.boot.Some? && s.boot.value in s.fetches.open))
  }

  ghost predicate Inv<T>(s: System<T>) {
    TimerInv(s) && FetchInv(s) && FilterInv(s) && LoadInv(s)
  }

  lemma StepKeepsTimer<T>(s: System<T>, e: Event<T>)
    requires TimerInv(s)
    ensures TimerInv(Step(s, e))
  {
  }

  lemma ReplyKeepsFetch<T>(s: System<T>, i: nat, reply: Option<seq<T>>)
    requires FetchInv(s)
    ensures FetchInv(Step(s, ListReply(i, reply)))
    ensures Extends(s.fetches, Step(s, ListReply(i, reply)).fetches)
  {
    var t := Step(s, ListReply(i, reply));
    forall j ensures j in t.replies <==> t.fetches.Settled(j) {
      assert j in s.replies <==> s.fetches.Settled(j);
    }
  }

  lemma StepKeepsFetch<T>(s: System<T>, e: Event<T>)
    requires FetchInv(s)
    ensures FetchInv(Step(s, e))
    ensures Extends(s.fetches, Step(s, e).fetches)
  {
    if e.ListReply? {
      ReplyKeepsFetch(s, e.fetch, e.reply);
    } else {
      var t := Step(s, e);
      forall i ensures i in t.replies <==> t.fetches.Settled(i) {
        assert i in s.replies <==> s.fetches.Settled(i);
      }
    }
  }

  lemma StepKeepsFilter<T>(s: System<T>, e: Event<T>)
    requires TimerInv(s) && FilterInv(s)
    ensures FilterInv(Step(s, e))
  {
  }

  lemma StepKeepsLoad<T>(s: System<T>, e: Event<T>)
    requires FetchInv(s) && LoadInv(s)
    ensures LoadInv(Step(s, e))
  {
  }

  /** The four invariants hold in every interleaving. */
  lemma {:induction false} Invariant<T>(es: seq<Event<T>>)
    ensures Inv(Run(es))
  {
    if es != [] {
      Invariant(es[..|es| - 1]);
      var s, e := Run(es[..|es| - 1]), es[|es| - 1];
      StepKeepsTimer(s, e);
      StepKeepsFetch(s, e);
      StepKeepsFilter(s, e);
      StepKeepsLoad(s, e);
    }
  }

  /**
   At most one timer is armed.  If none is and something was fetched, the newest fetch used
   the current filter, and once its reply is in, that reply is what the list shows.
   */
  lemma FilterAndListAgree<T>(es: seq<Event<T>>)
    ensures var s := Run(es);
            && |s.timers| <= 1
            && (s.mounted && s.timers == {} && s.fetches.sent != [] ==>
                 var newest := |s.fetches.sent| - 1;
                 && AsksFor(s.fetches.sent[newest], s.typed)
                 && (newest !in s.fetches.open ==>
                      newest in s.replies && Shows(s.view, s.replies[newest])))
  {
    Invariant(es);
    var s := Run(es);
    QueryAsksFor(s.typed);
    if s.fetches.sent != [] && |s.fetches.sent| - 1 !in s.fetches.open {
      assert s.fetches.Settled(|s.fetches.sent| - 1) && s.fetches.IsNewest(|s.fetches.sent| - 1);
    }
  }

  /** A reply to any fetch but the newest changes neither the items nor the error. */
  lemma OlderReplyNeverWrites<T>(es: seq<Event<T>>, i: nat, reply: Option<seq<T>>)
    requires i in Run(es).fetches.open && !Run(es).fetches.IsNewest(i)
    ensures var t := Step(Run(es), ListReply(i, reply)).view;
            t.items == Run(es).view.items && t.error == Run(es).view.error
  {
    Invariant(es);
  }

  /**
   They end up agreeing: from any mounted state, letting the armed timer fire and its fetch
   come back shows the answer to the current filter, whatever else is still out.
   */
  lemma Converges<T>(es: seq<Event<T>>, items: seq<T>)
    requires Run(es).view.debounce.Some?
    ensures var s := Run(es);
            var fired := Step(s, TimerFires(s.view.debounce.value));
            var t := Step(fired, ListReply(|s.fetches.sent|, Some(items)));
            && |fired.fetches.sent| == |s.fetches.sent| + 1 && AsksFor(fired.fetches.sent[|s.fetches.sent|], s.typed)
            && t.view.items == items && t.view.error == None && t.timers == {}
            && t.view.namespace == s.typed == t.typed
  {
    Invariant(es);
    QueryAsksFor(Run(es).typed);
  }

  /** The load effect asks for a list exactly when the operator is taken to be there, as the status reply says. */
  lemma StatusDecides<T>(es: seq<Event<T>>, present: bool)
    requires Run(es).statusOpen
    ensures var s, t := Run(es), Step(Run(es), StatusReply(present));
            && t.view.detected == Some(present)
            && |t.fetches.sent| == |s.fetches.sent| + (if present then 1 else 0)
            && (t.view.loading <==> present)
    ensures var s, t := Run(es), Step(Run(es), StatusFails);
            t.view.detected == Some(true) && |t.fetches.sent| == |s.fetches.sent| + 1 && t.view.loading
  {
    Invariant(es);
  }
}
