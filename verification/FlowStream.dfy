/**
 The live flow table: a socket generation counter, a batch waiting for the next animation
 frame, and a newest-first list capped at MAX_FLOWS.

 `Island` holds the refs and signals; the functions on it say what each callback leaves
 behind, and class `Viewer` runs the callbacks themselves.  `System` adds what the browser
 holds: open sockets, scheduled frames, HTTP requests, and the flows actually received.
 */
module FlowStream {
  import opened InFlight
  import opened Options

  const MAX_FLOWS := 1000

  datatype WsState = Disconnected | Connecting | Live

  /** A decoded socket message; `Other` is anything the callback ignores, malformed text included. */
  datatype Message<F> = Flow(data: F) | Subscribed | Trouble(message: string) | Other

  /** `ws` is the connection `wsRef` points to; `raf` is 0 when no frame is scheduled. */
  datatype Island<F> = Island(
    wsId: nat,
    ws: Option<nat>,
    wsState: WsState,
    error: Option<string>,
    flows: seq<F>,
    pending: seq<F>,
    raf: nat)

  // ---------------------------------------------------------------- sequences

  function Take<F>(s: seq<F>, n: nat): (r: seq<F>) {
    if |s| > n then s[..n] else s
  }

  function Reversed<F>(s: seq<F>): (r: seq<F>)
    ensures |r| == |s|
  {
    if s == [] then [] else Reversed(s[1..]) + [s[0]]
  }

  lemma {:induction false} ReversedAt<F>(s: seq<F>, k: nat)
    requires k < |s|
    ensures Reversed(s)[k] == s[|s| - 1 - k]
  {
    if k < |s| - 1 {
      ReversedAt(s[1..], k);
    }
  }

  lemma {:induction false} ReversedPush<F>(s: seq<F>, x: F)
    ensures Reversed(s + [x]) == [x] + Reversed(s)
  {
    if s != [] {
      ReversedPush(s[1..], x);
      assert (s + [x])[1..] == s[1..] + [x];
    }
  }

  /** Capping the tail early does not change what the cap lets through. */
  lemma TakeTail<F>(a: seq<F>, b: seq<F>, n: nat)
    ensures Take(a + Take(b, n), n) == Take(a + b, n)
  {
  }

  // ---------------------------------------------------------------- the callbacks

  function Flush<F>(v: Island<F>): Island<F> {
    if v.pending == [] then v.(raf := 0)
    else v.(flows := Take(Reversed(v.pending) + v.flows, MAX_FLOWS), pending := [], raf := 0)
  }

  /** `connectWS`: without a token it opens nothing and falls back to HTTP. */
  function Connect<F>(v: Island<F>, token: bool): Island<F> {
    if !token then FetchStart(v.(ws := None))
    else v.(wsId := v.wsId + 1, ws := Some(v.wsId + 1), wsState := Connecting)
  }

  /** `onmessage` of connection `id`; `handle` is what `requestAnimationFrame` would return. */
  function OnMessage<F>(v: Island<F>, id: nat, m: Message<F>, handle: nat): Island<F> {
    if v.wsId != id then v
    else match m
      case Flow(x) => v.(pending := v.pending + [x], raf := if v.raf == 0 then handle else v.raf)
      case Subscribed => v.(wsState := Live, error := None, flows := [])
      case Trouble(t) => v.(error := Some(t), wsState := Disconnected)
      case Other => v
  }

  function OnClose<F>(v: Island<F>, id: nat): Island<F> {
    if v.wsId != id then v else v.(wsState := Disconnected, ws := None)
  }

  function OnError<F>(v: Island<F>, id: nat): Island<F> {
    if v.wsId != id then v else FetchStart(v.(wsState := Disconnected, ws := None))
  }

  /** The cleanup of the connect effect. */
  function Cleanup<F>(v: Island<F>): Island<F> {
    v.(wsId := v.wsId + 1, ws := None, wsState := Disconnected, raf := 0, pending := [])
  }

  function FetchStart<F>(v: Island<F>): Island<F> {
    v.(error := None)
  }

  function FetchDone<F>(v: Island<F>, list: seq<F>): Island<F> {
    v.(flows := list)
  }

  function FetchFailed<F>(v: Island<F>, message: string): Island<F> {
    v.(error := Some(message), flows := [])
  }

  class Viewer<F> {
    var wsId: nat
    var ws: Option<nat>
    var wsState: WsState
    var error: Option<string>
    var flows: seq<F>
    var pending: seq<F>
    var raf: nat

    ghost function Model(): Island<F>
      reads this
    {
      Island(wsId, ws, wsState, error, flows, pending, raf)
    }

    constructor ()
      ensures Model() == Island(0, None, Disconnected, None, [], [], 0)
    {
      wsId, ws, wsState, error := 0, None, Disconnected, None;
      flows, pending, raf := [], [], 0;
    }

    /** Reverses the batch element by element, as `Array.prototype.reverse` does. */
    static method Reverse(s: seq<F>) returns (r: seq<F>)
      ensures r == Reversed(s)
    {
      r := [];
      for i := 0 to |s|
        invariant r == Reversed(s[..i])
      {
        r := [s[i]] + r;
        ReversedPush(s[..i], s[i]);
        assert s[..i + 1] == s[..i] + [s[i]];
      }
      assert s[..|s|] == s;
    }

    method FlushFlows()
      modifies this
      ensures Model() == Flush(old(Model()))
    {
      raf := 0;
      var batch := pending;
      if |batch| == 0 {
        return;
      }
      pending := [];
      var reversed := Reverse(batch);
      var merged := reversed + flows;
      flows := if |merged| > MAX_FLOWS then merged[..MAX_FLOWS] else merged;
    }

    method ConnectWS(token: bool)
      modifies this
      ensures Model() == Connect(old(Model()), token)
    {
      if ws.Some? {
        ws := None;
      }
      if !token {
        error := None;
        return;
      }
      wsId := wsId + 1;
      wsState := Connecting;
      ws := Some(wsId);
    }

    method Receive(connectionId: nat, msg: Message<F>, handle: nat)
      modifies this
      ensures Model() == OnMessage(old(Model()), connectionId, msg, handle)
    {
      if wsId != connectionId {
        return;
      }
      match msg
      case Flow(data) =>
        pending := pending + [data];
        if raf == 0 {
          raf := handle;
        }
      case Subscribed =>
        wsState := Live;
        error := None;
        flows := [];
      case Trouble(message) =>
        error := Some(message);
        wsState := Disconnected;
      case Other =>
    }

    method Closed(connectionId: nat)
      modifies this
      ensures Model() == OnClose(old(Model()), connectionId)
    {
      if wsId != connectionId {
        return;
      }
      wsState := Disconnected;
      ws := None;
    }

    method Errored(connectionId: nat)
      modifies this
      ensures Model() == OnError(old(Model()), connectionId)
    {
      if wsId != connectionId {
        return;
      }
      wsState := Disconnected;
      ws := None;
      error := None;
    }

    method TearDown()
      modifies this
      ensures Model() == Cleanup(old(Model()))
    {
      wsId := wsId + 1;
      if ws.Some? {
        ws := None;
      }
      wsState := Disconnected;
      if raf != 0 {
        raf := 0;
      }
      pending := [];
    }
  }

  // ---------------------------------------------------------------- the whole system

  /**
   `sockets.sent[i]` is the connection id socket `i` captured, and `own` the socket opened by
   the run of the connect effect that is in force, if it opened one.  `received` is the history
   the table is measured against: the flows of the current connection since it was last reset
   by "subscribed", newest first; `heard` counts its flows before that too.  `subscribed` says
   that the table is this connection's: it was confirmed, and no HTTP reply has taken the table
   over after its socket had gone.  `trouble` is what the server has complained of since.
   */
  datatype System<F> = System(
    view: Island<F>,
    connected: bool,
    own: Option<nat>,
    sockets: Flights<nat>,
    frames: set<nat>,
    nextFrame: nat,
    requests: nat,
    subscribed: bool,
    trouble: Option<string>,
    heard: nat,
    received: seq<F>)

  datatype Event<F> =
    | RunEffect(token: bool)
    | RunCleanup
    | Arrives(socket: nat, message: Message<F>)
    | Closes(socket: nat)
    | Fails(socket: nat)
    | Frame(handle: nat)
    | Refresh
    | HttpOk(list: seq<F>)
    | HttpFail(reason: string)

  function Start<F>(): System<F> {
    System(Island(0, None, Disconnected, None, [], [], 0), false, None, Flights([], {}), {}, 1, 0, false, None, 0, [])
  }

  /** Socket `i` is open and its callbacks are not stale. */
  predicate Current<F>(s: System<F>, i: nat) {
    i in s.sockets.open && i < |s.sockets.sent| && s.sockets.sent[i] == s.view.wsId
  }

  /** The socket of the effect run in force is open. */
  predicate Listening<F>(s: System<F>) {
    s.own.Some? && s.own.value in s.sockets.open
  }

  predicate Resets<F>(s: System<F>, e: Event<F>) {
    e.Arrives? && e.message.Subscribed? && Current(s, e.socket)
  }

  function Arrive<F>(s: System<F>, i: nat, m: Message<F>): System<F>
    requires i < |s.sockets.sent|
  {
    var view := OnMessage(s.view, s.sockets.sent[i], m, s.nextFrame);
    var t := s.(view := view,
                frames := if view.raf != s.view.raf then s.frames + {view.raf} else s.frames,
                nextFrame := s.nextFrame + 1);
    if !Current(s, i) then t
    else if m.Flow? then t.(heard := s.heard + 1, received := [m.data] + s.received)
    else if m.Subscribed? then t.(subscribed := true, trouble := None, received := [])
    else if m.Trouble? then t.(trouble := Some(m.message))
    else t
  }

  /** An event that cannot happen in `s` leaves it alone. */
  function Step<F>(s: System<F>, e: Event<F>): System<F> {
    match e
    case RunEffect(token) =>
      if s.connected then s
      else if !token then s.(view := Connect(s.view, false), connected := true, own := None, requests := s.requests + 1)
      else s.(view := Connect(s.view, true), connected := true, own := Some(|s.sockets.sent|),
              sockets := s.sockets.Send(s.view.wsId + 1), subscribed := false, trouble := None, heard := 0, received := [])
    case RunCleanup =>
      if !s.connected then s
      else s.(view := Cleanup(s.view), connected := false, own := None, frames := s.frames - {s.view.raf},
              subscribed := false, trouble := None, heard := 0, received := [])
    case Arrives(i, m) =>
      if i in s.sockets.open && i < |s.sockets.sent| then Arrive(s, i, m) else s
    case Closes(i) =>
      if i !in s.sockets.open || i >= |s.sockets.sent| then s
      else s.(view := OnClose(s.view, s.sockets.sent[i]), sockets := s.sockets.Settle(i))
    case Fails(i) =>
      if i !in s.sockets.open || i >= |s.sockets.sent| then s
      else s.(view := OnError(s.view, s.sockets.sent[i]), sockets := s.sockets.Settle(i),
              requests := if Current(s, i) then s.requests + 1 else s.requests)
    case Frame(h) =>
      if h !in s.frames then s else s.(view := Flush(s.view), frames := s.frames - {h})
    case Refresh =>
      s.(view := FetchStart(s.view), requests := s.requests + 1)
    case HttpOk(list) =>
      if s.requests == 0 then s else s.(view := FetchDone(s.view, list), requests := s.requests - 1, subscribed := s.subscribed && Listening(s))
    case HttpFail(reason) =>
      if s.requests == 0 then s else s.(view := FetchFailed(s.view, reason), requests := s.requests - 1, subscribed := s.subscribed && Listening(s))
  }

  function Run<F>(es: seq<Event<F>>): System<F> {
    if es == [] then Start() else Step(Run(es[..|es| - 1]), es[|es| - 1])
  }

  // ---------------------------------------------------------------- invariants

  /** Connection ids grow, so at most one socket, the newest, is not stale. */
  ghost predicate SocketsInv<F>(s: System<F>) {
    && s.sockets.Valid()
    && (forall i, j :: 0 <= i < j < |s.sockets.sent| ==> s.sockets.sent[i] < s.sockets.sent[j])
    && (forall i :: 0 <= i < |s.sockets.sent| ==> 0 < s.sockets.sent[i] <= s.view.wsId)
    && (s.own.None? ==> forall i :: 0 <= i < |s.sockets.sent| ==> s.sockets.sent[i] < s.view.wsId)
    && (s.own.Some? ==> s.connected && s.sockets.IsNewest(s.own.value) && s.sockets.sent[s.own.value] == s.view.wsId)
  }

  /** A batch is waiting exactly when one frame, and only one, will flush it. */
  ghost predicate BatchInv<F>(s: System<F>) {
    && s.view.raf < s.nextFrame
    && (s.view.pending != [] <==> s.view.raf != 0)
    && s.frames == (if s.view.raf == 0 then {} else {s.view.raf})
    && |s.view.pending| <= s.heard
    && (!s.connected ==> s.heard == 0 && !s.subscribed)
    && (s.view.ws.Some? ==> s.connected && s.view.ws.value == s.view.wsId)
  }

  /**
   The state on screen is that of the socket in force: gone or in trouble, confirmed, or not yet;
   and the socket held is that one, while it is open.
   */
  ghost predicate StatusInv<F>(s: System<F>) {
    && s.view.wsState ==
         (if !Listening(s) || s.trouble.Some? then Disconnected else if s.subscribed then Live else Connecting)
    && s.view.ws == (if Listening(s) then Some(s.view.wsId) else None)
  }

  ghost predicate Inv<F>(s: System<F>) {
    SocketsInv(s) && BatchInv(s) && StatusInv(s)
  }

  /** All a step does to connection ids: one more is handed out, or a generation passes, or nothing. */
  lemma SocketMoves<F>(s: System<F>, e: Event<F>)
    ensures var t := Step(s, e);
            || (t.sockets == s.sockets.Send(t.view.wsId) && t.view.wsId == s.view.wsId + 1 && t.connected
                && t.own == Some(|s.sockets.sent|))
            || (t.sockets == s.sockets && t.view.wsId == s.view.wsId + 1 && t.own == None)
            || (t.sockets.sent == s.sockets.sent && t.sockets.open <= s.sockets.open
                && t.view.wsId == s.view.wsId && (t.connected || !s.connected)
                && (t.own == s.own || (t.own == None && !s.connected)))
  {
    match e
    case Arrives(i, m) =>
    case _ =>
  }

  lemma StepKeepsSockets<F>(s: System<F>, e: Event<F>)
    requires SocketsInv(s)
    ensures SocketsInv(Step(s, e))
    ensures Extends(s.sockets, Step(s, e).sockets)
  {
    SocketMoves(s, e);
  }

  lemma ArriveKeepsBatch<F>(s: System<F>, i: nat, m: Message<F>)
    requires BatchInv(s) && SocketsInv(s)
    ensures BatchInv(Step(s, Arrives(i, m)))
  {
    if i in s.sockets.open && s.view.wsId == s.sockets.sent[i] {
      assert s.connected;
      if m.Flow? {
        assert Step(s, Arrives(i, m)).view.pending == s.view.pending + [m.data];
      }
    }
  }

  lemma HttpKeepsBatch<F>(s: System<F>, e: Event<F>)
    requires BatchInv(s) && (e.HttpOk? || e.HttpFail? || e.Refresh?)
    ensures BatchInv(Step(s, e))
  {
  }

  lemma SocketEndKeepsBatch<F>(s: System<F>, e: Event<F>)
    requires BatchInv(s) && SocketsInv(s) && (e.Closes? || e.Fails?)
    ensures BatchInv(Step(s, e))
  {
  }

  lemma EffectKeepsBatch<F>(s: System<F>, e: Event<F>)
    requires BatchInv(s) && SocketsInv(s) && (e.RunEffect? || e.RunCleanup?)
    ensures BatchInv(Step(s, e))
  {
  }

  lemma StepKeepsBatch<F>(s: System<F>, e: Event<F>)
    requires BatchInv(s) && SocketsInv(s)
    ensures BatchInv(Step(s, e))
  {
    if e.Arrives? {
      ArriveKeepsBatch(s, e.socket, e.message);
    } else if e.HttpOk? || e.HttpFail? || e.Refresh? {
      HttpKeepsBatch(s, e);
    } else if e.Closes? || e.Fails? {
      SocketEndKeepsBatch(s, e);
    } else if e.RunEffect? || e.RunCleanup? {
      EffectKeepsBatch(s, e);
    }
  }

  lemma ArriveKeepsStatus<F>(s: System<F>, i: nat, m: Message<F>)
    requires SocketsInv(s) && StatusInv(s)
    ensures StatusInv(Step(s, Arrives(i, m)))
  {
    if i < |s.sockets.sent| && s.own != Some(i) {
      StaleSocket(s, i);
    }
  }

  lemma SocketEndKeepsStatus<F>(s: System<F>, e: Event<F>)
    requires SocketsInv(s) && StatusInv(s) && (e.Closes? || e.Fails?)
    ensures StatusInv(Step(s, e))
  {
    if e.socket < |s.sockets.sent| && s.own != Some(e.socket) {
      StaleSocket(s, e.socket);
    }
  }

  lemma StepKeepsStatus<F>(s: System<F>, e: Event<F>)
    requires SocketsInv(s) && BatchInv(s) && StatusInv(s)
    ensures StatusInv(Step(s, e))
  {
    if e.Arrives? {
      ArriveKeepsStatus(s, e.socket, e.message);
    } else if e.Closes? || e.Fails? {
      SocketEndKeepsStatus(s, e);
    }
  }

  /** At every moment of every run there is at most one frame, at most one live socket, the newest. */
  lemma {:induction false} Invariant<F>(es: seq<Event<F>>)
    ensures Inv(Run(es))
  {
    if es != [] {
      Invariant(es[..|es| - 1]);
      StepKeepsSockets(Run(es[..|es| - 1]), es[|es| - 1]);
      StepKeepsBatch(Run(es[..|es| - 1]), es[|es| - 1]);
      StepKeepsStatus(Run(es[..|es| - 1]), es[|es| - 1]);
    }
  }

  /** No callback of a socket other than the one the effect run in force has opened touches the island. */
  lemma OlderConnectionNeverWrites<F>(es: seq<Event<F>>, i: nat, e: Event<F>)
    requires Run(es).own != Some(i)
    requires e == Closes(i) || e == Fails(i) || (e.Arrives? && e.socket == i)
    ensures Step(Run(es), e).view == Run(es).view
  {
    Invariant(es);
    if i < |Run(es).sockets.sent| {
      StaleSocket(Run(es), i);
    }
  }

  lemma StaleSocket<F>(s: System<F>, i: nat)
    requires SocketsInv(s) && i < |s.sockets.sent| && s.own != Some(i)
    ensures s.sockets.sent[i] != s.view.wsId
  {
    if s.own.Some? {
      assert i < s.own.value;
    }
  }

  /** What the error line says: the last complaint of the socket in force, or the last failure of a request. */
  lemma ErrorIsTheLastWord<F>(s: System<F>, e: Event<F>)
    ensures Step(s, e).view.error ==
              match e
              case Arrives(i, Trouble(message)) => if Current(s, i) then Some(message) else s.view.error
              case Arrives(i, Subscribed) => if Current(s, i) then None else s.view.error
              case HttpFail(reason) => if s.requests > 0 then Some(reason) else s.view.error
              case Fails(i) => if Current(s, i) then None else s.view.error
              case RunEffect(token) => if !s.connected && !token then None else s.view.error
              case Refresh => None
              case _ => s.view.error
  {
  }

  // ---------------------------------------------------------------- the table is faithful

  /** What the table shows, or will show at the next frame. */
  function Window<F>(v: Island<F>): seq<F> {
    Take(Reversed(v.pending) + v.flows, MAX_FLOWS)
  }

  /** While it is a connection's, the table holds the newest MAX_FLOWS flows received, newest first. */
  ghost predicate Faithful<F>(s: System<F>) {
    s.subscribed ==> Window(s.view) == Take(s.received, MAX_FLOWS)
  }

  /** An HTTP reply, which carries no generation, lands while a confirmed connection's socket is open. */
  predicate Late<F>(s: System<F>, e: Event<F>) {
    (e.HttpOk? || e.HttpFail?) && s.requests > 0 && s.subscribed && Listening(s)
  }

  /** The rows such a reply writes. */
  function Rows<F>(e: Event<F>): seq<F> {
    if e.HttpOk? then e.list else []
  }

  /** As far as the cap and the waiting batch let them show, the rows are those already listed. */
  ghost predicate Repeats<F>(v: Island<F>, rows: seq<F>) {
    |v.pending| >= MAX_FLOWS || Take(rows, MAX_FLOWS - |v.pending|) == Take(v.flows, MAX_FLOWS - |v.pending|)
  }

  lemma TakePast<F>(a: seq<F>, b: seq<F>, n: nat)
    ensures Take(a + b, n) == if |a| >= n then Take(a, n) else a + Take(b, n - |a|)
  {
  }

  /** A reply leaves what the table shows if and only if it repeats it. */
  lemma RepeatsExactly<F>(v: Island<F>, rows: seq<F>)
    ensures Window(v.(flows := rows)) == Window(v) <==> Repeats(v, rows)
  {
    var r := Reversed(v.pending);
    TakePast(r, rows, MAX_FLOWS);
    TakePast(r, v.flows, MAX_FLOWS);
    if |r| < MAX_FLOWS {
      var n := MAX_FLOWS - |r|;
      assert Take(rows, n) == Window(v.(flows := rows))[|r|..];
      assert Take(v.flows, n) == Window(v)[|r|..];
    }
  }

  lemma WindowPush<F>(v: Island<F>, received: seq<F>, x: F)
    requires Window(v) == Take(received, MAX_FLOWS)
    ensures Window(v.(pending := v.pending + [x])) == Take([x] + received, MAX_FLOWS)
  {
    ReversedPush(v.pending, x);
    var all := Reversed(v.pending) + v.flows;
    assert Reversed(v.pending + [x]) + v.flows == [x] + all;
    TakeTail([x], all, MAX_FLOWS);
    TakeTail([x], received, MAX_FLOWS);
  }

  lemma WindowFlush<F>(v: Island<F>)
    ensures Window(Flush(v)) == Window(v)
  {
    if v.pending != [] {
      assert Reversed<F>([]) + Flush(v).flows == Flush(v).flows;
    }
  }

  /** One step keeps the table faithful, provided a reset finds nothing waiting and a late reply repeats what is listed. */
  lemma StepFaithful<F>(s: System<F>, e: Event<F>)
    requires Inv(s) && Faithful(s)
    requires Resets(s, e) ==> s.view.pending == []
    requires Late(s, e) ==> Repeats(s.view, Rows(e))
    ensures Faithful(Step(s, e))
  {
    if e.Arrives? && Current(s, e.socket) && e.message.Flow? && s.subscribed {
      WindowPush(s.view, s.received, e.message.data);
    } else if e.Frame? {
      WindowFlush(s.view);
    } else if Late(s, e) {
      RepeatsExactly(s.view, Rows(e));
    }
  }

  /** And a reset that finds something waiting breaks it at once. */
  lemma ResetUnfaithful<F>(s: System<F>, e: Event<F>)
    requires Resets(s, e) && s.view.pending != []
    ensures !Faithful(Step(s, e))
  {
    var t := Step(s, e);
    assert |Reversed(t.view.pending) + t.view.flows| == |s.view.pending|;
    assert |Window(t.view)| > 0;
  }

  /** And so does a late reply that is anything else. */
  lemma LateReplyUnfaithful<F>(s: System<F>, e: Event<F>)
    requires Faithful(s) && Late(s, e) && !Repeats(s.view, Rows(e))
    ensures !Faithful(Step(s, e))
  {
    RepeatsExactly(s.view, Rows(e));
  }

  /** Every late reply repeats what is listed. */
  ghost predicate QuietReplies<F>(es: seq<Event<F>>) {
    forall k :: 0 <= k < |es| && Late(Run(es[..k]), es[k]) ==> Repeats(Run(es[..k]).view, Rows(es[k]))
  }

  /** No reply is late at all. */
  ghost predicate NoLateReplies<F>(es: seq<Event<F>>) {
    forall k :: 0 <= k < |es| ==> !Late(Run(es[..k]), es[k])
  }

  ghost predicate AlwaysFaithful<F>(es: seq<Event<F>>) {
    forall k :: 0 <= k <= |es| ==> Faithful(Run(es[..k]))
  }

  /** Every "subscribed" of the current connection arrives with no batch waiting. */
  ghost predicate CleanResets<F>(es: seq<Event<F>>) {
    forall k :: 0 <= k < |es| && Resets(Run(es[..k]), es[k]) ==> Run(es[..k]).view.pending == []
  }

  lemma RunPrefix<F>(es: seq<Event<F>>, k: nat)
    requires k < |es|
    ensures Run(es[..k + 1]) == Step(Run(es[..k]), es[k])
  {
    assert es[..k + 1][..k] == es[..k];
  }

  lemma {:induction false} CleanRunFaithful<F>(es: seq<Event<F>>, k: nat)
    requires QuietReplies(es) && CleanResets(es) && k <= |es|
    ensures Faithful(Run(es[..k]))
  {
    if k > 0 {
      CleanRunFaithful(es, k - 1);
      Invariant(es[..k - 1]);
      RunPrefix(es, k - 1);
      StepFaithful(Run(es[..k - 1]), es[k - 1]);
    }
  }

  /**
   Over every run, wherever the frames fall: the table is faithful throughout if and only if
   no reset ever finds a batch waiting and no late reply changes what is listed.
   */
  lemma FaithfulExactly<F>(es: seq<Event<F>>)
    ensures AlwaysFaithful(es) <==> CleanResets(es) && QuietReplies(es)
  {
    if CleanResets(es) && QuietReplies(es) {
      forall k | 0 <= k <= |es| ensures Faithful(Run(es[..k])) {
        CleanRunFaithful(es, k);
      }
    }
    if AlwaysFaithful(es) {
      forall k | 0 <= k < |es|
        ensures Resets(Run(es[..k]), es[k]) ==> Run(es[..k]).view.pending == []
        ensures Late(Run(es[..k]), es[k]) ==> Repeats(Run(es[..k]).view, Rows(es[k]))
      {
        RunPrefix(es, k);
        if Resets(Run(es[..k]), es[k]) && Run(es[..k]).view.pending != [] {
          ResetUnfaithful(Run(es[..k]), es[k]);
        }
        if Late(Run(es[..k]), es[k]) && !Repeats(Run(es[..k]).view, Rows(es[k])) {
          LateReplyUnfaithful(Run(es[..k]), es[k]);
        }
      }
    }
  }

  /** Replies before "subscribed" or after the socket has gone do no harm: where none is late, only the resets matter. */
  lemma EarlyRepliesAreHarmless<F>(es: seq<Event<F>>)
    requires NoLateReplies(es)
    ensures AlwaysFaithful(es) <==> CleanResets(es)
  {
    FaithfulExactly(es);
  }

  /** Nothing but an HTTP reply longer than that can put more than a thousand rows in the table. */
  lemma {:induction false} Capped<F>(es: seq<Event<F>>)
    requires forall k :: 0 <= k < |es| && es[k].HttpOk? ==> |es[k].list| <= 1000
    ensures |Run(es).view.flows| <= 1000
  {
    if es != [] {
      Capped(es[..|es| - 1]);
      StepCapped(Run(es[..|es| - 1]), es[|es| - 1]);
    }
  }

  lemma StepCapped<F>(s: System<F>, e: Event<F>)
    requires |s.view.flows| <= MAX_FLOWS && (e.HttpOk? ==> |e.list| <= MAX_FLOWS)
    ensures |Step(s, e).view.flows| <= MAX_FLOWS
  {
    match e
    case Frame(_) =>
    case Arrives(_, _) =>
    case _ =>
  }

  /** What the server does: on one connection no flow precedes its "subscribed". */
  ghost predicate SubscribedFirst<F>(es: seq<Event<F>>) {
    forall k :: 0 <= k < |es| && Resets(Run(es[..k]), es[k]) ==> Run(es[..k]).heard == 0
  }

  ghost predicate ResetsAt<F>(es: seq<Event<F>>, k: int) {
    0 <= k < |es| && Resets(Run(es[..k]), es[k])
  }

  ghost predicate LateAt<F>(es: seq<Event<F>>, k: int) {
    0 <= k < |es| && Late(Run(es[..k]), es[k])
  }

  /** Step `k` does the table no harm: a reset finds no batch, a late reply repeats what is listed. */
  ghost predicate HarmlessAt<F>(es: seq<Event<F>>, k: int) {
    && (ResetsAt(es, k) ==> Run(es[..k]).view.pending == [])
    && (LateAt(es, k) ==> Repeats(Run(es[..k]).view, Rows(es[k])))
  }

  lemma ResetFaithful<F>(s: System<F>, e: Event<F>)
    requires Resets(s, e) && s.view.pending == []
    ensures Faithful(Step(s, e))
  {
    assert Reversed<F>([]) + [] == [];
  }

  lemma FaithfulAfter<F>(es: seq<Event<F>>, m: nat)
    requires m < |es| && HarmlessAt(es, m)
    requires Faithful(Run(es[..m])) || ResetsAt(es, m)
    ensures Faithful(Run(es[..m + 1]))
  {
    RunPrefix(es, m);
    Invariant(es[..m]);
    if ResetsAt(es, m) {
      ResetFaithful(Run(es[..m]), es[m]);
    } else {
      StepFaithful(Run(es[..m]), es[m]);
    }
  }

  /** What holds at `k` and is kept by every step holds at `n`. */
  lemma {:induction false} Onwards(holds: nat -> bool, k: nat, n: nat)
    requires k <= n && holds(k)
    requires forall m :: k <= m < n && holds(m) ==> holds(m + 1)
    ensures holds(n)
  {
    if k < n {
      Onwards(holds, k, n - 1);
    }
  }

  /** What did not hold at first and holds at `n` has come about at some last time. */
  lemma {:induction false} LastTime(holds: nat -> bool, comes: nat -> bool, n: nat) returns (k: nat)
    requires !holds(0) && holds(n)
    requires forall m :: 0 < m <= n && holds(m) ==> comes(m - 1) || holds(m - 1)
    ensures k < n && comes(k) && forall m :: k < m < n ==> !comes(m)
  {
    if comes(n - 1) {
      k := n - 1;
    } else {
      k := LastTime(holds, comes, n - 1);
    }
  }

  ghost predicate HarmlessBetween<F>(es: seq<Event<F>>, k: nat, n: nat) {
    forall j :: k <= j < n ==> HarmlessAt(es, j)
  }

  ghost predicate FaithfulAt<F>(es: seq<Event<F>>, n: nat) {
    n <= |es| && Faithful(Run(es[..n]))
  }

  lemma FaithfulNext<F>(es: seq<Event<F>>, m: nat)
    requires m < |es| && HarmlessAt(es, m) && (FaithfulAt(es, m) || ResetsAt(es, m))
    ensures FaithfulAt(es, m + 1)
  {
    FaithfulAfter(es, m);
  }

  /** Whatever went before: from a reset that finds no batch on, only what comes later can harm the table. */
  lemma FaithfulSince<F>(es: seq<Event<F>>, k: nat, n: nat)
    requires ResetsAt(es, k) && k < n <= |es| && HarmlessBetween(es, k, n)
    ensures FaithfulAt(es, n)
  {
    var holds := (m: nat) => FaithfulAt(es, m);
    assert HarmlessAt(es, k);
    FaithfulNext(es, k);
    forall m: nat | k + 1 <= m < n && holds(m) ensures holds(m + 1) {
      assert HarmlessAt(es, m);
      FaithfulNext(es, m);
    }
    Onwards(holds, k + 1, n);
  }

  lemma SubscribedCame<F>(es: seq<Event<F>>, m: nat)
    requires m < |es| && Run(es[..m + 1]).subscribed && !ResetsAt(es, m)
    ensures Run(es[..m]).subscribed
  {
    RunPrefix(es, m);
    OnlyResetsSubscribe(Run(es[..m]), es[m]);
  }

  lemma NothingSubscribedAtFirst<F>(es: seq<Event<F>>)
    ensures !Run(es[..0]).subscribed
  {
  }

  /** A table that is a connection's has been reset, and there is a last time it was. */
  lemma LastReset<F>(es: seq<Event<F>>) returns (k: nat)
    requires Run(es).subscribed
    ensures ResetsAt(es, k) && forall j :: k < j < |es| ==> !ResetsAt(es, j)
  {
    var holds := (m: nat) => m <= |es| && Run(es[..m]).subscribed;
    var comes := (m: nat) => ResetsAt(es, m);
    NothingSubscribedAtFirst(es);
    assert es[..|es|] == es;
    forall m: nat | 0 < m <= |es| && holds(m) ensures comes(m - 1) || holds(m - 1) {
      if !comes(m - 1) {
        SubscribedCame(es, m - 1);
      }
    }
    k := LastTime(holds, comes, |es|);
    forall j | k < j < |es| ensures !ResetsAt(es, j) {
      assert !comes(j);
    }
  }

  lemma OnlyResetsSubscribe<F>(s: System<F>, e: Event<F>)
    requires Step(s, e).subscribed && !Resets(s, e)
    ensures s.subscribed
  {
    match e
    case Arrives(_, _) =>
    case _ =>
  }

  ghost predicate OwnCapped<F>(s: System<F>) {
    s.subscribed ==> |s.view.flows| <= MAX_FLOWS
  }

  lemma CappedSince<F>(es: seq<Event<F>>, k: nat, n: nat)
    requires ResetsAt(es, k) && k < n <= |es|
    requires forall j :: k < j < n ==> !LateAt(es, j)
    ensures OwnCapped(Run(es[..n]))
  {
    var holds := (m: nat) => m <= |es| && OwnCapped(Run(es[..m]));
    CappedAfter(es, k);
    forall m | k + 1 <= m < n && holds(m) ensures holds(m + 1) {
      CappedAfter(es, m);
    }
    Onwards(holds, k + 1, n);
  }

  lemma CappedAfter<F>(es: seq<Event<F>>, m: nat)
    requires m < |es|
    requires ResetsAt(es, m) || (OwnCapped(Run(es[..m])) && !LateAt(es, m))
    ensures OwnCapped(Run(es[..m + 1]))
  {
    RunPrefix(es, m);
    if ResetsAt(es, m) {
      ResetEmpties(Run(es[..m]), es[m]);
    } else {
      StepOwnCapped(Run(es[..m]), es[m]);
    }
  }

  lemma ResetEmpties<F>(s: System<F>, e: Event<F>)
    requires Resets(s, e)
    ensures OwnCapped(Step(s, e))
  {
  }

  lemma StepOwnCapped<F>(s: System<F>, e: Event<F>)
    requires OwnCapped(s) && !Late(s, e)
    ensures OwnCapped(Step(s, e))
  {
    match e
    case Frame(_) =>
    case Arrives(_, _) =>
    case _ =>
  }

  /** Every late reply has been followed by a reset, of the same or of a newer connection. */
  ghost predicate LateRepliesUndone<F>(es: seq<Event<F>>) {
    forall j :: LateAt(es, j) ==> exists k :: j < k && ResetsAt(es, k)
  }

  lemma HarmlessSince<F>(es: seq<Event<F>>, k: nat)
    requires SubscribedFirst(es) && ResetsAt(es, k)
    requires forall j :: k < j < |es| ==> !ResetsAt(es, j) && !LateAt(es, j)
    ensures HarmlessBetween(es, k, |es|)
  {
    Invariant(es[..k]);
    assert HarmlessAt(es, k);
    forall j | k < j < |es| ensures HarmlessAt(es, j) {
      assert !ResetsAt(es, j) && !LateAt(es, j);
    }
  }

  /** The flows that socket `i` brought, by the events from `from` on below `n`, oldest first. */
  function FlowsSince<F>(es: seq<Event<F>>, i: nat, from: nat, n: nat): seq<F>
    requires n <= |es|
  {
    if n <= from then []
    else
      var before := FlowsSince(es, i, from, n - 1);
      match es[n - 1]
      case Arrives(j, Flow(x)) => if j == i && i in Run(es[..n - 1]).sockets.open then before + [x] else before
      case _ => before
  }

  /** While the table is a connection's, `received` is what its socket has brought since its reset at `k`. */
  ghost predicate HistoryAt<F>(es: seq<Event<F>>, k: nat, n: nat)
    requires ResetsAt(es, k)
  {
    n <= |es| && (Run(es[..n]).subscribed ==>
                    && Run(es[..n]).own == Some(es[k].socket)
                    && Run(es[..n]).received == Reversed(FlowsSince(es, es[k].socket, k + 1, n)))
  }

  lemma HistoryStarts<F>(es: seq<Event<F>>, k: nat)
    requires ResetsAt(es, k)
    ensures HistoryAt(es, k, k + 1)
  {
    RunPrefix(es, k);
    Invariant(es[..k]);
    var s := Run(es[..k]);
    if s.own != Some(es[k].socket) {
      StaleSocket(s, es[k].socket);
      assert false;
    }
  }

  /** Between resets a step of a table that stays a connection's adds the flow its socket brings, or nothing. */
  lemma StepReceives<F>(s: System<F>, e: Event<F>)
    requires Inv(s) && s.subscribed && Step(s, e).subscribed && !Resets(s, e)
    ensures Step(s, e).own == s.own
    ensures Step(s, e).received ==
              match e
              case Arrives(j, Flow(x)) => if s.own == Some(j) && j in s.sockets.open then [x] + s.received else s.received
              case _ => s.received
  {
    if e.Arrives? && e.socket < |s.sockets.sent| && s.own != Some(e.socket) {
      StaleSocket(s, e.socket);
    }
  }

  lemma HistoryGoesOn<F>(es: seq<Event<F>>, k: nat, m: nat)
    requires ResetsAt(es, k) && k < m < |es| && !ResetsAt(es, m) && HistoryAt(es, k, m)
    ensures HistoryAt(es, k, m + 1)
  {
    var s, e, i := Run(es[..m]), es[m], es[k].socket;
    RunPrefix(es, m);
    if Step(s, e).subscribed {
      OnlyResetsSubscribe(s, e);
      Invariant(es[..m]);
      StepReceives(s, e);
      if e.Arrives? && e.message.Flow? {
        ReversedPush(FlowsSince(es, i, k + 1, m), e.message.data);
      }
    }
  }

  lemma HistorySince<F>(es: seq<Event<F>>, k: nat)
    requires ResetsAt(es, k) && forall j :: k < j < |es| ==> !ResetsAt(es, j)
    ensures HistoryAt(es, k, |es|)
  {
    var holds := (m: nat) => HistoryAt(es, k, m);
    HistoryStarts(es, k);
    forall m: nat | k + 1 <= m < |es| && holds(m) ensures holds(m + 1) {
      HistoryGoesOn(es, k, m);
    }
    Onwards(holds, k + 1, |es|);
  }

  /**
   So against that server, whatever happened to earlier connections: while the table is a
   connection's and no reply has come late since its last reset, at `k`, the list equals the
   newest flows its socket has brought since, newest first, whenever no batch is waiting, and
   with the batch in front of it at any other moment.
   */
  lemma KeepsNewestFlows<F>(es: seq<Event<F>>) returns (k: nat)
    requires LateRepliesUndone(es) && SubscribedFirst(es) && Run(es).subscribed
    ensures ResetsAt(es, k) && forall j :: k < j < |es| ==> !ResetsAt(es, j)
    ensures var newest := Take(Reversed(FlowsSince(es, es[k].socket, k + 1, |es|)), 1000);
            && Window(Run(es).view) == newest
            && (Run(es).view.raf == 0 ==> Run(es).view.flows == newest)
  {
    k := LastReset(es);
    HistorySince(es, k);
    WindowIsReceived(es, k);
    assert es[..|es|] == es;
  }

  lemma WindowIsReceived<F>(es: seq<Event<F>>, k: nat)
    requires LateRepliesUndone(es) && SubscribedFirst(es) && Run(es).subscribed
    requires ResetsAt(es, k) && forall j :: k < j < |es| ==> !ResetsAt(es, j)
    ensures Window(Run(es).view) == Take(Run(es).received, MAX_FLOWS)
    ensures Run(es).view.raf == 0 ==> Run(es).view.flows == Take(Run(es).received, MAX_FLOWS)
  {
    assert es[..|es|] == es;
    forall j | k < j < |es| ensures !LateAt(es, j) {
      assert LateAt(es, j) ==> exists later :: j < later && ResetsAt(es, later);
    }
    HarmlessSince(es, k);
    FaithfulSince(es, k, |es|);
    CappedSince(es, k, |es|);
    Invariant(es);
    var v := Run(es).view;
    assert v.raf == 0 ==> Reversed(v.pending) + v.flows == v.flows;
  }

  lemma RunAppend<F>(es: seq<Event<F>>, e: Event<F>)
    ensures Run(es + [e]) == Step(Run(es), e)
  {
    assert (es + [e])[..|es|] == es;
  }

  /** A subscribed connection with an HTTP request out beside it. */
  lemma SubscribedWhileFetching() returns (es: seq<Event<int>>)
    ensures es == [RunEffect(true)] + [Arrives(0, Subscribed)] + [Refresh]
    ensures Run(es) == System(Island(1, Some(1), Live, None, [], [], 0), true, Some(0), Flights([1], {0}), {}, 2, 1, true, None, 0, [])
  {
    var a, b := RunEffect(true), Arrives(0, Subscribed);
    assert Run<int>([]) == Start();
    RunAppend<int>([], a);
    assert [] + [a] == [a];
    RunAppend([a], b);
    RunAppend([a] + [b], Refresh);
    es := [a] + [b] + [Refresh];
  }

  /** A late reply that does not repeat the table: one landing after a flow erases it. */
  lemma HttpReplyErases() returns (es: seq<Event<int>>)
    ensures es == [RunEffect(true)] + [Arrives(0, Subscribed)] + [Refresh] + [Arrives(0, Flow(7))] + [HttpFail("")]
    ensures Run(es).subscribed && Run(es).received == [7] && Run(es).view.flows == []
    ensures !NoLateReplies(es)
  {
    var before := SubscribedWhileFetching();
    RunAppend(before, Arrives(0, Flow(7)));
    RunAppend(before + [Arrives(0, Flow(7))], HttpFail(""));
    es := before + [Arrives(0, Flow(7))] + [HttpFail("")];
    assert es[..4] == before + [Arrives(0, Flow(7))] && Late(Run(es[..4]), es[4]);
  }
}
