/**
 The latest-wins preview shared by the wizards: a generation counter, a loading flag, an
 error and a text that the user may edit while a request is under way.
 */
module Preview {
  import opened InFlight
  import opened Options

  /** `previewGen`, `previewLoading`, `previewError` and `previewYaml`. */
  datatype Board = Board(gen: nat, loading: bool, error: Option<string>, yaml: string)

  datatype Outcome = Yaml(text: string) | Failed(message: string)

  const BLANK := Board(0, false, None, "")

  /** The part of `fetchPreview` before its request leaves. */
  function Begin(b: Board): Board {
    b.(gen := b.gen + 1, loading := true, error := None)
  }

  /** The part of `fetchPreview` after its reply, `gen` being the number it captured. */
  function Land(b: Board, gen: nat, o: Outcome): Board {
    if gen != b.gen then b
    else match o
      case Yaml(text) => b.(yaml := text, loading := false)
      case Failed(message) => b.(error := Some(message), loading := false)
  }

  /** The board, the requests it has out, and what has come back so far. */
  datatype Session<P> = Session(
    board: Board,
    flights: Flights<P>,
    replies: map<nat, Outcome>,
    edited: bool)

  datatype Event<P> =
    | Request(payload: P)
    | Reply(i: nat, outcome: Outcome)
    | Edit(text: string)

  function Opened<P>(): Session<P> {
    Session(BLANK, Flights([], {}), map[], false)
  }

  /** The generation captured by request `i` is `i + 1`. */
  function Step<P>(s: Session<P>, e: Event<P>): Session<P> {
    match e
    case Request(p) =>
      s.(board := Begin(s.board), flights := s.flights.Send(p))
    case Reply(i, o) =>
      if i !in s.flights.open then s
      else Session(Land(s.board, i + 1, o), s.flights.Settle(i), s.replies[i := o],
                   s.edited && !s.flights.IsNewest(i))
    case Edit(text) =>
      s.(board := s.board.(yaml := text), edited := true)
  }

  function Run<P>(es: seq<Event<P>>): Session<P> {
    if es == [] then Opened() else Step(Run(es[..|es| - 1]), es[|es| - 1])
  }

  /** What the newest reply, once it is in, has left on the board. */
  ghost predicate Shows<P>(s: Session<P>, o: Outcome) {
    match o
    case Yaml(text) => s.board.error == None && (!s.edited ==> s.board.yaml == text)
    case Failed(message) => s.board.error == Some(message)
  }

  ghost predicate Inv<P>(s: Session<P>) {
    && s.flights.Valid()
    && s.board.gen == |s.flights.sent|
    && (forall i :: i in s.replies <==> s.flights.Settled(i))
    && (s.board.loading <==> s.flights.NewestOpen())
    && (s.board.loading ==> s.board.error == None)
    && (s.flights.sent == [] ==> s.board.error == None)
    && (forall i :: i in s.replies && s.flights.IsNewest(i) ==> Shows(s, s.replies[i]))
  }

  lemma StepKeepsInv<P>(s: Session<P>, e: Event<P>)
    requires Inv(s)
    ensures Inv(Step(s, e))
    ensures Extends(s.flights, Step(s, e).flights)
  {
    var t := Step(s, e);
    if e.Reply? && e.i in s.flights.open {
      assert t.flights.IsNewest(e.i) ==> t.board == Land(s.board, s.board.gen, e.outcome);
      forall i ensures i in t.replies <==> t.flights.Settled(i) {
        assert i in s.replies <==> s.flights.Settled(i);
      }
    } else if e.Request? {
      forall i ensures i in t.replies <==> t.flights.Settled(i) {
        assert i in s.replies <==> s.flights.Settled(i);
      }
    }
  }

  /**
   For any number of requests and any order of replies: loading says exactly whether the
   newest request is open, and once it is not, the board shows the newest reply.
   */
  lemma {:induction false} LatestWins<P>(es: seq<Event<P>>)
    ensures Inv(Run(es))
  {
    if es != [] {
      LatestWins(es[..|es| - 1]);
      StepKeepsInv(Run(es[..|es| - 1]), es[|es| - 1]);
    }
  }

  /** Once loading is over, the newest request has its reply and the board shows it. */
  lemma NewestShown<P>(s: Session<P>)
    requires Inv(s) && s.flights.sent != [] && !s.board.loading
    ensures |s.flights.sent| - 1 in s.replies && Shows(s, s.replies[|s.flights.sent| - 1])
  {
    var newest := |s.flights.sent| - 1;
    assert s.flights.Settled(newest) && s.flights.IsNewest(newest);
  }

  /** A reply that is not the newest request's leaves the whole board as it was. */
  lemma OlderReplyNeverWrites<P>(es: seq<Event<P>>, i: nat, o: Outcome)
    requires i in Run(es).flights.open && !Run(es).flights.IsNewest(i)
    ensures Step(Run(es), Reply(i, o)).board == Run(es).board
  {
    LatestWins(es);
  }

  /** The text changes only by an edit and by a text that answers the newest request; else it stays on screen. */
  lemma TextStays<P>(es: seq<Event<P>>, e: Event<P>)
    ensures Step(Run(es), e).board.yaml ==
              match e
              case Edit(text) => text
              case Reply(i, Yaml(text)) =>
                if i in Run(es).flights.open && Run(es).flights.IsNewest(i) then text else Run(es).board.yaml
              case _ => Run(es).board.yaml
  {
    LatestWins(es);
  }

  /** Two sessions with the same requests and replies end alike, in whatever order these came. */
  lemma OrderDoesNotMatter<P>(a: seq<Event<P>>, b: seq<Event<P>>)
    requires Run(a).flights.sent == Run(b).flights.sent
    requires Run(a).replies == Run(b).replies
    requires !Run(a).edited && !Run(b).edited
    ensures Run(a).board.(yaml := "") == Run(b).board.(yaml := "")
    ensures forall i :: i in Run(a).replies && Run(a).flights.IsNewest(i) && Run(a).replies[i].Yaml?
              ==> Run(a).board == Run(b).board
  {
    LatestWins(a);
    LatestWins(b);
    var s, t := Run(a), Run(b);
    if s.flights.sent != [] {
      var newest := |s.flights.sent| - 1;
      assert s.flights.Settled(newest) <==> t.flights.Settled(newest);
      assert s.flights.IsNewest(newest) && t.flights.IsNewest(newest);
    }
  }
}
