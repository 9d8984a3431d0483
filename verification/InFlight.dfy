/**
 Requests in flight, with replies in any order.

 Every asynchronous island keeps asking the network for something and is answered in an
 order it does not control.  A `Flights` value is the part of that story the islands share:
 the requests sent so far, numbered in the order they left, and the numbers still open.
 */
module InFlight {

  datatype Flights<Q> = Flights(sent: seq<Q>, open: set<nat>) {

    ghost predicate Valid() {
      forall i :: i in open ==> i < |sent|
    }

    function Send(q: Q): Flights<Q> {
      Flights(sent + [q], open + {|sent|})
    }

    function Settle(i: nat): Flights<Q> {
      Flights(sent, open - {i})
    }

    /** Request `i` has been answered. */
    predicate Settled(i: nat) {
      i < |sent| && i !in open
    }

    predicate IsNewest(i: nat) {
      i + 1 == |sent|
    }

    predicate NewestOpen() {
      |sent| > 0 && |sent| - 1 in open
    }
  }

  /** Nothing sent is forgotten, and what has been answered is never open again. */
  ghost predicate Extends<Q>(before: Flights<Q>, after: Flights<Q>) {
    && before.sent <= after.sent
    && forall i :: before.Settled(i) ==> after.Settled(i)
  }
}
