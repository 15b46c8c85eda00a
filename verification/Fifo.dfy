/** The closable FIFO of the NetFlow consumer, as what one pass under its mutex does to a value. */
module Fifo {

  type Msg = string

  /** The queue as its users see it. */
  datatype Q = Q(items: seq<Msg>, closed: bool)

  /** One look at the queue by a popper: an item, nothing yet, or closed and empty for good. */
  datatype PopResult = Item(m: Msg) | Wait | Drained

  function Push(q: Q, m: Msg): Q {
    if q.closed then q else q.(items := q.items + [m])
  }

  function Pop(q: Q): (PopResult, Q) {
    if q.items != [] then (Item(q.items[0]), q.(items := q.items[1..]))
    else (if q.closed then Drained else Wait, q)
  }

  function Close(q: Q): Q {
    q.(closed := true)
  }

  // ---- The order of a queue ----

  function PushAll(q: Q, ms: seq<Msg>): Q {
    if ms == [] then q else Push(PushAll(q, ms[..|ms| - 1]), ms[|ms| - 1])
  }

  /** The queue after n pops. */
  function PopAll(q: Q, n: nat): Q {
    if n == 0 then q else Pop(PopAll(q, n - 1)).1
  }

  lemma {:induction false} PushedInOrder(q: Q, ms: seq<Msg>)
    ensures PushAll(q, ms) == if q.closed then q else Q(q.items + ms, false)
    decreases |ms|
  {
    if ms == [] {
      assert q.items + [] == q.items;
    } else {
      PushedInOrder(q, ms[..|ms| - 1]);
      assert q.items + ms == q.items + ms[..|ms| - 1] + [ms[|ms| - 1]];
    }
  }

  lemma {:induction false} PoppedInOrder(q: Q, n: nat)
    requires n <= |q.items|
    ensures PopAll(q, n) == q.(items := q.items[n..])
  {
    if n > 0 {
      PoppedInOrder(q, n - 1);
    }
  }

  /** Messages come out in the order they went in; a push after the close changes nothing; once all are
      out a popper waits at an open queue and is sent away from a closed one. */
  lemma FirstInFirstOut(ms: seq<Msg>, late: seq<Msg>, n: nat)
    requires n <= |ms|
    ensures var open := PushAll(Q([], false), ms);
      var shut := PushAll(Close(open), late);
      && Pop(PopAll(open, n)).0 == (if n < |ms| then Item(ms[n]) else Wait)
      && Pop(PopAll(shut, n)).0 == (if n < |ms| then Item(ms[n]) else Drained)
  {
    hide Push, PopAll, PushAll;
    PushedInOrder(Q([], false), ms);
    assert [] + ms == ms;
    PushedInOrder(Close(PushAll(Q([], false), ms)), late);
    PoppedInOrder(Q(ms, false), n);
    PoppedInOrder(Q(ms, true), n);
  }
}
