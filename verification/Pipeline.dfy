/**
  The NetFlow consumer as a transition system: one receiver (main), any number of workers, one
  sender, two closable queues with a condition variable each, and the ordered shutdown. Every
  critical section is one step.
 */
module Pipeline {
  import opened Fifo
  import opened Batching

  /** Where a thread stands that pops: about to look, asleep on the condition variable, woken but
      not yet running, or out of its loop. */
  datatype Popper = Ready | Asleep | Woken | Done

  /** A worker pops the raw queue, then pushes what it got on the bulk queue, unchanged. */
  datatype Worker = AtPop(p: Popper) | Holding(m: Msg)

  datatype Main = Receiving | JoiningWorkers | JoiningSender | Finished

  /** `pushed` records, in order, every message the receiver handed to queue_push. */
  datatype State = State(
    raw: Q,
    bulk: Q,
    workers: seq<Worker>,
    sender: Popper,
    batch: seq<Msg>,
    sent: seq<seq<Msg>>,
    main: Main,
    pushed: seq<Msg>)

  datatype Action =
    | Receive(m: Msg, wake: nat)
    | CloseRaw
    | CloseBulk
    | Finish
    | WorkerPop(w: nat)
    | WorkerPush(w: nat)
    | SenderPop
    | SpuriousWorker(w: nat)
    | SpuriousSender

  function Init(n: nat): State {
    State(Q([], false), Q([], false), seq(n, _ => AtPop(Ready)), Ready, [], [], Receiving, [])
  }

  predicate Runnable(p: Popper) {
    p == Ready || p == Woken
  }

  predicate AllDone(ws: seq<Worker>) {
    forall i | 0 <= i < |ws| :: ws[i] == AtPop(Done)
  }

  predicate NoneAsleep(ws: seq<Worker>) {
    forall i | 0 <= i < |ws| :: ws[i] != AtPop(Asleep)
  }

  /** pthread_cond_signal wakes one sleeper of the implementation's choice, if there is one. */
  predicate WakeChoice(ws: seq<Worker>, wake: nat) {
    if NoneAsleep(ws) then wake == |ws| else wake < |ws| && ws[wake] == AtPop(Asleep)
  }

  function WakeOne(ws: seq<Worker>, wake: nat): seq<Worker> {
    if wake < |ws| then ws[wake := AtPop(Woken)] else ws
  }

  /** pthread_cond_broadcast. */
  function WakeAll(ws: seq<Worker>): (r: seq<Worker>)
    ensures |r| == |ws|
    ensures forall i | 0 <= i < |ws| :: r[i] == if ws[i] == AtPop(Asleep) then AtPop(Woken) else ws[i]
  {
    seq(|ws|, i requires 0 <= i < |ws| => if ws[i] == AtPop(Asleep) then AtPop(Woken) else ws[i])
  }

  function WakeSender(p: Popper): Popper {
    if p == Asleep then Woken else p
  }

  predicate Enabled(s: State, a: Action) {
    match a
    case Receive(_, wake) => s.main == Receiving && WakeChoice(s.workers, wake)
    case CloseRaw => s.main == Receiving
    case CloseBulk => s.main == JoiningWorkers && AllDone(s.workers)
    case Finish => s.main == JoiningSender && s.sender == Done
    case WorkerPop(w) => w < |s.workers| && s.workers[w].AtPop? && Runnable(s.workers[w].p)
    case WorkerPush(w) => w < |s.workers| && s.workers[w].Holding?
    case SenderPop => Runnable(s.sender)
    case SpuriousWorker(w) => w < |s.workers| && s.workers[w] == AtPop(Asleep)
    case SpuriousSender => s.sender == Asleep
  }

  /** queue_push signals only when the queue is open. */
  function ReceiveStep(s: State, m: Msg, wake: nat): State {
    s.(raw := Push(s.raw, m),
       workers := if s.raw.closed then s.workers else WakeOne(s.workers, wake),
       pushed := s.pushed + [m])
  }

  function WorkerPopStep(s: State, w: nat): State
    requires w < |s.workers|
  {
    var (r, q) := Pop(s.raw);
    s.(raw := q,
       workers := s.workers[w := match r
                                 case Item(m) => Holding(m)
                                 case Wait => AtPop(Asleep)
                                 case Drained => AtPop(Done)])
  }

  function WorkerPushStep(s: State, w: nat): State
    requires w < |s.workers| && s.workers[w].Holding?
  {
    s.(bulk := Push(s.bulk, s.workers[w].m),
       sender := if s.bulk.closed then s.sender else WakeSender(s.sender),
       workers := s.workers[w := AtPop(Ready)])
  }

  /** The sender's loop body: fill the batch, send it when full, send the rest on NULL. */
  function SenderPopStep(s: State): State {
    var (r, q) := Pop(s.bulk);
    match r
    case Item(m) =>
      var batch := s.batch + [m];
      if |batch| >= BULK_SIZE then s.(bulk := q, sender := Ready, sent := s.sent + [batch], batch := [])
      else s.(bulk := q, sender := Ready, batch := batch)
    case Wait => s.(sender := Asleep)
    case Drained =>
      if |s.batch| > 0 then s.(sender := Done, sent := s.sent + [s.batch], batch := [])
      else s.(sender := Done)
  }

  function Next(s: State, a: Action): State
    requires Enabled(s, a)
  {
    match a
    case Receive(m, wake) => ReceiveStep(s, m, wake)
    case CloseRaw => s.(raw := Close(s.raw), workers := WakeAll(s.workers), main := JoiningWorkers)
    case CloseBulk => s.(bulk := Close(s.bulk), sender := WakeSender(s.sender), main := JoiningSender)
    case Finish => s.(main := Finished)
    case WorkerPop(w) => WorkerPopStep(s, w)
    case WorkerPush(w) => WorkerPushStep(s, w)
    case SenderPop => SenderPopStep(s)
    case SpuriousWorker(w) => s.(workers := s.workers[w := AtPop(Woken)])
    case SpuriousSender => s.(sender := Woken)
  }

  predicate Spurious(a: Action) {
    a.SpuriousWorker? || a.SpuriousSender?
  }

  /** The actions lead from s to t, each enabled where the ones before it lead. */
  ghost predicate Leads(s: State, actions: seq<Action>, t: State)
    decreases |actions|
  {
    if actions == [] then s == t
    else Enabled(s, actions[0]) && Leads(Next(s, actions[0]), actions[1..], t)
  }

  ghost predicate Reachable(n: nat, s: State) {
    exists actions :: Leads(Init(n), actions, s)
  }

  // ---- Counting ----

  /** The messages in the workers' hands. */
  function Held(ws: seq<Worker>): multiset<Msg> {
    if ws == [] then multiset{}
    else Held(ws[..|ws| - 1]) + HeldBy(ws[|ws| - 1])
  }

  function HeldBy(w: Worker): multiset<Msg> {
    if w.Holding? then multiset{w.m} else multiset{}
  }

  /** The workers woken and not yet running. */
  function WokenCount(ws: seq<Worker>): nat {
    if ws == [] then 0
    else WokenCount(ws[..|ws| - 1]) + if ws[|ws| - 1] == AtPop(Woken) then 1 else 0
  }

  lemma HeldNil()
    ensures Held([]) == multiset{}
  {
  }

  lemma HeldLast(ws: seq<Worker>)
    requires ws != []
    ensures Held(ws) == Held(ws[..|ws| - 1]) + HeldBy(ws[|ws| - 1])
  {
  }

  lemma Shuffle(a: multiset<Msg>, b: multiset<Msg>, h: multiset<Msg>, l: multiset<Msg>)
    ensures (a + b + h) + l == a + (b + l) + h
  {
  }

  lemma {:induction false} HeldSplit(ws: seq<Worker>, i: nat)
    requires i < |ws|
    ensures Held(ws) == Held(ws[..i]) + Held(ws[i + 1..]) + HeldBy(ws[i])
  {
    hide Held, HeldBy;
    var n := |ws| - 1;
    HeldLast(ws);
    if i < n {
      var front, back := ws[..n], ws[i + 1..];
      HeldSplit(front, i);
      HeldLast(back);
      assert front[..i] == ws[..i] && back[..|back| - 1] == front[i + 1..];
      Shuffle(Held(ws[..i]), Held(front[i + 1..]), HeldBy(ws[i]), HeldBy(ws[n]));
    } else {
      assert ws[n + 1..] == [];
      HeldNil();
    }
  }

  lemma HeldUpdate(ws: seq<Worker>, i: nat, w: Worker)
    requires i < |ws|
    ensures !ws[i].Holding? && !w.Holding? ==> Held(ws[i := w]) == Held(ws)
    ensures !ws[i].Holding? && w.Holding? ==> Held(ws[i := w]) == Held(ws) + multiset{w.m}
    ensures ws[i].Holding? && !w.Holding? ==> Held(ws) == Held(ws[i := w]) + multiset{ws[i].m}
  {
    hide Held;
    var u := ws[i := w];
    HeldSplit(ws, i);
    HeldSplit(u, i);
    assert u[..i] == ws[..i] && u[i + 1..] == ws[i + 1..];
  }

  lemma {:induction false} WokenUpdate(ws: seq<Worker>, i: nat, w: Worker)
    requires i < |ws|
    ensures WokenCount(ws[i := w]) + (if ws[i] == AtPop(Woken) then 1 else 0)
            == WokenCount(ws) + (if w == AtPop(Woken) then 1 else 0)
  {
    var n := |ws| - 1;
    if i == n {
      assert ws[i := w][..n] == ws[..n];
    } else {
      assert ws[i := w][..n] == ws[..n][i := w];
      WokenUpdate(ws[..n], i, w);
    }
  }

  lemma {:induction false} HeldWakeAll(ws: seq<Worker>)
    ensures Held(WakeAll(ws)) == Held(ws)
  {
    if ws != [] {
      var n := |ws| - 1;
      assert WakeAll(ws)[..n] == WakeAll(ws[..n]);
      HeldWakeAll(ws[..n]);
    }
  }

  lemma {:induction false} HeldNone(ws: seq<Worker>)
    requires forall i | 0 <= i < |ws| :: !ws[i].Holding?
    ensures Held(ws) == multiset{}
  {
    if ws != [] {
      HeldNone(ws[..|ws| - 1]);
    }
  }

  // ---- The invariant ----

  /** The messages the workers have passed on. */
  function Onward(s: State): multiset<Msg> {
    multiset(s.bulk.items) + multiset(s.batch) + multiset(Flat(s.sent))
  }

  /** Each pushed message is in exactly one place. */
  ghost predicate Conserved(s: State) {
    multiset(s.pushed) == multiset(s.raw.items) + Held(s.workers) + Onward(s)
  }

  /** The sender cuts the stream it pops into batches of exactly 1000; only on leaving may it send
      a shorter one. */
  ghost predicate Batched(s: State) {
    && |s.batch| < BULK_SIZE
    && (s.sender != Done ==> AllFull(s.sent))
    && (s.sender == Done ==> WellCut(s.sent) && s.batch == [])
  }

  /** How far the shutdown is, and what that says of queues and threads. */
  ghost predicate Staged(s: State) {
    && (s.raw.closed <==> s.main != Receiving)
    && (s.bulk.closed <==> s.main == JoiningSender || s.main == Finished)
    && (s.bulk.closed ==> AllDone(s.workers))
    && (s.main == Finished ==> s.sender == Done)
    && (forall i | 0 <= i < |s.workers| && s.workers[i] == AtPop(Done) :: s.raw == Q([], true))
    && (s.sender == Done ==> s.bulk == Q([], true))
  }

  /** No wake-up is lost: while some popper sleeps, every queued item has a woken popper coming for
      it; on a closed queue nobody sleeps. */
  ghost predicate NoLostWakeup(s: State) {
    && (!NoneAsleep(s.workers) ==> |s.raw.items| <= WokenCount(s.workers) && !s.raw.closed)
    && (s.sender == Asleep ==> s.bulk == Q([], false))
  }

  ghost predicate Inv(s: State) {
    Conserved(s) && Batched(s) && Staged(s) && NoLostWakeup(s)
  }

  lemma ConservedPop(s: State, w: nat)
    requires Conserved(s) && Enabled(s, WorkerPop(w))
    ensures Conserved(Next(s, WorkerPop(w)))
  {
    hide Flat, Held;
    var next := Next(s, WorkerPop(w));
    HeldUpdate(s.workers, w, next.workers[w]);
    if s.raw.items != [] {
      SplitFirst(s.raw.items);
    }
  }

  lemma ConservedPush(s: State, w: nat)
    requires Conserved(s) && Staged(s) && Enabled(s, WorkerPush(w))
    ensures Conserved(Next(s, WorkerPush(w)))
  {
    hide Flat, Held;
    var next, m := Next(s, WorkerPush(w)), s.workers[w].m;
    HeldUpdate(s.workers, w, AtPop(Ready));
    assert !s.bulk.closed;
    assert Onward(next) == Onward(s) + multiset{m};
    assert Held(next.workers) + multiset{m} == Held(s.workers);
  }

  lemma ConservedReceive(s: State, m: Msg, wake: nat)
    requires Conserved(s) && Staged(s) && Enabled(s, Receive(m, wake))
    ensures Conserved(Next(s, Receive(m, wake)))
  {
    hide Flat, Held;
    if wake < |s.workers| {
      HeldUpdate(s.workers, wake, AtPop(Woken));
    }
  }

  lemma SplitFirst(items: seq<Msg>)
    requires items != []
    ensures multiset(items) == multiset{items[0]} + multiset(items[1..])
  {
    assert items == [items[0]] + items[1..];
  }

  /** The sender neither loses nor invents a message on its way from queue to batch to wire. */
  lemma SendKeepsContent(s: State)
    ensures Onward(SenderPopStep(s)) == Onward(s)
  {
    hide Onward;
    var t := SenderPopStep(s);
    if s.bulk.items != [] {
      var batch := s.batch + [s.bulk.items[0]];
      MovesToBatch(s, s.bulk.items[1..], batch);
      if |batch| >= BULK_SIZE {
        BatchIsSent(s.(bulk := t.bulk, batch := batch), t);
      }
      SameOnward(if |batch| >= BULK_SIZE then s.(bulk := t.bulk, batch := [], sent := t.sent)
                 else s.(bulk := t.bulk, batch := batch), t);
    } else {
      if s.bulk.closed && |s.batch| > 0 {
        BatchIsSent(s, t);
      }
      SameOnward(s.(batch := t.batch, sent := t.sent), t);
    }
  }

  lemma SameOnward(s: State, t: State)
    requires s.bulk.items == t.bulk.items && s.batch == t.batch && s.sent == t.sent
    ensures Onward(s) == Onward(t)
  {
  }

  lemma MovesToBatch(s: State, items: seq<Msg>, batch: seq<Msg>)
    requires s.bulk.items != [] && items == s.bulk.items[1..] && batch == s.batch + [s.bulk.items[0]]
    ensures Onward(s.(bulk := s.bulk.(items := items), batch := batch)) == Onward(s)
  {
    hide Flat;
    SplitFirst(s.bulk.items);
    assert multiset(items) + multiset(batch) == multiset(s.bulk.items) + multiset(s.batch);
  }

  lemma BatchIsSent(s: State, t: State)
    requires t.bulk.items == s.bulk.items && t.batch == [] && t.sent == s.sent + [s.batch]
    ensures Onward(t) == Onward(s)
  {
    hide Flat;
    FlatAppend(s.sent, s.batch);
    assert multiset(Flat(t.sent)) == multiset(Flat(s.sent)) + multiset(s.batch);
  }

  lemma ConservedSend(s: State)
    requires Conserved(s) && Enabled(s, SenderPop)
    ensures Conserved(Next(s, SenderPop))
  {
    hide Flat, Held, Onward;
    SendKeepsContent(s);
  }

  lemma ConservedNext(s: State, a: Action)
    requires Inv(s) && Enabled(s, a)
    ensures Conserved(Next(s, a))
  {
    hide Flat, Held, Batched, NoLostWakeup, WakeAll;
    match a
    case Receive(m, wake) => ConservedReceive(s, m, wake);
    case CloseRaw => HeldWakeAll(s.workers);
    case CloseBulk =>
    case Finish =>
    case WorkerPop(w) => ConservedPop(s, w);
    case WorkerPush(w) => ConservedPush(s, w);
    case SenderPop => ConservedSend(s);
    case SpuriousWorker(w) => HeldUpdate(s.workers, w, AtPop(Woken));
    case SpuriousSender =>
  }

  lemma BatchedNext(s: State, a: Action)
    requires Inv(s) && Enabled(s, a)
    ensures Batched(Next(s, a))
  {
    hide Flat, AllFull, WellCut, Conserved, NoLostWakeup;
    if a.SenderPop? {
      if s.bulk.items != [] {
        if |s.batch| + 1 == BULK_SIZE { CutAppend(s.sent, s.batch + [s.bulk.items[0]]); }
      } else if s.bulk.closed {
        if |s.batch| > 0 { CutAppend(s.sent, s.batch); } else { FullIsWellCut(s.sent); }
      }
    }
  }

  lemma StagedNext(s: State, a: Action)
    requires Inv(s) && Enabled(s, a)
    ensures Staged(Next(s, a))
  {
    hide Conserved, Batched, NoLostWakeup, Flat;
  }

  lemma WokenStays(ws: seq<Worker>, i: nat, w: Worker)
    requires i < |ws|
    ensures !NoneAsleep(ws[i := w])
            <==> w == AtPop(Asleep) || exists j | 0 <= j < |ws| && j != i :: ws[j] == AtPop(Asleep)
  {
    var u := ws[i := w];
    assert u[i] == w;
    assert forall j | 0 <= j < |ws| && j != i :: u[j] == ws[j];
  }

  lemma NoLostWakeupNext(s: State, a: Action)
    requires Inv(s) && Enabled(s, a)
    ensures NoLostWakeup(Next(s, a))
  {
    hide Conserved, Batched, Flat, WokenCount;
    match a
    case Receive(_, wake) =>
      if wake < |s.workers| {
        WokenUpdate(s.workers, wake, AtPop(Woken));
        WokenStays(s.workers, wake, AtPop(Woken));
      }
    case CloseRaw =>
    case CloseBulk =>
    case Finish =>
    case WorkerPop(w) =>
      WokenUpdate(s.workers, w, Next(s, a).workers[w]);
      WokenStays(s.workers, w, Next(s, a).workers[w]);
    case WorkerPush(w) =>
      WokenUpdate(s.workers, w, AtPop(Ready));
      WokenStays(s.workers, w, AtPop(Ready));
    case SenderPop =>
    case SpuriousWorker(w) =>
      WokenUpdate(s.workers, w, AtPop(Woken));
      WokenStays(s.workers, w, AtPop(Woken));
    case SpuriousSender =>
  }

  lemma InvNext(s: State, a: Action)
    requires Inv(s) && Enabled(s, a)
    ensures Inv(Next(s, a))
  {
    hide Next, Conserved, Batched, Staged, NoLostWakeup;
    ConservedNext(s, a);
    BatchedNext(s, a);
    StagedNext(s, a);
    NoLostWakeupNext(s, a);
  }

  lemma {:induction false} InvLeads(s: State, actions: seq<Action>, t: State)
    requires Inv(s) && Leads(s, actions, t)
    ensures Inv(t) && |t.workers| == |s.workers|
    decreases |actions|
  {
    hide Inv;
    if actions != [] {
      InvNext(s, actions[0]);
      InvLeads(Next(s, actions[0]), actions[1..], t);
    }
  }

  lemma InvInit(n: nat)
    ensures Inv(Init(n))
  {
    HeldNone(Init(n).workers);
  }

  lemma InvReachable(n: nat, s: State)
    requires Reachable(n, s)
    ensures Inv(s) && |s.workers| == n
  {
    hide Inv;
    var actions :| Leads(Init(n), actions, s);
    InvInit(n);
    InvLeads(Init(n), actions, s);
  }

  // ---- Main results: safety ----

  /** In every reachable state each pushed message is in exactly one place: the raw queue, a
      worker's hand, the bulk queue, the current batch, or a batch sent. */
  lemma EachMessageIsInOnePlace(n: nat, s: State)
    requires Reachable(n, s)
    ensures multiset(s.pushed)
            == multiset(s.raw.items) + Held(s.workers) + multiset(s.bulk.items) + multiset(s.batch)
               + multiset(Flat(s.sent))
  {
    InvReachable(n, s);
  }

  /** Every batch sent so far holds exactly 1000, except that the very last may be shorter and then
      the sender has left. */
  lemma BatchesAreFull(n: nat, s: State)
    requires Reachable(n, s)
    ensures WellCut(s.sent) && |s.batch| < 1000
    ensures forall i | 0 <= i < |s.sent| && |s.sent[i]| != 1000 :: i == |s.sent| - 1 && s.sender == Done
  {
    InvReachable(n, s);
    if s.sender != Done {
      FullIsWellCut(s.sent);
    }
  }

  /** No push ever reaches a closed queue, so queue_push never drops a message. */
  lemma NoPushIsDropped(n: nat, s: State, a: Action)
    requires Reachable(n, s) && Enabled(s, a)
    ensures a.Receive? ==> !s.raw.closed
    ensures a.WorkerPush? ==> !s.bulk.closed
  {
    InvReachable(n, s);
  }

  /** No wake-up is lost. */
  lemma WakeupsAreNotLost(n: nat, s: State)
    requires Reachable(n, s)
    ensures !NoneAsleep(s.workers) ==> |s.raw.items| <= WokenCount(s.workers)
    ensures s.raw.closed ==> NoneAsleep(s.workers)
    ensures s.sender == Asleep ==> s.bulk.items == [] && !s.bulk.closed
  {
    InvReachable(n, s);
  }

  /** After the shutdown sequence everything pushed has been sent, and nothing else, exactly when
      there is a worker at all or nothing was pushed. */
  lemma ShutdownSendsEverything(n: nat, s: State)
    requires Reachable(n, s) && s.main == Finished
    ensures multiset(Flat(s.sent)) == multiset(s.pushed) <==> n > 0 || s.pushed == []
    ensures n > 0 ==> s.raw.items == [] && s.bulk.items == [] && s.batch == [] && WellCut(s.sent)
  {
    InvReachable(n, s);
    HeldNone(s.workers);
    if n > 0 {
      assert s.workers[0] == AtPop(Done);
    } else {
      NothingWithoutWorkers(s);
      assert |multiset(s.pushed)| == |s.pushed|;
    }
  }

  /** Without a worker nothing leaves the raw queue. */
  lemma NothingWithoutWorkers(s: State)
    requires Reachable(0, s)
    ensures Flat(s.sent) == []
  {
    var actions :| Leads(Init(0), actions, s);
    IdleWithoutWorkers(Init(0), actions, s);
  }

  predicate Idle(s: State) {
    s.workers == [] && s.bulk.items == [] && s.batch == [] && s.sent == []
  }

  lemma {:induction false} IdleWithoutWorkers(s: State, actions: seq<Action>, t: State)
    requires Idle(s) && Leads(s, actions, t)
    ensures Idle(t)
    decreases |actions|
  {
    if actions != [] {
      IdleWithoutWorkers(Next(s, actions[0]), actions[1..], t);
    }
  }
}
