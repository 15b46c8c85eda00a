/** The shutdown ends: every step after it began lowers a measure, and no state before the end is
    stuck. */
module PipelineShutdown {
  import opened Sequences
  import opened Fifo
  import opened Batching
  import opened Pipeline

  function PopperWeight(p: Popper): nat {
    if Runnable(p) then 1 else 0
  }

  function WorkerWeight(w: Worker): nat {
    match w
    case AtPop(p) => PopperWeight(p)
    case Holding(_) => 4
  }

  function WorkersWeight(ws: seq<Worker>): nat {
    if ws == [] then 0 else WorkersWeight(ws[..|ws| - 1]) + WorkerWeight(ws[|ws| - 1])
  }

  function MainWeight(m: Main): nat {
    match m
    case Receiving => 4
    case JoiningWorkers => 3
    case JoiningSender => 1
    case Finished => 0
  }

  /** What is left to do. */
  function Measure(s: State): nat {
    4 * |s.raw.items| + WorkersWeight(s.workers) + |s.bulk.items| + PopperWeight(s.sender) + MainWeight(s.main)
  }

  lemma {:induction false} WeightUpdate(ws: seq<Worker>, i: nat, w: Worker)
    requires i < |ws|
    ensures WorkersWeight(ws[i := w]) + WorkerWeight(ws[i]) == WorkersWeight(ws) + WorkerWeight(w)
  {
    var n := |ws| - 1;
    if i == n {
      assert ws[i := w][..n] == ws[..n];
    } else {
      assert ws[i := w][..n] == ws[..n][i := w];
      WeightUpdate(ws[..n], i, w);
    }
  }

  predicate ShuttingDown(s: State) {
    s.main != Receiving
  }

  lemma StepLowersMeasure(s: State, a: Action)
    requires Inv(s) && ShuttingDown(s) && Enabled(s, a) && !Spurious(a)
    ensures ShuttingDown(Next(s, a)) && Measure(Next(s, a)) < Measure(s)
  {
    hide Conserved, Batched, WorkersWeight, Flat, Held, WokenCount;
    match a
    case WorkerPop(w) => WeightUpdate(s.workers, w, Next(s, a).workers[w]);
    case WorkerPush(w) => WeightUpdate(s.workers, w, AtPop(Ready));
    case CloseBulk =>
    case Finish =>
    case SenderPop =>
  }

  /** A spurious wake-up costs one look at the queue. */
  lemma SpuriousRaisesByOne(s: State, a: Action)
    requires Inv(s) && ShuttingDown(s) && Enabled(s, a) && Spurious(a)
    ensures ShuttingDown(Next(s, a)) && Measure(Next(s, a)) == Measure(s) + 1
  {
    hide Conserved, Batched, WorkersWeight, Flat, Held, WokenCount;
    match a
    case SpuriousWorker(w) => WeightUpdate(s.workers, w, AtPop(Woken));
    case SpuriousSender =>
  }

  function SpuriousCount(actions: seq<Action>): nat {
    if actions == [] then 0 else (if Spurious(actions[0]) then 1 else 0) + SpuriousCount(actions[1..])
  }

  /** Once the shutdown has begun, no more steps are possible than the measure counts, and two for
      every spurious wake-up: itself and the look it causes. */
  lemma {:induction false} ShutdownIsBounded(s: State, actions: seq<Action>, t: State)
    requires Inv(s) && ShuttingDown(s) && Leads(s, actions, t)
    ensures |actions| + Measure(t) <= Measure(s) + 2 * SpuriousCount(actions) && ShuttingDown(t)
    decreases |actions|
  {
    hide Inv, Measure, Next, Enabled;
    if actions != [] {
      if Spurious(actions[0]) {
        SpuriousRaisesByOne(s, actions[0]);
      } else {
        StepLowersMeasure(s, actions[0]);
      }
      InvNext(s, actions[0]);
      ShutdownIsBounded(Next(s, actions[0]), actions[1..], t);
    }
  }

  /** Before the end some thread can always take a step of its own accord. */
  lemma NeverStuck(s: State) returns (a: Action)
    requires Inv(s) && ShuttingDown(s) && s.main != Finished
    ensures Enabled(s, a) && !Spurious(a)
  {
    hide Conserved, Batched, Flat, Held, WokenCount;
    if i :| 0 <= i < |s.workers| && s.workers[i] != AtPop(Done) {
      if s.workers[i].Holding? {
        return WorkerPush(i);
      }
      assert s.workers[i] != AtPop(Asleep);
      return WorkerPop(i);
    }
    if s.main == JoiningWorkers {
      return CloseBulk;
    }
    if s.sender == Done {
      return Finish;
    }
    return SenderPop;
  }

  /** From the moment the receiver stops, with any number of workers and any interleaving: a run is no
      longer than the measure and two steps for each spurious wake-up in it, and one that only a
      spurious wake-up could continue has finished with all threads gone. */
  lemma AllThreadsExit(n: nat, s: State, actions: seq<Action>, t: State)
    requires Reachable(n, s) && ShuttingDown(s) && Leads(s, actions, t)
    ensures |actions| <= Measure(s) + 2 * SpuriousCount(actions)
    ensures (forall a | Enabled(t, a) :: Spurious(a)) ==>
              t.main == Finished && t.sender == Done && AllDone(t.workers)
  {
    hide Measure, Enabled, Next, Conserved, Batched, NoLostWakeup;
    InvReachable(n, s);
    ShutdownIsBounded(s, actions, t);
    InvLeads(s, actions, t);
    if t.main != Finished {
      var a := NeverStuck(t);
    }
  }

  lemma {:induction false} LeadsOn(s: State, before: seq<Action>, mid: State, after: seq<Action>, t: State)
    requires Leads(s, before, mid) && Leads(mid, after, t)
    ensures Leads(s, before + after, t)
    decreases |before|
  {
    if before == [] {
      assert before + after == after;
    } else {
      var all := before + after;
      assert all[0] == before[0] && all[1..] == before[1..] + after;
      LeadsOn(Next(s, before[0]), before[1..], mid, after, t);
    }
  }

  lemma {:induction false} NothingNewIsPushed(s: State, actions: seq<Action>, t: State)
    requires ShuttingDown(s) && Leads(s, actions, t)
    ensures t.pushed == s.pushed
    decreases |actions|
  {
    hide Held, Flat;
    if actions != [] {
      NothingNewIsPushed(Next(s, actions[0]), actions[1..], t);
    }
  }

  /** The whole promise of the shutdown: with at least one worker, wherever the receiver stops and
      however the threads interleave, a run, spurious wake-ups included, that goes on until no
      thread can move of its own accord has sent exactly the messages pushed before the stop. */
  lemma ShutdownDelivers(n: nat, s: State, actions: seq<Action>, t: State)
    requires n > 0 && Reachable(n, s) && ShuttingDown(s) && Leads(s, actions, t)
    requires forall a | Enabled(t, a) :: Spurious(a)
    ensures t.main == Finished && multiset(Flat(t.sent)) == multiset(s.pushed) && WellCut(t.sent)
  {
    hide Measure, Enabled, Next, Inv, Flat, WellCut;
    AllThreadsExit(n, s, actions, t);
    var before :| Leads(Init(n), before, s);
    LeadsOn(Init(n), before, s, actions, t);
    NothingNewIsPushed(s, actions, t);
    ShutdownSendsEverything(n, t);
  }

  // ---- One worker keeps the order ----

  function InHand(ws: seq<Worker>): seq<Msg> {
    if |ws| == 1 && ws[0].Holding? then [ws[0].m] else []
  }

  /** What has passed the workers, and what has not. */
  function Passed(s: State): seq<Msg> {
    Flat(s.sent) + s.batch + s.bulk.items
  }

  function Waiting(s: State): seq<Msg> {
    InHand(s.workers) + s.raw.items
  }

  /** The pushed messages, read from the sent end to the raw end. */
  ghost predicate Ordered(s: State) {
    s.pushed == Passed(s) + Waiting(s)
  }

  lemma SendKeepsPassed(s: State)
    requires Enabled(s, SenderPop)
    ensures Passed(Next(s, SenderPop)) == Passed(s)
  {
    hide Flat;
    FlatAppend(s.sent, s.batch);
    if s.bulk.items != [] {
      FlatAppend(s.sent, s.batch + [s.bulk.items[0]]);
      assert s.bulk.items == [s.bulk.items[0]] + s.bulk.items[1..];
    }
  }

  lemma PopKeepsWaiting(s: State, w: nat)
    requires |s.workers| == 1 && Enabled(s, WorkerPop(w))
    ensures Waiting(Next(s, WorkerPop(w))) == Waiting(s)
  {
    if s.raw.items != [] {
      assert s.raw.items == [s.raw.items[0]] + s.raw.items[1..];
    }
  }

  lemma PushPasses(s: State, w: nat)
    requires |s.workers| == 1 && !s.bulk.closed && Enabled(s, WorkerPush(w))
    ensures Passed(Next(s, WorkerPush(w))) == Passed(s) + [s.workers[0].m]
    ensures [s.workers[0].m] + Waiting(Next(s, WorkerPush(w))) == Waiting(s)
  {
    hide Flat;
  }

  lemma OrderedNext(s: State, a: Action)
    requires |s.workers| == 1 && Staged(s) && Ordered(s) && Enabled(s, a)
    ensures Ordered(Next(s, a))
  {
    hide Flat;
    var next := Next(s, a);
    match a
    case SenderPop =>
      SendKeepsPassed(s);
    case WorkerPop(w) =>
      PopKeepsWaiting(s, w);
    case WorkerPush(w) =>
      assert !s.bulk.closed;
      PushPasses(s, w);
    case Receive(m, _) =>
      assert Waiting(next) == Waiting(s) + [m];
    case CloseRaw =>
      assert InHand(next.workers) == InHand(s.workers);
    case SpuriousWorker(w) =>
    case CloseBulk =>
    case Finish =>
    case SpuriousSender =>
  }

  lemma {:induction false} OrderedLeads(s: State, actions: seq<Action>, t: State)
    requires |s.workers| == 1 && Inv(s) && Ordered(s) && Leads(s, actions, t)
    ensures Ordered(t)
    decreases |actions|
  {
    hide Ordered, Conserved, Batched, Staged, NoLostWakeup;
    if actions != [] {
      OrderedNext(s, actions[0]);
      InvNext(s, actions[0]);
      OrderedLeads(Next(s, actions[0]), actions[1..], t);
    }
  }

  /** With a single worker the order of arrival is kept: at every moment the messages pushed are
      those sent, batched, queued, held and waiting, in that order. */
  lemma OneWorkerKeepsOrder(s: State)
    requires Reachable(1, s)
    ensures s.pushed == Flat(s.sent) + s.batch + s.bulk.items + InHand(s.workers) + s.raw.items
    ensures s.main == Finished ==> Flat(s.sent) == s.pushed
  {
    var actions :| Leads(Init(1), actions, s);
    InvInit(1);
    OrderedLeads(Init(1), actions, s);
    InvReachable(1, s);
    Assoc(Passed(s), InHand(s.workers), s.raw.items);
    if s.main == Finished {
      assert s.workers[0] == AtPop(Done);
    }
  }
}
