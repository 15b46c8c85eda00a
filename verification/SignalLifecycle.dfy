/** The life of one signal as its documents tell it. */
module SignalLifecycle {
  import opened Options
  import opened SignalTypes
  import opened SignalRedis
  import opened SignalSpec
  import opened SignalRuns
  import opened SignalInvariants
  import opened SignalHistory

  // ---- One document per change ----

  /** The document a change emits. */
  function DocOf(st: State, c: Change): Signal
    requires !c.Add? ==> c.i < |st.table|
  {
    match c
    case Add(rule, msg, id, nowText) => NewSignal(rule, msg, id, st.clock, nowText)
    case Cool(i, msg, nowText) => Cooled(st.table[i], msg, st.clock, nowText)
    case Promote(i) => Opened(st.table[i], st.clock)
    case Retire(i) => Retired(st.table[i], st.clock)
  }

  lemma EmitsOne(st: State, c: Change)
    requires !c.Add? ==> c.i < |st.table|
    ensures Apply(st, c).docs == st.docs + [DocOf(st, c)]
  {
  }

  /** The statuses the lifecycle lets follow the last one. */
  predicate Follows(last: Option<Status>, next: Status) {
    match last
    case None => next == WarmUp
    case Some(WarmUp) => next == Open || next == CoolDown
    case Some(Open) => next == CoolDown
    case Some(CoolDown) => next == CoolDown || next == Closed
    case Some(Closed) => false
  }

  function StatusOf(d: Option<Signal>): Option<Status> {
    if d.None? then None else Some(d.value.status)
  }

  lemma DocFollows(st: State, c: Change)
    requires MirroredCore(st) && Legal(st, c)
    ensures var d := DocOf(st, c); Follows(StatusOf(LastDoc(st.docs, d.id)), d.status)
  {
    hide Encode, Backed, LastLive, LastDoc, Ids, RuleByName, Fits;
    match c
    case Add(rule, msg, id, nowText) => NotInDocs(st.docs, id);
    case Cool(i, _, _) => assert Sound(st.table[i]);
    case Promote(_) =>
    case Retire(_) =>
  }

  // ---- The shape of a life ----

  /** Every status emitted for the id, oldest first. */
  function Statuses(docs: seq<Signal>, id: string): seq<Status> {
    if docs == [] then []
    else
      Statuses(docs[..|docs| - 1], id)
      + if docs[|docs| - 1].id == id then [docs[|docs| - 1].status] else []
  }

  lemma NewStatus(docs: seq<Signal>, d: Signal)
    ensures forall id :: Statuses(docs + [d], id)
                         == Statuses(docs, id) + if d.id == id then [d.status] else []
  {
    assert (docs + [d])[..|docs|] == docs;
  }

  lemma {:induction false} LastStatus(docs: seq<Signal>, id: string)
    ensures var w := Statuses(docs, id);
            StatusOf(LastDoc(docs, id)) == if w == [] then None else Some(w[|w| - 1])
  {
    if docs != [] {
      LastStatus(docs[..|docs| - 1], id);
    }
  }

  /** warmUp, then open at most once, then coolDown, then closed at most once. */
  function Life(opens: nat, cools: nat, closes: nat): seq<Status> {
    [WarmUp] + seq(opens, _ => Open) + seq(cools, _ => CoolDown) + seq(closes, _ => Closed)
  }

  ghost predicate Lifecycle(w: seq<Status>) {
    w == [] || exists opens: nat, cools: nat, closes: nat ::
      w == Life(opens, cools, closes) && opens <= 1 && closes <= 1 && (closes == 1 ==> cools >= 1)
  }

  lemma LifecycleGrows(w: seq<Status>, next: Status)
    requires Lifecycle(w)
    requires Follows(if w == [] then None else Some(w[|w| - 1]), next)
    ensures Lifecycle(w + [next])
  {
    if w == [] {
      assert w + [next] == Life(0, 0, 0);
    } else {
      var o: nat, c: nat, x: nat :|
        w == Life(o, c, x) && o <= 1 && x <= 1 && (x == 1 ==> c >= 1);
      match next
      case WarmUp =>
      case Open => assert w + [next] == Life(1, 0, 0);
      case CoolDown => assert w + [next] == Life(o, c + 1, 0);
      case Closed => assert w + [next] == Life(o, c, 1);
    }
  }

  ghost predicate Lives(st: State) {
    MirroredCore(st) && forall id :: Lifecycle(Statuses(st.docs, id))
  }

  lemma LivesAfter(st: State, c: Change)
    requires Lives(st) && Legal(st, c)
    ensures forall id :: Lifecycle(Statuses(Apply(st, c).docs, id))
  {
    hide Encode, Backed, LastLive, LastDoc, Ids, Legal, Apply, DocOf, Lifecycle, Core, Mirrored, Follows, Statuses;
    var d := DocOf(st, c);
    EmitsOne(st, c);
    NewStatus(st.docs, d);
    LastStatus(st.docs, d.id);
    DocFollows(st, c);
    LifecycleGrows(Statuses(st.docs, d.id), d.status);
    forall id ensures Lifecycle(Statuses(Apply(st, c).docs, id)) {
      if id != d.id {
        assert Statuses(st.docs, id) + [] == Statuses(st.docs, id);
      }
    }
  }

  lemma LivesIsInductive()
    ensures Inductive(Lives)
  {
    hide Core, Mirrored, Lifecycle, Legal, Apply;
    MirroredIsInductive();
    forall st: State, c: Change | Lives(st) && Legal(st, c) ensures Lives(Apply(st, c)) {
      LivesAfter(st, c);
    }
  }

  lemma LivesHolds(r: Run)
    requires LegalRun(r) && RestartFree(r)
    ensures Lives(Final(r))
  {
    hide Lives, Final, LegalRun, RestartFree, Inductive, SurvivesRestart;
    LivesIsInductive();
    LivesAtStart(r.start);
    RunKeeps(Lives, r);
  }

  lemma LivesAtStart(now: int)
    ensures Lives(Init(now))
  {
  }

  /** In every run without restarts the statuses emitted for one id are a prefix of warmUp, open at
      most once, one or more coolDown, closed; and the id is active exactly between its first and
      its closing document. */
  lemma EveryLifeIsInOrder(r: Run, id: string)
    requires LegalRun(r) && RestartFree(r)
    ensures var w := Statuses(Final(r).docs, id);
      && Lifecycle(w)
      && (id in Ids(Final(r).table) <==> w != [] && w[|w| - 1] != Closed)
  {
    LivesHolds(r);
    ActiveMeansNotClosed(Final(r), id);
  }

  lemma ActiveMeansNotClosed(st: State, id: string)
    requires Lives(st)
    ensures var w := Statuses(st.docs, id);
            id in Ids(st.table) <==> w != [] && w[|w| - 1] != Closed
  {
    hide Encode, Backed, LastLive, LastDoc, Lifecycle, Statuses;
    LastStatus(st.docs, id);
    if id in Ids(st.table) {
      var i :| 0 <= i < |st.table| && st.table[i].id == id;
      assert LastDoc(st.docs, st.table[i].id) == Some(st.table[i]) && Sound(st.table[i]);
    }
  }

  // ---- What documents keep across restarts ----

  /** Documents are in time order, carry an end time exactly from the first close on, start with
      warmUp, and stop at closed. */
  ghost predicate Orderly(st: State) {
    && (forall k | 0 <= k < |st.docs| :: EndTimeRight(st.docs[k]) && st.docs[k].changedAt <= st.clock)
    && (forall j, k | 0 <= j < k < |st.docs| :: InOrder(st.docs[j], st.docs[k]))
    && (forall k | 0 <= k < |st.docs| && st.docs[k].status == Closed :: st.docs[k].id !in Ids(st.table))
  }

  predicate EndTimeRight(d: Signal) {
    d.endTime == "" <==> Live(d.status)
  }

  predicate InOrder(a: Signal, b: Signal) {
    && a.changedAt <= b.changedAt
    && (a.id == b.id ==> a.status != Closed && b.status != WarmUp)
  }

  ghost predicate OrderlyCore(st: State) {
    Core(st) && Orderly(st)
  }

  lemma DocIsOrderly(st: State, c: Change)
    requires OrderlyCore(st) && Legal(st, c)
    ensures var d := DocOf(st, c);
      && EndTimeRight(d) && d.changedAt == st.clock
      && (forall j | 0 <= j < |st.docs| && st.docs[j].id == d.id :: st.docs[j].status != Closed && d.status != WarmUp)
  {
    hide Encode, Backed, LastLive, RuleByName, Fits, Ids;
    match c
    case Add(_, _, id, _) => assert forall j | 0 <= j < |st.docs| :: st.docs[j].id != id;
    case Cool(i, _, _) => IdIn(st.table, i); assert Sound(st.table[i]);
    case Promote(i) => IdIn(st.table, i); assert Sound(st.table[i]);
    case Retire(i) => IdIn(st.table, i); assert Sound(st.table[i]);
  }

  lemma IdsAfter(st: State, c: Change)
    requires Core(st) && Legal(st, c)
    ensures Ids(Apply(st, c).table) == match c
                                       case Add(_, _, id, _) => Ids(st.table) + {id}
                                       case Cool(_, _, _) => Ids(st.table)
                                       case Promote(_) => Ids(st.table)
                                       case Retire(i) => Ids(st.table) - {st.table[i].id}
  {
    hide Encode, Backed, Ids, RuleByName, Sound, Save, Delete;
    match c
    case Add(_, _, _, _) => IdsAppend(st.table, DocOf(st, c));
    case Cool(i, _, _) => IdsUpdate(st.table, i, DocOf(st, c));
    case Promote(i) => IdsUpdate(st.table, i, DocOf(st, c));
    case Retire(i) => IdsRemove(st.table, i);
  }

  lemma OrderlyAfter(st: State, c: Change)
    requires OrderlyCore(st) && Legal(st, c)
    ensures Orderly(Apply(st, c))
  {
    hide Core, Legal, DocOf, Ids, EndTimeRight;
    var d, next := DocOf(st, c), Apply(st, c);
    EmitsOne(st, c);
    DocIsOrderly(st, c);
    IdsAfter(st, c);
    NewId(st, c);
    forall k | 0 <= k < |next.docs| && next.docs[k].status == Closed ensures next.docs[k].id !in Ids(next.table) {
    }
  }

  lemma NewId(st: State, c: Change)
    requires Legal(st, c)
    ensures c.Add? ==> DocOf(st, c).id == c.id && DocOf(st, c).status == WarmUp && !HasId(st.docs, c.id)
    ensures (c.Cool? || c.Promote?) ==> DocOf(st, c).status != Closed
    ensures c.Retire? ==> DocOf(st, c).id == st.table[c.i].id
  {
  }

  lemma OrderlyIsInductive()
    ensures Inductive(OrderlyCore) && SurvivesRestart(OrderlyCore)
  {
    hide Legal, Apply, Load, Ids;
    CoreIsInductive();
    CoreSurvivesRestart();
    forall st: State, c: Change | OrderlyCore(st) && Legal(st, c) ensures OrderlyCore(Apply(st, c)) {
      OrderlyAfter(st, c);
    }
    forall st: State, order | OrderlyCore(st) && Enumerates(order, st.redis.ids)
      ensures OrderlyCore(Restarted(st, order))
    {
      TableSize(st, order);
    }
  }

  /** Restarts included: documents carry an end time exactly in coolDown and closed, their times
      never run backwards, nothing follows a closed document of the same id, and only the first
      document of an id says warmUp. */
  lemma DocumentsAreOrderly(r: Run)
    requires LegalRun(r)
    ensures var docs := Final(r).docs;
      && (forall k | 0 <= k < |docs| :: docs[k].endTime == "" <==> Live(docs[k].status))
      && (forall j, k | 0 <= j < k < |docs| :: docs[j].changedAt <= docs[k].changedAt)
      && (forall j, k | 0 <= j < k < |docs| && docs[j].id == docs[k].id ::
            docs[j].status != Closed && docs[k].status != WarmUp)
  {
    hide Core;
    OrderlyIsInductive();
    OrderlyAtStart(r.start);
    RunKeeps(OrderlyCore, r);
    var docs := Final(r).docs;
    forall j, k | 0 <= j < k < |docs|
      ensures docs[j].changedAt <= docs[k].changedAt
      ensures docs[j].id == docs[k].id ==> docs[j].status != Closed && docs[k].status != WarmUp
    {
      assert InOrder(docs[j], docs[k]);
    }
    forall k | 0 <= k < |docs| ensures docs[k].endTime == "" <==> Live(docs[k].status) {
      assert EndTimeRight(docs[k]);
    }
  }

  lemma OrderlyAtStart(now: int)
    ensures OrderlyCore(Init(now))
  {
  }
}
