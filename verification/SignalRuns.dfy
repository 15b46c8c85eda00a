/** Runs of the signal engine, and the induction principle every invariant below is proved with. */
module SignalRuns {
  import opened Options
  import opened SignalTypes
  import opened SignalRedis
  import opened SignalSpec

  /** One atomic step: a Kafka payload, a monitor tick, a rule reload, or a crash and restart.
      ids are the fresh UUIDs the step may use, order the order SMEMBERS answers in. */
  datatype Step =
    | Receive(payload: Option<Json>, ids: seq<string>, now: int, nowText: string)
    | Monitor(now: int)
    | Reload(rows: Option<seq<Rule>>)
    | Restart(order: seq<string>)

  predicate FreshIds(st: State, ids: seq<string>) {
    && (forall k | 0 <= k < |ids| :: |ids[k]| == ID_MAX && !HasId(st.table, ids[k]) && !HasId(st.docs, ids[k]))
    && (forall k, l | 0 <= k < l < |ids| :: ids[k] != ids[l])
  }

  predicate Enabled(st: State, step: Step) {
    match step
    case Receive(payload, ids, now, nowText) =>
      && st.clock <= now
      && IsTimeText(nowText)
      && FreshIds(st, ids)
      && var m := ParseMessage(payload);
         m.Some? ==> |MatchesFor(st, m.value)| <= |ids|
    case Monitor(now) => st.clock <= now
    case Reload(_) => true
    case Restart(order) => Enumerates(order, st.redis.ids)
  }

  /** What a crash and restart leave: the table is what Redis holds, the rules are not loaded yet. */
  function Restarted(st: State, order: seq<string>): State {
    st.(table := Load(st.redis, order), rules := [])
  }

  function Next(st: State, step: Step): State
    requires Enabled(st, step)
  {
    match step
    case Receive(payload, ids, now, nowText) =>
      var m := ParseMessage(payload);
      if m.None? then At(st, now) else Handle(At(st, now), m.value, ids, nowText)
    case Monitor(now) => Tick(At(st, now))
    case Reload(rows) => st.(rules := LoadedRules(rows))
    case Restart(order) => Restarted(st, order)
  }

  function Init(now: int): State {
    State([], [], EMPTY, [], now)
  }

  /** A run is a start time and a list of steps, each enabled where the ones before it lead. */
  datatype Run = Run(start: int, steps: seq<Step>)

  ghost predicate LegalRun(r: Run)
    decreases |r.steps|, 0
  {
    r.steps == [] || (LegalRun(Before(r)) && Enabled(Final(Before(r)), r.steps[|r.steps| - 1]))
  }

  function Before(r: Run): Run
    requires r.steps != []
  {
    Run(r.start, r.steps[..|r.steps| - 1])
  }

  ghost function Final(r: Run): State
    requires LegalRun(r)
    decreases |r.steps|, 1
  {
    if r.steps == [] then Init(r.start) else Next(Final(Before(r)), r.steps[|r.steps| - 1])
  }

  function Then(r: Run, step: Step): Run {
    Run(r.start, r.steps + [step])
  }

  lemma Extends(r: Run, step: Step)
    requires LegalRun(r) && Enabled(Final(r), step)
    ensures LegalRun(Then(r, step)) && Final(Then(r, step)) == Next(Final(r), step)
  {
    hide Enabled, Next;
    assert Before(Then(r, step)) == r;
  }

  predicate RestartFree(r: Run) {
    forall k | 0 <= k < |r.steps| :: !r.steps[k].Restart?
  }

  // ---- Induction over runs ----

  /** P survives the clock, a reload, and every legal change whose message and rule, if it creates
      a signal, are ok together. */
  ghost predicate InductiveWhen(P: State -> bool, ok: (Message, Rule) -> bool) {
    && (forall st: State, now | P(st) && st.clock <= now :: P(At(st, now)))
    && (forall st: State, rules | P(st) :: P(st.(rules := rules)))
    && (forall st: State, c: Change | P(st) && Legal(st, c) && (c.Add? ==> ok(c.msg, c.rule)) :: P(Apply(st, c)))
  }

  /** The same with no condition on what a signal is created from. */
  ghost predicate Inductive(P: State -> bool) {
    && (forall st: State, now | P(st) && st.clock <= now :: P(At(st, now)))
    && (forall st: State, rules | P(st) :: P(st.(rules := rules)))
    && (forall st: State, c: Change | P(st) && Legal(st, c) :: P(Apply(st, c)))
  }

  lemma InductiveAnyway(P: State -> bool)
    requires Inductive(P)
    ensures InductiveWhen(P, AnyMatch)
  {
    hide Legal, Apply;
  }

  predicate AnyMatch(msg: Message, rule: Rule) {
    true
  }

  ghost predicate SurvivesRestart(P: State -> bool) {
    forall st: State, order | P(st) && Enumerates(order, st.redis.ids) :: P(Restarted(st, order))
  }

  /** Every rule the step's message matches is ok with the message. */
  predicate StepMatches(st: State, step: Step, ok: (Message, Rule) -> bool) {
    step.Receive? ==>
      var m := ParseMessage(step.payload);
      m.Some? ==> forall k | 0 <= k < |MatchesFor(st, m.value)| :: ok(m.value, MatchesFor(st, m.value)[k].rule)
  }

  ghost predicate AllMatches(r: Run, ok: (Message, Rule) -> bool)
    requires LegalRun(r)
    decreases |r.steps|
  {
    r.steps == [] || (AllMatches(Before(r), ok) && StepMatches(Final(Before(r)), r.steps[|r.steps| - 1], ok))
  }

  lemma {:induction false} AnyMatches(r: Run)
    requires LegalRun(r)
    ensures AllMatches(r, AnyMatch)
    decreases |r.steps|
  {
    if r.steps != [] {
      AnyMatches(Before(r));
    }
  }

  lemma {:induction false} TickKeeps(P: State -> bool, ok: (Message, Rule) -> bool, st: State, k: nat)
    requires InductiveWhen(P, ok) && P(st) && k <= |st.table|
    ensures P(TickTo(st, k))
  {
    if k == 0 {
      TickStart(st);
    } else {
      TickKeeps(P, ok, st, k - 1);
      TickStep(st, k - 1);
      var mid, i := TickTo(st, k - 1), LeftOf(st, k - 1);
      match FateOf(st.table[k - 1], st.rules, st.clock)
      case Kept =>
      case Promoted => assert Legal(mid, Promote(i));
      case Dropped => assert Legal(mid, Retire(i));
    }
  }

  lemma FindIdAppend(t: seq<Signal>, s: Signal, id: string)
    ensures HasId(t + [s], id) <==> HasId(t, id) || s.id == id
  {
    assert (t + [s])[|t|] == s;
    assert forall i | 0 <= i < |t| :: (t + [s])[i] == t[i];
  }

  /** Ids the handling has not used yet are still fresh. */
  lemma HandleMatchIds(st: State, m: RuleMatch, msg: Message, id: string, nowText: string, other: string)
    requires !HasId(st.table, other) && !HasId(st.docs, other) && id != other
    ensures var next := HandleMatch(st, m, msg, id, nowText);
            !HasId(next.table, other) && !HasId(next.docs, other)
  {
    var next := HandleMatch(st, m, msg, id, nowText);
    if next != st {
      var s := next.docs[|next.docs| - 1];
      assert next.docs == st.docs + [s];
      FindIdAppend(st.docs, s, other);
      if m.kind == MatchOpen {
        FindIdAppend(st.table, s, other);
      } else {
        assert forall i | 0 <= i < |next.table| :: next.table[i].id == st.table[i].id;
      }
    }
  }

  lemma {:induction false} HandleUpToIds(st: State, ms: seq<RuleMatch>, msg: Message, ids: seq<string>,
                                         nowText: string, k: nat, other: string)
    requires k <= |ms| <= |ids|
    requires !HasId(st.table, other) && !HasId(st.docs, other)
    requires forall l | 0 <= l < k :: ids[l] != other
    ensures var mid := HandleUpTo(st, ms, msg, ids, nowText, k);
            !HasId(mid.table, other) && !HasId(mid.docs, other)
  {
    if k > 0 {
      HandleUpToIds(st, ms, msg, ids, nowText, k - 1, other);
      HandleMatchIds(HandleUpTo(st, ms, msg, ids, nowText, k - 1), ms[k - 1], msg, ids[k - 1], nowText, other);
    }
  }

  lemma HandleMatchKeeps(P: State -> bool, ok: (Message, Rule) -> bool, st: State, m: RuleMatch, msg: Message,
                         id: string, nowText: string)
    requires InductiveWhen(P, ok) && P(st) && FreshIds(st, [id]) && IsTimeText(nowText) && ok(msg, m.rule)
    ensures P(HandleMatch(st, m, msg, id, nowText))
  {
    hide Apply;
    assert [id][0] == id;
    var i := FindFirst(st.table, msg.device, m.rule.name, msg.tags);
    if m.kind == MatchOpen && i == |st.table| && |st.table| < MAX_SIGNALS {
      assert Legal(st, Add(m.rule, msg, id, nowText));
    } else if m.kind == MatchClose && i < |st.table| {
      assert Legal(st, Cool(FindId(st.table, st.table[i].id), msg, nowText));
    }
  }

  lemma {:induction false} HandleKeeps(P: State -> bool, ok: (Message, Rule) -> bool, st: State,
                                       ms: seq<RuleMatch>, msg: Message, ids: seq<string>, nowText: string, k: nat)
    requires InductiveWhen(P, ok) && P(st)
    requires k <= |ms| <= |ids| && FreshIds(st, ids) && IsTimeText(nowText)
    requires forall l | 0 <= l < |ms| :: ok(msg, ms[l].rule)
    ensures P(HandleUpTo(st, ms, msg, ids, nowText, k))
  {
    hide InductiveWhen, HandleMatch;
    if k > 0 {
      HandleKeeps(P, ok, st, ms, msg, ids, nowText, k - 1);
      HandleUpToIds(st, ms, msg, ids, nowText, k - 1, ids[k - 1]);
      HandleMatchKeeps(P, ok, HandleUpTo(st, ms, msg, ids, nowText, k - 1), ms[k - 1], msg, ids[k - 1], nowText);
    }
  }

  lemma StepKeeps(P: State -> bool, ok: (Message, Rule) -> bool, st: State, step: Step)
    requires InductiveWhen(P, ok) && P(st) && Enabled(st, step) && StepMatches(st, step, ok)
    requires step.Restart? ==> SurvivesRestart(P)
    ensures P(Next(st, step))
  {
    hide HandleUpTo, TickTo, Matches, Load;
    match step
    case Receive(payload, ids, now, nowText) =>
      var m := ParseMessage(payload);
      assert P(At(st, now));
      if m.Some? {
        var ms := MatchesFor(st, m.value);
        HandleKeeps(P, ok, At(st, now), ms, m.value, ids, nowText, |ms|);
      }
    case Monitor(now) =>
      TickKeeps(P, ok, At(st, now), |st.table|);
    case Reload(_) =>
    case Restart(order) =>
  }

  /** What is inductive holds after every run that meets the condition on matches. */
  lemma {:induction false} RunKeepsWhen(P: State -> bool, ok: (Message, Rule) -> bool, r: Run)
    requires LegalRun(r) && AllMatches(r, ok) && InductiveWhen(P, ok) && P(Init(r.start))
    requires RestartFree(r) || SurvivesRestart(P)
    ensures P(Final(r))
    decreases |r.steps|
  {
    hide InductiveWhen, Enabled, Next, StepMatches;
    if r.steps != [] {
      RunKeepsWhen(P, ok, Before(r));
      assert !r.steps[|r.steps| - 1].Restart? || SurvivesRestart(P);
      StepKeeps(P, ok, Final(Before(r)), r.steps[|r.steps| - 1]);
    }
  }

  lemma RunKeeps(P: State -> bool, r: Run)
    requires LegalRun(r) && Inductive(P) && P(Init(r.start))
    requires RestartFree(r) || SurvivesRestart(P)
    ensures P(Final(r))
  {
    hide Next, Enabled, Inductive, InductiveWhen;
    AnyMatches(r);
    InductiveAnyway(P);
    RunKeepsWhen(P, AnyMatch, r);
  }
}
