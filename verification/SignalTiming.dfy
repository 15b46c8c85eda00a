/** The monitor tick over a whole run: what it opens and closes is due, what is due it opens and
    closes, and a second look at the same second finds nothing to do. */
module SignalTiming {
  import opened Options
  import opened SignalTypes
  import opened SignalRedis
  import opened SignalSpec
  import opened SignalRuns
  import opened SignalInvariants
  import opened SignalHistory
  import opened SignalLifecycle

  /** The documents of a pass are those of the promoted and dropped signals, and no others. */
  lemma {:induction false} PassDocsCome(t: seq<Signal>, rules: seq<Rule>, now: int, d: Signal)
    ensures d in PassDocs(t, rules, now)
            <==> exists s | s in t ::
                   || (FateOf(s, rules, now) == Promoted && d == Opened(s, now))
                   || (FateOf(s, rules, now) == Dropped && d == Retired(s, now))
  {
    if t != [] {
      var u, last := t[..|t| - 1], t[|t| - 1];
      assert t == u + [last];
      PassDocsCome(u, rules, now, d);
      hide RuleByName;
      if d in PassDocs(t, rules, now) && d !in PassDocs(u, rules, now) {
        assert last in t;
      }
    }
  }

  /** A signal is left after the pass exactly when it was kept, or is the opened form of one promoted. */
  lemma {:induction false} PassKeeps(t: seq<Signal>, rules: seq<Rule>, now: int, d: Signal)
    ensures d in Pass(t, rules, now)
            <==> exists s | s in t ::
                   || (FateOf(s, rules, now) == Kept && d == s)
                   || (FateOf(s, rules, now) == Promoted && d == Opened(s, now))
  {
    if t != [] {
      var u, last := t[..|t| - 1], t[|t| - 1];
      assert t == u + [last];
      PassKeeps(u, rules, now, d);
      hide RuleByName;
      if d in Pass(t, rules, now) && d !in Pass(u, rules, now) {
        assert last in t;
      }
    }
  }

  /** The rule in force at the tick, for a signal. */
  function RuleOf(st: State, s: Signal): Option<Rule> {
    RuleByName(st.rules, s.rule)
  }

  /** When a tick of a run without restarts opens a signal, its only document so far is the one of
      its creation, and at least the rule's warm-up time has passed since. */
  lemma OpensOnlyWhenDue(r: Run, now: int, d: Signal)
    requires LegalRun(r) && RestartFree(r) && Final(r).clock <= now
    requires d in PassDocs(Final(r).table, Final(r).rules, now) && d.status == Open
    ensures var st := Final(r);
      && Statuses(st.docs, d.id) == [WarmUp]
      && LastDoc(st.docs, d.id).Some?
      && var w := LastDoc(st.docs, d.id).value;
      && w.status == WarmUp && d == Opened(w, now)
      && RuleOf(st, w).Some? && now - w.changedAt >= RuleOf(st, w).value.warmup
  {
    LivesHolds(r);
    DueToOpen(Final(r), now, d);
  }

  lemma DueToOpen(st: State, now: int, d: Signal)
    requires Lives(st) && d in PassDocs(st.table, st.rules, now) && d.status == Open
    ensures Statuses(st.docs, d.id) == [WarmUp]
    ensures var w := LastDoc(st.docs, d.id);
      && w.Some? && w.value.status == WarmUp && d == Opened(w.value, now)
      && RuleOf(st, w.value).Some? && now - w.value.changedAt >= RuleOf(st, w.value).value.warmup
  {
    hide Encode, Backed, LastLive, LastDoc, RuleByName, Sound, Statuses, PassDocs;
    PassDocsCome(st.table, st.rules, now, d);
    var s :| s in st.table && FateOf(s, st.rules, now) == Promoted && d == Opened(s, now);
    var i :| 0 <= i < |st.table| && st.table[i] == s;
    assert LastDoc(st.docs, st.table[i].id) == Some(st.table[i]);
    LastStatus(st.docs, d.id);
    StillWarm(Statuses(st.docs, d.id));
  }

  /** A life whose last word is warmUp has no other. */
  lemma StillWarm(w: seq<Status>)
    requires Lifecycle(w) && w != [] && w[|w| - 1] == WarmUp
    ensures w == [WarmUp]
  {
    var o: nat, c: nat, x: nat :| w == Life(o, c, x);
    assert w[|w| - 1] == if x > 0 then Closed else if c > 0 then CoolDown else if o > 0 then Open else WarmUp;
  }

  /** Restarts included: a signal is opened only from the record of its creation, once the rule's
      warm-up time has passed since that record. */
  lemma OpensOnlyFromCreation(r: Run, now: int, d: Signal)
    requires LegalRun(r) && Final(r).clock <= now
    requires d in PassDocs(Final(r).table, Final(r).rules, now) && d.status == Open
    ensures var st := Final(r);
      && LastLive(st.docs, d.id).Some?
      && var w := LastLive(st.docs, d.id).value;
      && w in st.docs && w.status == WarmUp && d == Opened(w, now)
      && RuleOf(st, w).Some? && now - w.changedAt >= RuleOf(st, w).value.warmup
  {
    hide Encode, LastLive, RuleByName, Sound, Fits, PassDocs, Final, LegalRun, Ids;
    var st := Final(r);
    CoreHolds(r);
    PassDocsCome(st.table, st.rules, now, d);
    var s :| s in st.table && FateOf(s, st.rules, now) == Promoted && d == Opened(s, now);
    var i :| 0 <= i < |st.table| && st.table[i] == s;
    assert Backed(st.docs, st.redis, st.table[i]);
    LastLiveIsADoc(st.docs, s.id);
  }

  /** When a tick retires a signal, restarts included, the last document of its id is its latest close
      event, and at least the rule's cool-down time has passed since. */
  lemma ClosesOnlyWhenDue(r: Run, now: int, d: Signal)
    requires LegalRun(r) && Final(r).clock <= now
    requires d in PassDocs(Final(r).table, Final(r).rules, now) && d.status != Open
    ensures var st := Final(r);
      && LastDoc(st.docs, d.id).Some?
      && var c := LastDoc(st.docs, d.id).value;
      && c.status == CoolDown && d == Retired(c, now) && d.id !in Ids(Tick(At(st, now)).table)
      && RuleOf(st, c).Some? && now - c.changedAt >= RuleOf(st, c).value.cooldown
  {
    hide TracedCore;
    TracedHolds(r);
    DueToClose(Final(r), now, d);
    ClosedIsGone(r, now, d);
  }

  lemma DueToClose(st: State, now: int, d: Signal)
    requires TracedCore(st) && d in PassDocs(st.table, st.rules, now) && d.status != Open
    ensures var c := LastDoc(st.docs, d.id);
      && c.Some? && c.value.status == CoolDown && d == Retired(c.value, now)
      && RuleOf(st, c.value).Some? && now - c.value.changedAt >= RuleOf(st, c.value).value.cooldown
  {
    hide Encode, Core, LastDoc, RuleByName, PassDocs;
    PassDocsCome(st.table, st.rules, now, d);
    var s :| s in st.table && FateOf(s, st.rules, now) == Dropped && d == Retired(s, now);
    var i :| 0 <= i < |st.table| && st.table[i] == s;
    assert TracedBy(LastDoc(st.docs, st.table[i].id), st.table[i]);
  }

  lemma ClosedIsGone(r: Run, now: int, d: Signal)
    requires LegalRun(r) && Final(r).clock <= now
    requires d in PassDocs(Final(r).table, Final(r).rules, now) && d.status == Closed
    ensures d.id !in Ids(Tick(At(Final(r), now)).table)
  {
    hide Core, Orderly, Legal, Pass, PassRedis, Ids, Final, LegalRun;
    var st := Final(r);
    OrderlyIsInductive();
    OrderlyAtStart(r.start);
    RunKeeps(OrderlyCore, r);
    TickKeepsOrderly(st, now);
    var next := Tick(At(st, now));
    assert st.table[..|st.table|] == st.table;
    assert next.docs == st.docs + PassDocs(st.table, st.rules, now);
    var k :| 0 <= k < |PassDocs(st.table, st.rules, now)| && PassDocs(st.table, st.rules, now)[k] == d;
    assert next.docs[|st.docs| + k] == d;
    ClosedNotActive(next, |st.docs| + k);
  }

  lemma ClosedNotActive(st: State, k: nat)
    requires Orderly(st) && k < |st.docs| && st.docs[k].status == Closed
    ensures st.docs[k].id !in Ids(st.table)
  {
  }

  lemma TickKeepsOrderly(st: State, now: int)
    requires OrderlyCore(st) && st.clock <= now
    ensures OrderlyCore(Tick(At(st, now)))
  {
    hide Core, Orderly, Legal, TickTo;
    OrderlyIsInductive();
    assert OrderlyCore(At(st, now));
    InductiveAnyway(OrderlyCore);
    TickKeeps(OrderlyCore, AnyMatch, At(st, now), |st.table|);
  }

  /** A signal's rule is in force, and the signal has spent at least its delay in this status. */
  predicate WarmUpOver(s: Signal, rules: seq<Rule>, now: int) {
    && s.status == WarmUp
    && exists i | 0 <= i < |rules| ::
         && rules[i].name == s.rule && (forall j | 0 <= j < i :: rules[j].name != s.rule)
         && now - s.changedAt >= rules[i].warmup
  }

  predicate CoolDownOver(s: Signal, rules: seq<Rule>, now: int) {
    && s.status == CoolDown
    && exists i | 0 <= i < |rules| ::
         && rules[i].name == s.rule && (forall j | 0 <= j < i :: rules[j].name != s.rule)
         && now - s.changedAt >= rules[i].cooldown
  }

  lemma FirstOfName(rules: seq<Rule>, i: nat)
    requires i < |rules| && forall j | 0 <= j < i :: rules[j].name != rules[i].name
    ensures RuleByName(rules, rules[i].name) == Some(rules[i])
  {
    hide RuleByName;
    var r := RuleByName(rules, rules[i].name);
    var k :| 0 <= k < |rules| && rules[k] == r.value && rules[k].name == rules[i].name
             && forall j | 0 <= j < k :: rules[j].name != rules[i].name;
    assert !(k < i) && !(i < k);
  }

  /** The tick's decision on a signal is that of status, rule and delay. */
  lemma FateExactly(s: Signal, rules: seq<Rule>, now: int)
    ensures FateOf(s, rules, now) == Promoted <==> WarmUpOver(s, rules, now)
    ensures FateOf(s, rules, now) == Dropped <==> CoolDownOver(s, rules, now)
  {
    hide RuleByName;
    var r := RuleByName(rules, s.rule);
    if r.Some? {
      var i :| 0 <= i < |rules| && rules[i] == r.value && rules[i].name == s.rule
               && forall j | 0 <= j < i :: rules[j].name != s.rule;
    }
    forall i | 0 <= i < |rules| && rules[i].name == s.rule && forall j | 0 <= j < i :: rules[j].name != s.rule
      ensures r == Some(rules[i])
    {
      FirstOfName(rules, i);
    }
  }

  /** Nothing due is left behind: after a tick no signal in warmUp or coolDown has spent its delay
      there. */
  lemma NothingDueIsLeft(st: State)
    ensures forall s | s in Tick(st).table ::
              !WarmUpOver(s, st.rules, st.clock) && !CoolDownOver(s, st.rules, st.clock)
    ensures forall s | s in Tick(st).table :: FateOf(s, st.rules, st.clock) == Kept
  {
    hide Pass, RuleByName, FateOf, WarmUpOver, CoolDownOver;
    assert st.table[..|st.table|] == st.table;
    forall s | s in Tick(st).table
      ensures FateOf(s, st.rules, st.clock) == Kept
      ensures !WarmUpOver(s, st.rules, st.clock) && !CoolDownOver(s, st.rules, st.clock)
    {
      assert s in Pass(st.table, st.rules, st.clock);
      PassKeeps(st.table, st.rules, st.clock, s);
      OpenedIsKept(st, s);
      FateExactly(s, st.rules, st.clock);
    }
  }

  lemma OpenedIsKept(st: State, s: Signal)
    ensures s.status == Open ==> FateOf(s, st.rules, st.clock) == Kept
  {
    hide RuleByName;
  }

  lemma {:induction false} AllKept(t: seq<Signal>, redis: Redis, rules: seq<Rule>, now: int)
    requires forall s | s in t :: FateOf(s, rules, now) == Kept
    ensures Pass(t, rules, now) == t && PassDocs(t, rules, now) == [] && PassRedis(redis, t, rules, now) == redis
  {
    if t != [] {
      hide FateOf;
      var u, last := t[..|t| - 1], t[|t| - 1];
      assert t == u + [last] && last in t;
      AllKept(u, redis, rules, now);
    }
  }

  /** A second tick in the same second changes nothing. */
  lemma TickSettles(st: State)
    ensures Tick(Tick(st)) == Tick(st)
  {
    hide FateOf, Pass, PassDocs, PassRedis;
    NothingDueIsLeft(st);
    var next := Tick(st);
    assert next.table[..|next.table|] == next.table;
    AllKept(next.table, next.redis, st.rules, st.clock);
  }

  /** The compaction after the monitor loop removes nothing exactly when nothing is closed. */
  lemma {:induction false} CompactionIsIdentity(t: seq<Signal>)
    ensures |WithoutClosed(t)| <= |t|
    ensures WithoutClosed(t) == t <==> forall s | s in t :: s.status != Closed
  {
    if t != [] {
      var u, last := t[..|t| - 1], t[|t| - 1];
      assert t == u + [last];
      CompactionIsIdentity(u);
      if last.status == Closed {
        assert last in t;
      }
    }
  }

  /** The compaction keeps exactly what is not closed, in order: of two parts it keeps what it keeps of
      each. */
  lemma {:induction false} CompactionIsFilter(t: seq<Signal>, u: seq<Signal>, s: Signal)
    ensures s in WithoutClosed(u) <==> s in u && s.status != Closed
    ensures WithoutClosed(t + u) == WithoutClosed(t) + WithoutClosed(u)
    decreases |u|
  {
    if u == [] {
      assert t + u == t;
    } else {
      var front, last := u[..|u| - 1], u[|u| - 1];
      assert u == front + [last] && (t + u)[..|t + u| - 1] == t + front;
      CompactionIsFilter(t, front, s);
    }
  }

  /** On every run the compaction the monitor ends with is the identity: closed signals never
      stay in the table. */
  lemma MonitorLeavesNoneClosed(r: Run, now: int)
    requires LegalRun(r) && Final(r).clock <= now
    ensures WithoutClosed(Tick(At(Final(r), now)).table) == Tick(At(Final(r), now)).table
  {
    hide Encode, Backed, Ids, Pass, TickTo, Fits;
    var st := At(Final(r), now);
    CoreHolds(r);
    CoreIsInductive();
    InductiveAnyway(Core);
    TickKeeps(Core, AnyMatch, st, |st.table|);
    var t := Tick(st).table;
    forall s | s in t ensures s.status != Closed {
      var i :| 0 <= i < |t| && t[i] == s;
      SoundIsNotClosed(t[i]);
    }
    CompactionIsIdentity(t);
  }

  // ---- What a tick does to each signal ----

  lemma OnlyOne(t: seq<Signal>, s: Signal, s': Signal)
    requires DistinctIds(t) && s in t && s' in t && s.id == s'.id
    ensures s == s'
  {
  }

  lemma TickOnSignal(t: seq<Signal>, rules: seq<Rule>, now: int, s: Signal)
    requires DistinctIds(t) && s in t
    ensures var kept, docs := Pass(t, rules, now), PassDocs(t, rules, now);
      && (Opened(s, now) in docs <==> WarmUpOver(s, rules, now))
      && (Retired(s, now) in docs <==> CoolDownOver(s, rules, now))
      && (forall d | d in docs && d.id == s.id :: d == Opened(s, now) || d == Retired(s, now))
      && (WarmUpOver(s, rules, now) ==> Opened(s, now) in kept)
      && (CoolDownOver(s, rules, now) ==> s.id !in Ids(kept))
      && (!WarmUpOver(s, rules, now) && !CoolDownOver(s, rules, now) ==> s in kept)
  {
    hide FateOf, Pass, PassDocs, WarmUpOver, CoolDownOver, DistinctIds;
    FateExactly(s, rules, now);
    PassDocsCome(t, rules, now, Opened(s, now));
    PassDocsCome(t, rules, now, Retired(s, now));
    PassKeeps(t, rules, now, Opened(s, now));
    PassKeeps(t, rules, now, s);
    forall s' | s' in t && s'.id == s.id ensures s' == s {
      OnlyOne(t, s, s');
    }
    forall d | d in PassDocs(t, rules, now) && d.id == s.id ensures d == Opened(s, now) || d == Retired(s, now) {
      PassDocsCome(t, rules, now, d);
    }
    if CoolDownOver(s, rules, now) && s.id in Ids(Pass(t, rules, now)) {
      var d :| d in Pass(t, rules, now) && d.id == s.id;
      PassKeeps(t, rules, now, d);
    }
  }

  /** On every run and for every active signal: a tick opens it exactly when it is in warmUp, its rule is
      in force and the rule's warm-up seconds have passed; it retires it exactly when it is in coolDown
      and the rule's cool-down seconds have passed; and otherwise it leaves it as it is, without a
      document. */
  lemma TickDoesExactly(r: Run, now: int, s: Signal)
    requires LegalRun(r) && Final(r).clock <= now && s in Final(r).table
    ensures var st, next := Final(r), Next(Final(r), Monitor(now));
      && |next.docs| >= |st.docs|
      && var docs := next.docs[|st.docs|..];
      && (Opened(s, now) in docs <==> WarmUpOver(s, st.rules, now))
      && (Retired(s, now) in docs <==> CoolDownOver(s, st.rules, now))
      && (WarmUpOver(s, st.rules, now) ==> Opened(s, now) in next.table)
      && (CoolDownOver(s, st.rules, now) ==> s.id !in Ids(next.table))
      && (!WarmUpOver(s, st.rules, now) && !CoolDownOver(s, st.rules, now) ==>
            s in next.table && forall d | d in docs :: d.id != s.id)
  {
    hide Pass, PassDocs, PassRedis, WarmUpOver, CoolDownOver, Core, Final, LegalRun, Ids;
    var st := Final(r);
    CoreHolds(r);
    CoreDistinct(st);
    assert st.table[..|st.table|] == st.table;
    TickOnSignal(st.table, st.rules, now, s);
    var next := Tick(At(st, now));
    assert Pass(st.table, st.rules, now) + [] == Pass(st.table, st.rules, now);
    assert next.table == Pass(st.table, st.rules, now);
    assert next.docs[|st.docs|..] == PassDocs(st.table, st.rules, now);
  }

  lemma CoreDistinct(st: State)
    requires Core(st)
    ensures DistinctIds(st.table)
  {
  }

  /** Until the rules are loaded again, a restarted engine does nothing at its ticks. */
  lemma NoRulesNoTick(st: State, order: seq<string>)
    ensures Tick(Restarted(st, order)) == Restarted(st, order)
  {
    hide Pass, PassDocs, PassRedis, Load;
    var next := Restarted(st, order);
    assert next.table[..|next.table|] == next.table;
    AllKept(next.table, next.redis, [], next.clock);
  }
}
