/** How the index falls behind the table: by a restart that met the signal cooling down, and by nothing
    else. */
module SignalBehind {
  import opened Options
  import opened SignalTypes
  import opened SignalRedis
  import opened SignalSpec
  import opened SignalRuns
  import opened SignalInvariants
  import opened SignalHistory
  import opened SignalLifecycle

  /** A document of the id lies behind the first n. */
  predicate Wrote(docs: seq<Signal>, n: nat, id: string) {
    exists j | n <= j < |docs| :: docs[j].id == id
  }

  ghost predicate CoolingIn(t: seq<Signal>, id: string) {
    exists c | c in t :: c.id == id && c.status == CoolDown
  }

  /** Some restart met the signal cooling down, and no later step wrote a document of it. */
  ghost predicate TakenBack(r: Run, id: string)
    requires LegalRun(r)
    decreases |r.steps|
  {
    r.steps != []
    && var before := Before(r);
       if r.steps[|r.steps| - 1].Restart? then CoolingIn(Final(before).table, id) || TakenBack(before, id)
       else TakenBack(before, id) && !Wrote(Final(r).docs, |Final(before).docs|, id)
  }

  // ---- One step without a restart ----

  /** From st0 on: until a document of the id is written its record and latest document are those of
      st0; from then on its latest document is its record. */
  ghost predicate Since(st0: State, id: string, st: State) {
    && |st.docs| >= |st0.docs|
    && if Wrote(st.docs, |st0.docs|, id) then
         forall s | s in st.table && s.id == id :: LastDoc(st.docs, id) == Some(s)
       else
         && LastDoc(st.docs, id) == LastDoc(st0.docs, id)
         && forall s: Signal | s.id == id :: s in st.table <==> s in st0.table
  }

  ghost predicate SinceCore(st0: State, id: string, st: State) {
    Core(st) && Since(st0, id, st)
  }

  lemma WroteMore(docs: seq<Signal>, d: Signal, n: nat, id: string)
    requires n <= |docs|
    ensures Wrote(docs + [d], n, id) <==> Wrote(docs, n, id) || d.id == id
  {
    var more := docs + [d];
    if Wrote(docs, n, id) {
      var j :| n <= j < |docs| && docs[j].id == id;
      assert more[j].id == id;
    }
    if d.id == id {
      assert more[|docs|].id == id;
    }
  }

  /** A change leaves the records of other ids alone, and its document is the only record of its own
      id, or there is none. */
  lemma OthersStay(st: State, c: Change, s: Signal)
    requires Core(st) && Legal(st, c)
    ensures s.id != DocOf(st, c).id ==> (s in Apply(st, c).table <==> s in st.table)
    ensures s.id == DocOf(st, c).id && s in Apply(st, c).table ==> s == DocOf(st, c)
  {
    hide Encode, Sound, Backed, LastLive, RuleByName, Save, Delete, StampOr, Ids;
    var t, next := st.table, Apply(st, c).table;
    NewId(st, c);
    match c
    case Add(_, _, id, _) =>
      assert forall i | 0 <= i < |t| :: t[i].id != id;
    case Cool(i, _, _) => Replaced(t, i, DocOf(st, c), s);
    case Promote(i) => Replaced(t, i, DocOf(st, c), s);
    case Retire(i) => TakenOut(t, i, s);
  }

  lemma Replaced(t: seq<Signal>, i: nat, d: Signal, s: Signal)
    requires DistinctIds(t) && i < |t| && d.id == t[i].id
    ensures s.id != d.id ==> (s in t[i := d] <==> s in t)
    ensures s.id == d.id && s in t[i := d] ==> s == d
  {
    var u := t[i := d];
    if s in u {
      var k :| 0 <= k < |u| && u[k] == s;
      assert k != i ==> t[k] == s;
    }
    if s in t && s.id != d.id {
      var k :| 0 <= k < |t| && t[k] == s;
      assert u[k] == s;
    }
  }

  lemma TakenOut(t: seq<Signal>, i: nat, s: Signal)
    requires DistinctIds(t) && i < |t|
    ensures s.id != t[i].id ==> (s in t[..i] + t[i + 1..] <==> s in t)
    ensures s.id == t[i].id ==> s !in t[..i] + t[i + 1..]
  {
    var u := t[..i] + t[i + 1..];
    Removed(t, i);
    if s in u {
      var k :| 0 <= k < |u| && u[k] == s;
      assert t[if k < i then k else k + 1] == s;
    }
    if s in t && s.id != t[i].id {
      var k :| 0 <= k < |t| && t[k] == s;
      assert k != i;
      assert u[if k < i then k else k - 1] == s;
    }
  }

  lemma SinceAfter(st0: State, id: string, st: State, c: Change)
    requires SinceCore(st0, id, st) && Legal(st, c)
    ensures Since(st0, id, Apply(st, c))
  {
    hide Core, Legal, Apply, DocOf, LastDoc, Wrote;
    var d, next := DocOf(st, c), Apply(st, c);
    EmitsOne(st, c);
    WroteMore(st.docs, d, |st0.docs|, id);
    NewDoc(st.docs, d);
    forall s: Signal | s.id == id
      ensures id != d.id ==> (s in next.table <==> s in st.table)
      ensures id == d.id && s in next.table ==> s == d
    {
      OthersStay(st, c, s);
    }
  }

  lemma SinceIsInductive(st0: State, id: string)
    ensures Inductive(st => SinceCore(st0, id, st))
  {
    hide Core, Since, Legal, Apply;
    CoreIsInductive();
    var P := st => SinceCore(st0, id, st);
    SinceElsewhere(st0, id);
    forall st: State, c: Change | P(st) && Legal(st, c) ensures P(Apply(st, c)) {
      assert Core(Apply(st, c));
      SinceAfter(st0, id, st, c);
    }
  }

  lemma SinceElsewhere(st0: State, id: string)
    ensures forall st: State, now | SinceCore(st0, id, st) && st.clock <= now :: Since(st0, id, At(st, now))
    ensures forall st: State, rules | SinceCore(st0, id, st) :: Since(st0, id, st.(rules := rules))
  {
    hide Core, Wrote, LastDoc;
  }

  /** What a step without a restart does to one signal. */
  lemma StepSince(st0: State, id: string, step: Step)
    requires Core(st0) && Enabled(st0, step) && !step.Restart?
    ensures Core(Next(st0, step)) && Since(st0, id, Next(st0, step))
  {
    hide Core, Since, Next, Enabled, Inductive, InductiveWhen;
    SinceItself(st0, id);
    SinceIsInductive(st0, id);
    var P := st => SinceCore(st0, id, st);
    InductiveAnyway(P);
    MatchesAny(st0, step);
    assert P(st0);
    StepKeeps(P, AnyMatch, st0, step);
    assert P(Next(st0, step));
  }

  lemma MatchesAny(st: State, step: Step)
    ensures StepMatches(st, step, AnyMatch)
  {
  }

  lemma SinceItself(st: State, id: string)
    ensures Since(st, id, st)
  {
  }

  // ---- Runs ----

  lemma BehindStep(st0: State, st: State, s: Signal)
    requires TracedCore(st0) && TracedCore(st) && Since(st0, s.id, st) && s in st.table
    ensures Wrote(st.docs, |st0.docs|, s.id) ==> !Behind(st, s)
    ensures !Wrote(st.docs, |st0.docs|, s.id) ==> s in st0.table && (Behind(st, s) <==> Behind(st0, s))
  {
    hide Core, Traced, LastDoc, Wrote;
  }

  lemma BehindRestart(st0: State, order: seq<string>, s: Signal)
    requires TracedCore(st0) && Enumerates(order, st0.redis.ids) && s in Restarted(st0, order).table
    ensures s.id in Ids(st0.table)
    ensures CoolingIn(st0.table, s.id) ==> Behind(Restarted(st0, order), s)
    ensures !CoolingIn(st0.table, s.id) ==>
              s in st0.table && (Behind(Restarted(st0, order), s) <==> Behind(st0, s))
  {
    hide Encode, Decode, Load, Ids, LastDoc, LastLive, Fits;
    LoadedAll(st0, order);
    var t := Load(st0.redis, order);
    var j :| 0 <= j < |t| && t[j] == s;
    BackingRecord(st0, order[j]);
    var i := AtId(st0.table, order[j]);
    MetByRestart(st0, i, s);
  }

  lemma MetByRestart(st0: State, i: nat, b: Signal)
    requires TracedCore(st0) && i < |st0.table| && b.id == st0.table[i].id && Live(b.status)
    requires Some(b) == LastLive(st0.docs, b.id)
    ensures b.id in Ids(st0.table)
    ensures CoolingIn(st0.table, b.id) <==> st0.table[i].status == CoolDown
    ensures if CoolingIn(st0.table, b.id) then SaysCoolDown(st0.docs, b.id) else st0.table[i] == b
  {
    hide Encode, Ids, LastDoc, LastLive, Fits;
    var s0 := st0.table[i];
    IdIn(st0.table, i);
    assert s0 in st0.table && Sound(s0) && Backed(st0.docs, st0.redis, s0);
    assert TracedBy(LastDoc(st0.docs, s0.id), s0);
    if CoolingIn(st0.table, b.id) {
      var c :| c in st0.table && c.id == b.id && c.status == CoolDown;
      var k :| 0 <= k < |st0.table| && st0.table[k] == c;
      assert k == i;
    }
  }

  lemma BehindLast(r: Run, s: Signal)
    requires LegalRun(r) && r.steps != [] && s in Final(r).table
    requires forall s0 | s0 in Final(Before(r)).table :: Behind(Final(Before(r)), s0) <==> TakenBack(Before(r), s0.id)
    ensures Behind(Final(r), s) <==> TakenBack(r, s.id)
  {
    hide TracedCore, Next, Enabled, Behind, Since, CoolingIn, Wrote;
    var before, step := Before(r), r.steps[|r.steps| - 1];
    TracedHolds(before);
    TracedHolds(r);
    if step.Restart? {
      RestartIs(Final(before), step);
      BehindRestart(Final(before), step.order, s);
      if !CoolingIn(Final(before).table, s.id) {
        assert s in Final(before).table;
      }
    } else {
      TracedIsCore(Final(before));
      StepSince(Final(before), s.id, step);
      BehindStep(Final(before), Final(r), s);
      NotBehindElse(r, before, s);
    }
  }

  lemma RestartIs(st: State, step: Step)
    requires step.Restart? && Enabled(st, step)
    ensures Next(st, step) == Restarted(st, step.order) && Enumerates(step.order, st.redis.ids)
  {
  }

  lemma TracedIsCore(st: State)
    requires TracedCore(st)
    ensures Core(st)
  {
  }

  /** By the definition of TakenBack, for a step that is no restart. */
  lemma NotBehindElse(r: Run, before: Run, s: Signal)
    requires LegalRun(r) && r.steps != [] && before == Before(r) && !r.steps[|r.steps| - 1].Restart?
    ensures TakenBack(r, s.id)
            <==> TakenBack(before, s.id) && !Wrote(Final(r).docs, |Final(before).docs|, s.id)
  {
    hide Wrote, Next, Enabled;
  }

  /** After any run the index is behind the table for exactly the signals that a restart met cooling
      down and that no later step has written since. */
  lemma {:induction false} BehindByRestart(r: Run)
    requires LegalRun(r)
    ensures forall s | s in Final(r).table :: Behind(Final(r), s) <==> TakenBack(r, s.id)
    decreases |r.steps|
  {
    hide Behind, TakenBack, Next, Enabled;
    if r.steps != [] {
      BehindByRestart(Before(r));
      forall s | s in Final(r).table ensures Behind(Final(r), s) <==> TakenBack(r, s.id) {
        BehindLast(r, s);
      }
    }
  }
}
