/** The document stream mirrors the table: what a reader of the index sees, after every run and
    across restarts. */
module SignalHistory {
  import opened Options
  import opened SignalTypes
  import opened SignalRedis
  import opened SignalSpec
  import opened SignalRuns
  import opened SignalInvariants

  // ---- Last write wins ----

  /** Every active signal is the last document of its id, and every id whose last document is not
      closed is active. */
  ghost predicate Mirrored(st: State) {
    && (forall i | 0 <= i < |st.table| :: LastDoc(st.docs, st.table[i].id) == Some(st.table[i]))
    && (forall id :: var d := LastDoc(st.docs, id);
          d.Some? && d.value.status != Closed ==> id in Ids(st.table))
  }

  ghost predicate MirroredCore(st: State) {
    Core(st) && Mirrored(st)
  }

  lemma NotInDocs(docs: seq<Signal>, id: string)
    ensures LastDoc(docs, id).None? <==> !HasId(docs, id)
    ensures LastDoc(docs, id).Some? ==> LastDoc(docs, id).value.id == id
  {
    if docs != [] {
      var u, d := docs[..|docs| - 1], docs[|docs| - 1];
      assert docs == u + [d];
      FindIdAppend(u, d, id);
      NotInDocs(u, id);
    }
  }

  lemma MirroredAdd(st: State, c: Change)
    requires MirroredCore(st) && c.Add? && Legal(st, c)
    ensures Mirrored(Apply(st, c))
  {
    hide NewSignal, Encode, Sound, Backed, LastLive, LastDoc, Ids;
    var s := NewSignal(c.rule, c.msg, c.id, st.clock, c.nowText);
    assert s.id == c.id && s.status == WarmUp by {
      NewIsSound(c.rule, c.msg, c.id, st.clock, c.nowText);
      NewHead(c.rule, c.msg, c.id, st.clock, c.nowText);
    }
    NewDoc(st.docs, s);
    IdsAppend(st.table, s);
  }

  lemma NewHead(rule: Rule, msg: Message, id: string, now: int, nowText: string)
    ensures var s := NewSignal(rule, msg, id, now, nowText);
            s.id == id && s.status == WarmUp && s.changedAt == now
  {
  }

  lemma MirroredAlter(st: State, c: Change)
    requires MirroredCore(st) && (c.Cool? || c.Promote?) && Legal(st, c)
    ensures Mirrored(Apply(st, c))
  {
    hide Encode, Sound, Backed, LastLive, LastDoc, Ids, RuleByName, Save, StampOr;
    IdIn(st.table, c.i);
    var s := Apply(st, c).table[c.i];
    NewDoc(st.docs, s);
    IdsUpdate(st.table, c.i, s);
  }

  lemma MirroredRetire(st: State, c: Change)
    requires MirroredCore(st) && c.Retire? && Legal(st, c)
    ensures Mirrored(Apply(st, c))
  {
    hide Encode, Sound, Backed, LastLive, LastDoc, Ids, RuleByName;
    NewDoc(st.docs, Retired(st.table[c.i], st.clock));
    IdsRemove(st.table, c.i);
    Removed(st.table, c.i);
  }

  lemma MirroredIsInductive()
    ensures Inductive(MirroredCore)
  {
    CoreIsInductive();
    forall st: State, c: Change | MirroredCore(st) && Legal(st, c) ensures MirroredCore(Apply(st, c)) {
      assert Core(Apply(st, c));
      match c
      case Add(_, _, _, _) => MirroredAdd(st, c);
      case Cool(_, _, _) => MirroredAlter(st, c);
      case Promote(_) => MirroredAlter(st, c);
      case Retire(_) => MirroredRetire(st, c);
    }
  }

  lemma MirroredHolds(r: Run)
    requires LegalRun(r) && RestartFree(r)
    ensures MirroredCore(Final(r))
  {
    MirroredIsInductive();
    RunKeeps(MirroredCore, r);
  }

  /** The index as a reader sees it: the last document of every id. */
  function IndexView(docs: seq<Signal>): map<string, Signal> {
    if docs == [] then map[]
    else IndexView(docs[..|docs| - 1])[docs[|docs| - 1].id := docs[|docs| - 1]]
  }

  /** The part of the index that is not closed. */
  function OpenView(docs: seq<Signal>): map<string, Signal> {
    var v := IndexView(docs);
    map id | id in v && v[id].status != Closed :: v[id]
  }

  function TableView(t: seq<Signal>): map<string, Signal> {
    if t == [] then map[]
    else TableView(t[..|t| - 1])[t[|t| - 1].id := t[|t| - 1]]
  }

  lemma {:induction false} IndexViewIsLastDoc(docs: seq<Signal>, id: string)
    ensures Get(IndexView(docs), id) == LastDoc(docs, id)
  {
    if docs != [] {
      IndexViewIsLastDoc(docs[..|docs| - 1], id);
    }
  }

  lemma {:induction false} TableViewAt(t: seq<Signal>, id: string)
    requires DistinctIds(t)
    ensures id in TableView(t) <==> id in Ids(t)
    ensures forall i | 0 <= i < |t| && t[i].id == id :: id in TableView(t) && TableView(t)[id] == t[i]
  {
    if t != [] {
      var u, s := t[..|t| - 1], t[|t| - 1];
      assert t == u + [s];
      IdsAppend(u, s);
      TableViewAt(u, id);
    }
  }

  lemma ViewsAgree(st: State)
    requires MirroredCore(st)
    ensures OpenView(st.docs) == TableView(st.table)
  {
    hide Encode, Sound, Backed, IndexView, TableView, LastDoc;
    var v, t := OpenView(st.docs), TableView(st.table);
    forall id ensures id in v <==> id in t
              ensures id in v && id in t ==> v[id] == t[id]
    {
      IndexViewIsLastDoc(st.docs, id);
      TableViewAt(st.table, id);
      if id in Ids(st.table) {
        var i :| 0 <= i < |st.table| && st.table[i].id == id;
        assert LastDoc(st.docs, st.table[i].id) == Some(st.table[i]) && Sound(st.table[i]);
        assert st.table[i].status != Closed by { SoundIsNotClosed(st.table[i]); }
      }
    }
  }

  lemma SoundIsNotClosed(s: Signal)
    requires Sound(s)
    ensures s.status != Closed
  {
  }

  /** After every step of a run without restarts the index, restricted to ids that are not closed,
      is the in-memory table record for record. */
  lemma IndexMirrorsTable(r: Run)
    requires LegalRun(r) && RestartFree(r)
    ensures OpenView(Final(r).docs) == TableView(Final(r).table)
  {
    MirroredHolds(r);
    ViewsAgree(Final(r));
  }

  // ---- Across restarts ----

  /** The latest document of an active signal is its record, unless the signal came back by a restart
      from cooling down and has not changed since. */
  predicate TracedBy(d: Option<Signal>, s: Signal) {
    d.Some? && (d.value == s || (Live(s.status) && d.value.status == CoolDown))
  }

  ghost predicate Traced(st: State) {
    && (forall i | 0 <= i < |st.table| :: TracedBy(LastDoc(st.docs, st.table[i].id), st.table[i]))
    && (forall id :: var d := LastDoc(st.docs, id);
          d.Some? && d.value.status != Closed ==> id in Ids(st.table))
  }

  ghost predicate TracedCore(st: State) {
    Core(st) && Traced(st)
  }

  lemma TracedAdd(st: State, c: Change)
    requires TracedCore(st) && c.Add? && Legal(st, c)
    ensures Traced(Apply(st, c))
  {
    hide NewSignal, Encode, Sound, Backed, LastLive, LastDoc, Ids;
    var s := NewSignal(c.rule, c.msg, c.id, st.clock, c.nowText);
    NewHead(c.rule, c.msg, c.id, st.clock, c.nowText);
    NewDoc(st.docs, s);
    IdsAppend(st.table, s);
  }

  lemma TracedAlter(st: State, c: Change)
    requires TracedCore(st) && (c.Cool? || c.Promote?) && Legal(st, c)
    ensures Traced(Apply(st, c))
  {
    hide Encode, Sound, Backed, LastLive, LastDoc, Ids, RuleByName, Save, StampOr;
    IdIn(st.table, c.i);
    var s := Apply(st, c).table[c.i];
    NewDoc(st.docs, s);
    IdsUpdate(st.table, c.i, s);
  }

  lemma TracedRetire(st: State, c: Change)
    requires TracedCore(st) && c.Retire? && Legal(st, c)
    ensures Traced(Apply(st, c))
  {
    hide Encode, Sound, Backed, LastLive, LastDoc, Ids, RuleByName;
    NewDoc(st.docs, Retired(st.table[c.i], st.clock));
    IdsRemove(st.table, c.i);
    Removed(st.table, c.i);
  }

  lemma TracedRestart(st: State, order: seq<string>)
    requires TracedCore(st) && Enumerates(order, st.redis.ids)
    ensures Traced(Restarted(st, order))
  {
    hide Encode, Load, Sound, Backed, LastLive, LastDoc, Ids;
    LoadedAll(st, order);
    TableSize(st, order);
    var t := Load(st.redis, order);
    forall j | 0 <= j < |t| ensures TracedBy(LastDoc(st.docs, t[j].id), t[j]) {
      BackingRecord(st, order[j]);
      var i := AtId(st.table, order[j]);
      RestoredIsTraced(st, i, t[j]);
    }
  }

  lemma RestoredIsTraced(st: State, i: nat, b: Signal)
    requires TracedCore(st) && i < |st.table| && Some(b) == LastLive(st.docs, st.table[i].id) && Live(b.status)
    ensures TracedBy(LastDoc(st.docs, st.table[i].id), b)
  {
    hide Encode, Fits, LastLive, LastDoc, Ids;
    var s := st.table[i];
    assert Sound(s) && Backed(st.docs, st.redis, s) && Earlier(b, s);
  }

  lemma TracedHolds(r: Run)
    requires LegalRun(r)
    ensures TracedCore(Final(r))
  {
    hide Core, Traced, Legal, Apply, Load, Final, LegalRun;
    CoreIsInductive();
    CoreSurvivesRestart();
    forall st: State, c: Change | TracedCore(st) && Legal(st, c) ensures TracedCore(Apply(st, c)) {
      match c
      case Add(_, _, _, _) => TracedAdd(st, c);
      case Cool(_, _, _) => TracedAlter(st, c);
      case Promote(_) => TracedAlter(st, c);
      case Retire(_) => TracedRetire(st, c);
    }
    TracedElsewhere();
    TracedAtStart(r.start);
    RunKeeps(TracedCore, r);
  }

  lemma TracedElsewhere()
    ensures forall st: State, now | TracedCore(st) && st.clock <= now :: Traced(At(st, now))
    ensures forall st: State, rules | TracedCore(st) :: Traced(st.(rules := rules))
    ensures SurvivesRestart(TracedCore)
  {
    hide Core, Load, LastDoc, Ids, TracedBy;
    CoreSurvivesRestart();
    forall st: State, order | TracedCore(st) && Enumerates(order, st.redis.ids)
      ensures TracedCore(Restarted(st, order))
    {
      TracedRestart(st, order);
    }
  }

  lemma TracedAtStart(now: int)
    ensures TracedCore(Init(now))
  {
  }

  /** The index still says coolDown of a signal that a restart took back. */
  predicate Behind(st: State, s: Signal) {
    Live(s.status) && SaysCoolDown(st.docs, s.id)
  }

  predicate SaysCoolDown(docs: seq<Signal>, id: string) {
    LastDoc(docs, id).Some? && LastDoc(docs, id).value.status == CoolDown
  }

  /** After any run, restarts included, the ids of the index that are not closed are those of the
      table, and the records agree exactly when no signal is behind. */
  lemma IndexAgreesExactly(r: Run)
    requires LegalRun(r)
    ensures OpenView(Final(r).docs).Keys == Ids(Final(r).table)
    ensures OpenView(Final(r).docs) == TableView(Final(r).table)
            <==> forall s | s in Final(r).table :: !Behind(Final(r), s)
  {
    hide TracedCore;
    TracedHolds(r);
    TracedViews(Final(r));
  }

  lemma TracedViews(st: State)
    requires TracedCore(st)
    ensures OpenView(st.docs).Keys == Ids(st.table)
    ensures OpenView(st.docs) == TableView(st.table) <==> forall s | s in st.table :: !Behind(st, s)
  {
    hide Encode, Sound, Backed, IndexView, TableView, LastDoc, Ids;
    var v, t := OpenView(st.docs), TableView(st.table);
    forall id ensures id in v <==> id in Ids(st.table)
              ensures id in t <==> id in Ids(st.table)
    {
      IndexViewIsLastDoc(st.docs, id);
      TableViewAt(st.table, id);
      if id in Ids(st.table) {
        var i := AtId(st.table, id);
        SoundIsNotClosed(st.table[i]);
      }
    }
    forall i | 0 <= i < |st.table|
      ensures st.table[i].id in Ids(st.table)
      ensures v[st.table[i].id] == t[st.table[i].id] <==> !Behind(st, st.table[i])
    {
      var s := st.table[i];
      IdIn(st.table, i);
      IndexViewIsLastDoc(st.docs, s.id);
      TableViewAt(st.table, s.id);
      assert TracedBy(LastDoc(st.docs, s.id), s);
    }
    ViewsByRecord(st, v, t);
  }

  lemma ViewsByRecord(st: State, v: map<string, Signal>, t: map<string, Signal>)
    requires v.Keys == Ids(st.table) == t.Keys
    requires forall i | 0 <= i < |st.table| ::
               st.table[i].id in v && (v[st.table[i].id] == t[st.table[i].id] <==> !Behind(st, st.table[i]))
    ensures v == t <==> forall s | s in st.table :: !Behind(st, s)
  {
    hide Behind, Ids;
    if forall s | s in st.table :: !Behind(st, s) {
      forall id | id in v ensures v[id] == t[id] {
        var i := AtId(st.table, id);
        assert st.table[i] in st.table;
      }
    }
    if s :| s in st.table && Behind(st, s) {
      var i :| 0 <= i < |st.table| && st.table[i] == s;
      assert v[st.table[i].id] != t[st.table[i].id];
    }
  }

  /** Whenever a restart comes, it leaves the table in step with the index exactly when the index says
      coolDown of no active signal. */
  lemma RestartKeepsMirror(r: Run, order: seq<string>)
    requires LegalRun(r) && Enumerates(order, Final(r).redis.ids)
    ensures OpenView(Final(r).docs) == TableView(Restarted(Final(r), order).table)
            <==> forall s | s in Final(r).table :: !SaysCoolDown(Final(r).docs, s.id)
  {
    hide Final, LegalRun, OpenView, TableView, Load, Ids, SaysCoolDown;
    Extends(r, Restart(order));
    IndexAgreesExactly(Then(r, Restart(order)));
    TracedHolds(r);
    BehindAfterRestart(Final(r), order);
  }

  lemma BehindAfterRestart(st: State, order: seq<string>)
    requires TracedCore(st) && Enumerates(order, st.redis.ids)
    ensures (forall b | b in Restarted(st, order).table :: !Behind(Restarted(st, order), b))
            <==> forall s | s in st.table :: !SaysCoolDown(st.docs, s.id)
  {
    hide Encode, Decode, Load, Ids, LastDoc, LastLive, Sound, Backed;
    LoadedAll(st, order);
    var t := Load(st.redis, order);
    forall j | 0 <= j < |t| ensures t[j].id == order[j] && Live(t[j].status) {
      BackingRecord(st, order[j]);
    }
    SameIdsSameDocs(st, t, Restarted(st, order));
  }

  lemma SameIdsSameDocs(st: State, t: seq<Signal>, next: State)
    requires Ids(t) == Ids(st.table) && next.docs == st.docs && next.table == t
    requires forall j | 0 <= j < |t| :: Live(t[j].status)
    ensures (forall b | b in t :: !Behind(next, b))
            <==> forall s | s in st.table :: !SaysCoolDown(st.docs, s.id)
  {
    hide Ids, SaysCoolDown;
    forall b | b in t && Behind(next, b) ensures exists s | s in st.table :: s.id == b.id {
      var j :| 0 <= j < |t| && t[j] == b;
      IdIn(t, j);
      var i := AtId(st.table, b.id);
      assert st.table[i] in st.table;
    }
    forall s | s in st.table && SaysCoolDown(st.docs, s.id)
      ensures exists b | b in t :: Behind(next, b)
    {
      var i :| 0 <= i < |st.table| && st.table[i] == s;
      IdIn(st.table, i);
      var j := AtId(t, s.id);
      assert t[j] in t && Behind(next, t[j]);
    }
  }
}
