/** What every run keeps, restarts included: a well-formed table with distinct ids, and Redis in
    agreement with it. */
module SignalInvariants {
  import opened Options
  import opened SignalTypes
  import opened SignalRedis
  import opened SignalSpec
  import opened SignalRuns

  /** The last document filed under the id. */
  function LastDoc(docs: seq<Signal>, id: string): Option<Signal> {
    if docs == [] then None
    else if docs[|docs| - 1].id == id then Some(docs[|docs| - 1])
    else LastDoc(docs[..|docs| - 1], id)
  }

  /** The signal as of its last creation or opening. */
  function LastLive(docs: seq<Signal>, id: string): Option<Signal> {
    if docs == [] then None
    else if docs[|docs| - 1].id == id && Live(docs[|docs| - 1].status) then Some(docs[|docs| - 1])
    else LastLive(docs[..|docs| - 1], id)
  }

  lemma NewDoc(docs: seq<Signal>, d: Signal)
    ensures forall id :: LastDoc(docs + [d], id) == if d.id == id then Some(d) else LastDoc(docs, id)
    ensures forall id :: LastLive(docs + [d], id)
                         == if d.id == id && Live(d.status) then Some(d) else LastLive(docs, id)
  {
    assert (docs + [d])[..|docs|] == docs;
  }

  ghost predicate DistinctIds(t: seq<Signal>) {
    forall i, j | 0 <= i < j < |t| :: t[i].id != t[j].id
  }

  /** The ids in the table. */
  function Ids(t: seq<Signal>): set<string> {
    set s | s in t :: s.id
  }

  lemma IdIn(t: seq<Signal>, i: nat)
    requires i < |t|
    ensures t[i].id in Ids(t)
  {
  }

  lemma AtId(t: seq<Signal>, id: string) returns (i: nat)
    requires id in Ids(t)
    ensures i < |t| && t[i].id == id
  {
    i :| 0 <= i < |t| && t[i].id == id;
  }

  lemma IdsAppend(t: seq<Signal>, s: Signal)
    ensures Ids(t + [s]) == Ids(t) + {s.id}
  {
  }

  lemma IdsUpdate(t: seq<Signal>, i: nat, s: Signal)
    requires i < |t| && s.id == t[i].id
    ensures Ids(t[i := s]) == Ids(t)
  {
    var r := t[i := s];
    assert forall k | 0 <= k < |t| :: r[k].id == t[k].id;
    assert forall k | 0 <= k < |t| :: r[k] in r && t[k] in t;
  }

  lemma IdsConcat(a: seq<Signal>, b: seq<Signal>)
    ensures Ids(a + b) == Ids(a) + Ids(b)
  {
  }

  lemma IdsRemove(t: seq<Signal>, i: nat)
    requires i < |t| && DistinctIds(t)
    ensures Ids(t[..i] + t[i + 1..]) == Ids(t) - {t[i].id}
  {
    var a, b := t[..i], t[i + 1..];
    assert t == (a + [t[i]]) + b;
    IdsConcat(a + [t[i]], b);
    IdsAppend(a, t[i]);
    IdsConcat(a, b);
    assert t[i].id !in Ids(a);
    assert t[i].id !in Ids(b) by {
      assert forall k | 0 <= k < |b| :: b[k] == t[i + 1 + k];
    }
  }

  /** A record of the table: it fits its arrays, is not closed, and has an end time exactly when it
      is cooling down. */
  predicate Sound(s: Signal) {
    && Fits(s)
    && s.status != Closed
    && (s.endTime == "" <==> Live(s.status))
  }

  /** b is s as it was at or before now: the same alarm, no further in its lifecycle. */
  predicate Earlier(b: Signal, s: Signal) {
    && Sound(b) && Live(b.status)
    && (Live(s.status) ==> b == s)
    && b.changedAt <= s.changedAt
    && b.events <= s.events
    && s == b.(status := s.status, changedAt := s.changedAt, events := s.events, endTime := s.endTime)
  }

  /** Redis holds this signal as of its last creation or opening. */
  predicate Backed(docs: seq<Signal>, redis: Redis, s: Signal) {
    var b := LastLive(docs, s.id);
    && b.Some?
    && Earlier(b.value, s)
    && Get(redis.records, s.id) == Some(Encode(b.value))
  }

  ghost predicate Core(st: State) {
    && |st.table| <= MAX_SIGNALS
    && DistinctIds(st.table)
    && (forall i | 0 <= i < |st.table| :: Sound(st.table[i]) && st.table[i].changedAt <= st.clock)
    && (forall i | 0 <= i < |st.table| :: Backed(st.docs, st.redis, st.table[i]))
    && st.redis.ids == Ids(st.table)
    && st.redis.records.Keys == Ids(st.table)
  }

  /** Where the signals of a table come from when entry i is taken out. */
  lemma Removed(t: seq<Signal>, i: nat)
    requires i < |t|
    ensures var r := t[..i] + t[i + 1..];
      && |r| == |t| - 1
      && forall k | 0 <= k < |r| :: r[k] == t[if k < i then k else k + 1]
  {
  }

  lemma EarlierThanItself(s: Signal)
    requires Sound(s) && Live(s.status)
    ensures Earlier(s, s)
  {
  }

  lemma NewIsSound(rule: Rule, msg: Message, id: string, now: int, nowText: string)
    requires |id| == ID_MAX && IsTimeText(nowText)
    ensures var s := NewSignal(rule, msg, id, now, nowText); Sound(s) && Earlier(s, s)
  {
  }

  lemma CooledIsSound(b: Signal, s: Signal, msg: Message, now: int, nowText: string)
    requires Sound(s) && Earlier(b, s) && s.changedAt <= now && IsTimeText(nowText)
    ensures var c := Cooled(s, msg, now, nowText); Sound(c) && Earlier(b, c)
  {
    var c := Cooled(s, msg, now, nowText);
    assert s.events <= c.events;
  }

  lemma OpenedIsSound(s: Signal, now: int)
    requires Sound(s) && s.status == WarmUp
    ensures var o := Opened(s, now); Sound(o) && Earlier(o, o)
  {
  }

  lemma CoreAdd(st: State, c: Change)
    requires Core(st) && c.Add? && Legal(st, c)
    ensures Core(Apply(st, c))
  {
    hide Encode, Affected, Sound, Earlier, Ids, LastLive, LastDoc;
    var next := Apply(st, c);
    var s := NewSignal(c.rule, c.msg, c.id, st.clock, c.nowText);
    NewIsSound(c.rule, c.msg, c.id, st.clock, c.nowText);
    NewDoc(st.docs, s);
    assert next.table == st.table + [s] && next.docs == st.docs + [s] && next.redis == Save(st.redis, s);
    forall i | 0 <= i < |st.table| ensures Backed(next.docs, next.redis, st.table[i]) {
      assert Backed(st.docs, st.redis, st.table[i]);
    }
    assert Backed(next.docs, next.redis, s);
    IdsAppend(st.table, s);
  }

  /** A changed record under the same id: Cool and Promote. */
  lemma CoreAlter(st: State, c: Change)
    requires Core(st) && (c.Cool? || c.Promote?) && Legal(st, c)
    ensures Core(Apply(st, c))
  {
    hide Encode, Sound, Earlier, Ids, LastLive, LastDoc, RuleByName, StampOr;
    var next := Apply(st, c);
    var was, s := st.table[c.i], next.table[c.i];
    NewDoc(st.docs, s);
    assert Backed(st.docs, st.redis, was);
    if c.Cool? {
      CooledIsSound(LastLive(st.docs, was.id).value, was, c.msg, st.clock, c.nowText);
    } else {
      OpenedIsSound(was, st.clock);
    }
    forall i | 0 <= i < |next.table| ensures Backed(next.docs, next.redis, next.table[i]) {
      assert Backed(st.docs, st.redis, st.table[i]);
    }
    IdsUpdate(st.table, c.i, s);
  }

  lemma CoreRetire(st: State, c: Change)
    requires Core(st) && c.Retire? && Legal(st, c)
    ensures Core(Apply(st, c))
  {
    hide Encode, Sound, Earlier, Ids, LastLive, LastDoc, RuleByName;
    var next := Apply(st, c);
    Removed(st.table, c.i);
    NewDoc(st.docs, Retired(st.table[c.i], st.clock));
    forall i | 0 <= i < |next.table| ensures Backed(next.docs, next.redis, next.table[i]) {
      assert Backed(st.docs, st.redis, st.table[if i < c.i then i else i + 1]);
    }
    IdsRemove(st.table, c.i);
  }

  lemma CoreIsInductive()
    ensures Inductive(Core)
  {
    forall st: State, c: Change | Core(st) && Legal(st, c) ensures Core(Apply(st, c)) {
      match c
      case Add(_, _, _, _) => CoreAdd(st, c);
      case Cool(_, _, _) => CoreAlter(st, c);
      case Promote(_) => CoreAlter(st, c);
      case Retire(_) => CoreRetire(st, c);
    }
  }

  // ---- Restart ----

  lemma {:induction false} IdsBound(t: seq<Signal>)
    ensures |Ids(t)| <= |t|
  {
    if t != [] {
      var u, s := t[..|t| - 1], t[|t| - 1];
      IdsBound(u);
      IdsAppend(u, s);
      assert t == u + [s];
    }
  }

  lemma {:induction false} EnumerationSize(order: seq<string>, ids: set<string>)
    requires Enumerates(order, ids)
    ensures |order| == |ids|
  {
    if order == [] {
      assert ids == {};
    } else {
      var rest, last := order[..|order| - 1], order[|order| - 1];
      assert forall id | id in ids - {last} :: id in rest by {
        forall id | id in ids - {last} ensures id in rest {
          var k :| 0 <= k < |order| && order[k] == id;
          assert rest[k] == id;
        }
      }
      EnumerationSize(rest, ids - {last});
    }
  }

  /** The backing record of a loaded id, found through the signal it backs. */
  lemma BackingRecord(st: State, id: string)
    requires Core(st) && id in st.redis.ids
    ensures var b := LastLive(st.docs, id);
      && b.Some? && b.value.id == id && Sound(b.value) && Live(b.value.status)
      && b.value.changedAt <= st.clock
      && Get(st.redis.records, id) == Some(Encode(b.value))
      && Decode(Encode(b.value)) == b
  {
    hide Encode, Decode;
    var i :| 0 <= i < |st.table| && st.table[i].id == id;
    assert Backed(st.docs, st.redis, st.table[i]);
    LoadUndoesStore(LastLive(st.docs, id).value);
  }

  lemma {:induction false} LoadedSoFar(st: State, order: seq<string>, k: nat)
    requires Core(st) && Enumerates(order, st.redis.ids) && k <= |order| <= MAX_SIGNALS
    ensures var t := LoadUpTo(st.redis, order, k);
      |t| == k && forall j | 0 <= j < k :: Some(t[j]) == LastLive(st.docs, order[j])
  {
    hide Encode, Decode, Core;
    if k > 0 {
      LoadedSoFar(st, order, k - 1);
      BackingRecord(st, order[k - 1]);
    }
  }

  /** Every active signal comes back, each as its backing record. */
  lemma LoadedAll(st: State, order: seq<string>)
    requires Core(st) && Enumerates(order, st.redis.ids)
    ensures var t := Load(st.redis, order);
      && |t| == |order| <= MAX_SIGNALS
      && (forall j | 0 <= j < |t| :: Some(t[j]) == LastLive(st.docs, order[j]))
      && Ids(t) == st.redis.ids
      && DistinctIds(t)
  {
    hide Encode, Decode, Load, Ids, Sound, Backed, LastLive;
    IdsBound(st.table);
    EnumerationSize(order, st.redis.ids);
    LoadedSoFar(st, order, |order|);
    assert Load(st.redis, order) == LoadUpTo(st.redis, order, |order|) by { LoadDef(st.redis, order); }
    var t := Load(st.redis, order);
    forall j | 0 <= j < |t| ensures t[j].id == order[j] {
      BackingRecord(st, order[j]);
    }
    IdsListed(t, order);
    assert Ids(t) == st.redis.ids;
  }

  lemma LoadDef(redis: Redis, order: seq<string>)
    ensures Load(redis, order) == LoadUpTo(redis, order, |order|)
  {
  }

  lemma IdsListed(t: seq<Signal>, order: seq<string>)
    requires |t| == |order| && forall j | 0 <= j < |t| :: t[j].id == order[j]
    ensures forall id :: id in Ids(t) <==> id in order
  {
    forall id | id in order ensures id in Ids(t) {
      var j :| 0 <= j < |order| && order[j] == id;
      IdIn(t, j);
    }
  }

  lemma BackingIsBacked(st: State, id: string)
    requires Core(st) && id in st.redis.ids
    ensures var b := LastLive(st.docs, id);
            b.Some? && Sound(b.value) && b.value.changedAt <= st.clock && Backed(st.docs, st.redis, b.value)
  {
    BackingRecord(st, id);
    EarlierThanItself(LastLive(st.docs, id).value);
  }

  lemma CoreRestart(st: State, order: seq<string>)
    requires Core(st) && Enumerates(order, st.redis.ids)
    ensures Core(Restarted(st, order))
  {
    hide Encode, Decode, Load, Ids, Sound, LastLive, Backed;
    LoadedAll(st, order);
    var t := Load(st.redis, order);
    forall j | 0 <= j < |t|
      ensures Sound(t[j]) && t[j].changedAt <= st.clock && Backed(st.docs, st.redis, t[j])
    {
      BackingIsBacked(st, order[j]);
    }
  }

  lemma CoreSurvivesRestart()
    ensures SurvivesRestart(Core)
  {
    forall st: State, order | Core(st) && Enumerates(order, st.redis.ids)
      ensures Core(Restarted(st, order))
    {
      CoreRestart(st, order);
    }
  }

  // ---- Main results ----

  lemma CoreHolds(r: Run)
    requires LegalRun(r)
    ensures Core(Final(r))
  {
    CoreIsInductive();
    CoreSurvivesRestart();
    RunKeeps(Core, r);
  }

  /** After any run, restarts included, the ids in Redis are those of the table, and each stored
      record is the signal as of its last creation or opening. */
  lemma RedisAgreesWithTable(r: Run)
    requires LegalRun(r)
    ensures var st := Final(r);
      && st.redis.ids == Ids(st.table) == st.redis.records.Keys
      && DistinctIds(st.table)
      && forall s | s in st.table ::
           var b := LastLive(st.docs, s.id);
           b.Some? && Earlier(b.value, s) && Get(st.redis.records, s.id) == Some(Encode(b.value))
  {
    CoreHolds(r);
  }

  lemma {:induction false} LastLiveIsADoc(docs: seq<Signal>, id: string)
    requires LastLive(docs, id).Some?
    ensures LastLive(docs, id).value in docs && LastLive(docs, id).value.id == id
  {
    if !(docs[|docs| - 1].id == id && Live(docs[|docs| - 1].status)) {
      LastLiveIsADoc(docs[..|docs| - 1], id);
    }
  }

  function Rank(status: Status): nat {
    match status
    case WarmUp => 0
    case Open => 1
    case CoolDown => 2
    case Closed => 3
  }

  lemma RestoredRecord(st: State, order: seq<string>, s: Signal, b: Signal)
    requires Core(st) && Enumerates(order, st.redis.ids)
    requires s in st.table && b in Load(st.redis, order) && b.id == s.id
    ensures b in st.docs && Earlier(b, s) && Rank(b.status) <= Rank(s.status) && (b == s <==> Live(s.status))
  {
    LoadedAll(st, order);
    hide Encode, Decode, Load, Ids, Fits;
    assert Sound(s);
    assert Backed(st.docs, st.redis, s);
    var t := Load(st.redis, order);
    var j :| 0 <= j < |t| && t[j] == b;
    BackingRecord(st, order[j]);
    LastLiveIsADoc(st.docs, order[j]);
  }

  lemma TableSize(st: State, order: seq<string>)
    requires Core(st) && Enumerates(order, st.redis.ids)
    ensures |Load(st.redis, order)| == |st.table| && Ids(Load(st.redis, order)) == Ids(st.table)
  {
    LoadedAll(st, order);
    EnumerationSize(order, st.redis.ids);
    DistinctSize(st.table);
  }

  /** A restart brings back exactly the active signals, each in a state it really had and never
      later in its lifecycle than the one lost; it comes back unchanged exactly when it was not
      cooling down. */
  lemma RestartRestores(r: Run, order: seq<string>)
    requires LegalRun(r) && Enumerates(order, Final(r).redis.ids)
    ensures var st, back := Final(r), Restarted(Final(r), order);
      && |back.table| == |st.table|
      && Ids(back.table) == Ids(st.table)
      && forall s, b | s in st.table && b in back.table && b.id == s.id ::
           && b in st.docs
           && Earlier(b, s)
           && Rank(b.status) <= Rank(s.status)
           && (b == s <==> Live(s.status))
  {
    hide Load, Ids, Earlier, Rank, Final, LegalRun, Core;
    var st := Final(r);
    CoreHolds(r);
    TableSize(st, order);
    forall s, b | s in st.table && b in Restarted(st, order).table && b.id == s.id
      ensures b in st.docs && Earlier(b, s) && Rank(b.status) <= Rank(s.status) && (b == s <==> Live(s.status))
    {
      RestoredRecord(st, order, s, b);
    }
  }

  lemma {:induction false} DistinctSize(t: seq<Signal>)
    requires DistinctIds(t)
    ensures |Ids(t)| == |t|
  {
    if t != [] {
      hide Ids;
      var u, s := t[..|t| - 1], t[|t| - 1];
      assert t == u + [s];
      DistinctSize(u);
      IdsAppend(u, s);
      LastIsNew(t);
    }
  }

  lemma LastIsNew(t: seq<Signal>)
    requires DistinctIds(t) && t != []
    ensures t[|t| - 1].id !in Ids(t[..|t| - 1])
  {
  }
}
