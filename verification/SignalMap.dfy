/** The table with its linear subset scan, seen as a map from (device, rule, entity values) to
    signals. It is one when each rule name has a fixed list of entity keys and every message a rule
    matches carries all of them. */
module SignalMap {
  import opened Options
  import opened SignalTypes
  import opened SignalRedis
  import opened SignalSpec
  import opened SignalRuns
  import opened SignalInvariants
  import opened SignalIdentity
  import opened SignalTiming

  datatype Key = Key(device: string, rule: string, entities: Tags)

  type Alarms = map<Key, Signal>

  function KeyOf(s: Signal): Key {
    Key(s.device, s.rule, s.entities)
  }

  /** The key a message and a rule address. */
  function MatchKey(msg: Message, rule: Rule): Key {
    Key(msg.device, rule.name, Affected(rule.affected, msg.tags))
  }

  /** The message carries every entity key that `keys` lists for the rule's name. */
  ghost predicate Carries(keys: map<string, set<string>>, msg: Message, rule: Rule) {
    && NamesFit(msg, rule)
    && rule.name in keys
    && (forall k :: k in keys[rule.name] <==> ListsKey(rule, k))
    && (forall k | k in keys[rule.name] :: k in msg.tags)
  }

  /** The rule's affected-entity list parses, and has the key somewhere. */
  predicate ListsKey(rule: Rule, key: string) {
    && rule.affected.Some? && rule.affected.value.Arr?
    && exists i | 0 <= i < |rule.affected.value.items| :: rule.affected.value.items[i] == Str(key)
  }

  ghost predicate Keyed(keys: map<string, set<string>>, t: seq<Signal>) {
    forall i | 0 <= i < |t| :: t[i].rule in keys && t[i].entities.Keys == keys[t[i].rule]
  }

  lemma AffectedKeys(keys: map<string, set<string>>, msg: Message, rule: Rule)
    requires Carries(keys, msg, rule)
    ensures Affected(rule.affected, msg.tags).Keys == keys[rule.name]
  {
    var e := Affected(rule.affected, msg.tags);
    forall k ensures k in e <==> k in keys[rule.name] {
      assert k in e <==> k in msg.tags && ListsKey(rule, k);
    }
  }

  /** For one signal the subset test is equality of keys. */
  lemma SubsetIsKey(keys: map<string, set<string>>, s: Signal, msg: Message, rule: Rule)
    requires Carries(keys, msg, rule) && s.rule in keys && s.entities.Keys == keys[s.rule]
    ensures Finds(s, msg.device, rule.name, msg.tags) <==> KeyOf(s) == MatchKey(msg, rule)
  {
    AffectedKeys(keys, msg, rule);
    var e := Affected(rule.affected, msg.tags);
    if Finds(s, msg.device, rule.name, msg.tags) {
      assert s.entities.Keys == e.Keys;
      forall k | k in e ensures s.entities[k] == e[k] {
        assert k in s.entities;
      }
      assert s.entities == e;
    }
    if KeyOf(s) == MatchKey(msg, rule) {
      assert s.entities == e;
    }
  }

  // ---- The abstraction ----

  function Abs(t: seq<Signal>): Alarms {
    if t == [] then map[]
    else Abs(t[..|t| - 1])[KeyOf(t[|t| - 1]) := t[|t| - 1]]
  }

  lemma KeysTell(a: Signal, b: Signal)
    ensures KeyOf(a) == KeyOf(b) <==> Twins(a, b)
  {
  }

  lemma LastKeyIsNew(t: seq<Signal>)
    requires NoTwins(t) && t != []
    ensures KeyOf(t[|t| - 1]) !in Abs(t[..|t| - 1])
  {
    hide Abs, KeyOf, Twins;
    var u, s := t[..|t| - 1], t[|t| - 1];
    if KeyOf(s) in Abs(u) {
      var i := KeyAt(u, KeyOf(s));
      KeysTell(t[i], s);
    }
  }

  /** Each signal is found under its key, and each key is some signal's. */
  lemma AbsAt(t: seq<Signal>)
    requires NoTwins(t)
    ensures forall i | 0 <= i < |t| :: KeyOf(t[i]) in Abs(t) && Abs(t)[KeyOf(t[i])] == t[i]
    ensures forall k | k in Abs(t) :: exists i | 0 <= i < |t| :: KeyOf(t[i]) == k
    ensures |Abs(t)| == |t|
  {
    AbsHolds(t);
    AbsSize(t);
    forall k | k in Abs(t) ensures exists i | 0 <= i < |t| :: KeyOf(t[i]) == k {
      var i := KeyAt(t, k);
      assert KeyOf(t[i]) == k;
    }
  }

  lemma {:induction false} KeyAt(t: seq<Signal>, k: Key) returns (i: nat)
    requires k in Abs(t)
    ensures i < |t| && KeyOf(t[i]) == k
  {
    hide KeyOf;
    if KeyOf(t[|t| - 1]) == k {
      return |t| - 1;
    }
    i := KeyAt(t[..|t| - 1], k);
  }

  lemma {:induction false} AbsHolds(t: seq<Signal>)
    requires NoTwins(t)
    ensures forall i | 0 <= i < |t| :: KeyOf(t[i]) in Abs(t) && Abs(t)[KeyOf(t[i])] == t[i]
  {
    hide KeyOf, Twins;
    if t != [] {
      var u, s := t[..|t| - 1], t[|t| - 1];
      AbsHolds(u);
      forall i | 0 <= i < |u| ensures KeyOf(t[i]) != KeyOf(s) && t[i] == u[i] {
        KeysTell(t[i], s);
      }
    }
  }

  lemma {:induction false} AbsSize(t: seq<Signal>)
    requires NoTwins(t)
    ensures |Abs(t)| == |t|
  {
    hide KeyOf, Twins;
    if t != [] {
      AbsSize(t[..|t| - 1]);
      LastKeyIsNew(t);
    }
  }

  /** Two tables with the same entries under every key have the same abstraction. */
  lemma AbsIs(t: seq<Signal>, m: Alarms)
    requires NoTwins(t)
    requires forall i | 0 <= i < |t| :: KeyOf(t[i]) in m && m[KeyOf(t[i])] == t[i]
    requires forall k | k in m :: exists i | 0 <= i < |t| :: KeyOf(t[i]) == k
    ensures Abs(t) == m
  {
    hide Abs, KeyOf, NoTwins;
    AbsAt(t);
    forall k ensures k in Abs(t) <==> k in m
             ensures k in Abs(t) && k in m ==> Abs(t)[k] == m[k]
    {
      if k in Abs(t) {
        var i :| 0 <= i < |t| && KeyOf(t[i]) == k;
      }
      if k in m {
        var i :| 0 <= i < |t| && KeyOf(t[i]) == k;
      }
    }
  }

  /** The linear scan finds exactly the map's entry. */
  lemma ScanIsLookup(keys: map<string, set<string>>, t: seq<Signal>, msg: Message, rule: Rule)
    requires NoTwins(t) && Keyed(keys, t) && Carries(keys, msg, rule)
    ensures var i := FindFirst(t, msg.device, rule.name, msg.tags);
            && (i < |t| <==> MatchKey(msg, rule) in Abs(t))
            && (i < |t| ==> Abs(t)[MatchKey(msg, rule)] == t[i])
  {
    hide Carries, KeyOf, MatchKey, Abs, Finds, NoTwins;
    AbsAt(t);
    forall i | 0 <= i < |t|
      ensures Finds(t[i], msg.device, rule.name, msg.tags) <==> KeyOf(t[i]) == MatchKey(msg, rule)
    {
      SubsetIsKey(keys, t[i], msg, rule);
    }
    var i := FindFirst(t, msg.device, rule.name, msg.tags);
    if MatchKey(msg, rule) in Abs(t) {
      var j :| 0 <= j < |t| && KeyOf(t[j]) == MatchKey(msg, rule);
    }
  }

  // ---- The map machine ----

  /** Insert if absent (and if there is room), or update if present. */
  function MapMatch(m: Alarms, rm: RuleMatch, msg: Message, id: string, now: int, nowText: string): Alarms {
    var key := MatchKey(msg, rm.rule);
    match rm.kind
    case MatchOpen =>
      if key in m || |m| >= MAX_SIGNALS then m else m[key := NewSignal(rm.rule, msg, id, now, nowText)]
    case MatchClose =>
      if key in m then m[key := Cooled(m[key], msg, now, nowText)] else m
  }

  function MapUpTo(m: Alarms, ms: seq<RuleMatch>, msg: Message, ids: seq<string>, now: int, nowText: string,
                   k: nat): Alarms
    requires k <= |ms| <= |ids|
  {
    if k == 0 then m
    else MapMatch(MapUpTo(m, ms, msg, ids, now, nowText, k - 1), ms[k - 1], msg, ids[k - 1], now, nowText)
  }

  /** Expired warm-ups open in place, expired cool-downs go, the rest stays. */
  function MapTick(m: Alarms, rules: seq<Rule>, now: int): Alarms {
    map k | k in m && FateOf(m[k], rules, now) != Dropped ::
      if FateOf(m[k], rules, now) == Promoted then Opened(m[k], now) else m[k]
  }

  /** Every entry as of its last creation or opening. */
  function MapRestart(m: Alarms, docs: seq<Signal>): Alarms {
    map k | k in m && LastLive(docs, m[k].id).Some? :: LastLive(docs, m[k].id).value
  }

  // ---- Refinement, one step at a time ----

  ghost predicate MapReady(keys: map<string, set<string>>, st: State) {
    SingleCore(st) && Keyed(keys, st.table)
  }

  lemma NewHasKey(keys: map<string, set<string>>, st: State, rule: Rule, msg: Message, id: string, nowText: string)
    requires Carries(keys, msg, rule)
    ensures var s := NewSignal(rule, msg, id, st.clock, nowText);
            KeyOf(s) == MatchKey(msg, rule) && s.rule in keys && s.entities.Keys == keys[s.rule]
  {
    AffectedKeys(keys, msg, rule);
  }

  lemma OpenIsInsert(keys: map<string, set<string>>, st: State, c: Change)
    requires MapReady(keys, st) && c.Add? && Legal(st, c) && Carries(keys, c.msg, c.rule)
    ensures MatchKey(c.msg, c.rule) !in Abs(st.table)
    ensures Abs(Apply(st, c).table)
            == Abs(st.table)[MatchKey(c.msg, c.rule) := NewSignal(c.rule, c.msg, c.id, st.clock, c.nowText)]
    ensures Keyed(keys, Apply(st, c).table) && NoTwins(Apply(st, c).table)
  {
    hide Carries, KeyOf, MatchKey, Core, NewSignal, NoTwins, Finds, Save;
    var t, s := st.table, NewSignal(c.rule, c.msg, c.id, st.clock, c.nowText);
    ScanIsLookup(keys, t, c.msg, c.rule);
    NewHasKey(keys, st, c.rule, c.msg, c.id, c.nowText);
    NamesFitIf(keys, c.msg, c.rule);
    NoTwinsAfter(st, c);
    assert (t + [s])[..|t|] == t;
  }

  lemma NamesFitIf(keys: map<string, set<string>>, msg: Message, rule: Rule)
    requires Carries(keys, msg, rule)
    ensures NamesFit(msg, rule)
  {
  }

  /** A record replaced under the same key: the map changes in that one entry. */
  lemma UpdateIsUpdate(t: seq<Signal>, i: nat, s: Signal)
    requires NoTwins(t) && i < |t| && Twins(s, t[i])
    ensures NoTwins(t[i := s])
    ensures Abs(t[i := s]) == Abs(t)[KeyOf(t[i]) := s]
  {
    hide Abs;
    var u := t[i := s];
    assert forall k | 0 <= k < |t| :: Twins(u[k], t[k]);
    AbsAt(t);
    var m := Abs(t)[KeyOf(t[i]) := s];
    forall k | 0 <= k < |u| ensures KeyOf(u[k]) in m && m[KeyOf(u[k])] == u[k] {
      assert KeyOf(u[k]) == KeyOf(t[k]);
      assert k < i ==> !Twins(t[k], t[i]);
      assert i < k ==> !Twins(t[i], t[k]);
    }
    forall key | key in m ensures exists k | 0 <= k < |u| :: KeyOf(u[k]) == key {
      var k :| 0 <= k < |t| && KeyOf(t[k]) == key;
      assert KeyOf(u[k]) == key;
    }
    AbsIs(u, m);
  }

  lemma CloseIsUpdate(keys: map<string, set<string>>, st: State, m: RuleMatch, msg: Message, id: string,
                      nowText: string)
    requires MapReady(keys, st) && m.kind == MatchClose && Carries(keys, msg, m.rule)
    ensures Abs(HandleMatch(st, m, msg, id, nowText).table) == MapMatch(Abs(st.table), m, msg, id, st.clock, nowText)
  {
    hide Carries, MatchKey, Core, NoTwins, Finds, Abs;
    ScanIsLookup(keys, st.table, msg, m.rule);
    var i := FindFirst(st.table, msg.device, m.rule.name, msg.tags);
    if i < |st.table| {
      SameId(st, i);
      FoundKey(keys, st.table, i, msg, m.rule);
      UpdateIsUpdate(st.table, i, Cooled(st.table[i], msg, st.clock, nowText));
    }
  }

  lemma SameId(st: State, i: nat)
    requires Core(st) && i < |st.table|
    ensures FindId(st.table, st.table[i].id) == i
  {
    var j := FindId(st.table, st.table[i].id);
    assert j <= i;
  }

  lemma FoundKey(keys: map<string, set<string>>, t: seq<Signal>, i: nat, msg: Message, rule: Rule)
    requires Keyed(keys, t) && Carries(keys, msg, rule) && i < |t| && Finds(t[i], msg.device, rule.name, msg.tags)
    ensures KeyOf(t[i]) == MatchKey(msg, rule)
  {
    SubsetIsKey(keys, t[i], msg, rule);
  }

  lemma OpenRefines(keys: map<string, set<string>>, st: State, m: RuleMatch, msg: Message, id: string, nowText: string)
    requires MapReady(keys, st) && m.kind == MatchOpen && Carries(keys, msg, m.rule)
    requires FreshIds(st, [id]) && IsTimeText(nowText)
    ensures Abs(HandleMatch(st, m, msg, id, nowText).table) == MapMatch(Abs(st.table), m, msg, id, st.clock, nowText)
  {
    hide Carries, MatchKey, Core, NoTwins, Finds, Abs, NewSignal, Apply;
    assert [id][0] == id;
    ScanIsLookup(keys, st.table, msg, m.rule);
    AbsAt(st.table);
    var i := FindFirst(st.table, msg.device, m.rule.name, msg.tags);
    if i == |st.table| && |st.table| < MAX_SIGNALS {
      OpenIsInsert(keys, st, Add(m.rule, msg, id, nowText));
    }
  }

  // ---- Refinement over a whole message and a whole tick ----

  lemma KeyedAfter(keys: map<string, set<string>>, st: State, c: Change)
    requires MapReady(keys, st) && Legal(st, c) && (c.Add? ==> Carries(keys, c.msg, c.rule))
    ensures Keyed(keys, Apply(st, c).table)
  {
    hide Carries, Core, NewSignal, NoTwins, RuleByName, Affected, Encode;
    match c
    case Add(rule, msg, id, nowText) => NewHasKey(keys, st, rule, msg, id, nowText);
    case Cool(_, _, _) =>
    case Promote(_) =>
    case Retire(i) => Removed(st.table, i);
  }

  lemma KeyedRestart(keys: map<string, set<string>>, st: State, order: seq<string>)
    requires MapReady(keys, st) && Enumerates(order, st.redis.ids)
    ensures Keyed(keys, Load(st.redis, order))
    ensures forall b | b in Load(st.redis, order) :: exists s | s in st.table :: KeyOf(s) == KeyOf(b)
  {
    hide Load, Core, NoTwins;
    var t := Load(st.redis, order);
    forall j | 0 <= j < |t|
      ensures t[j].rule in keys && t[j].entities.Keys == keys[t[j].rule]
      ensures exists s | s in st.table :: KeyOf(s) == KeyOf(t[j])
    {
      var i := OriginalOf(st, order, j);
      assert st.table[i] in st.table;
    }
  }

  lemma MapReadyIsInductive(keys: map<string, set<string>>)
    ensures InductiveWhen(st => MapReady(keys, st), (msg, rule) => Carries(keys, msg, rule))
    ensures SurvivesRestart(st => MapReady(keys, st))
  {
    hide Legal, Apply, Core, NoTwins, Keyed, Load;
    SingleIsInductive();
    var P := st => MapReady(keys, st);
    forall st: State, c: Change | P(st) && Legal(st, c) && (c.Add? ==> Carries(keys, c.msg, c.rule))
      ensures P(Apply(st, c))
    {
      if c.Add? { NamesFitIf(keys, c.msg, c.rule); }
      KeyedAfter(keys, st, c);
    }
    forall st: State, order | P(st) && Enumerates(order, st.redis.ids) ensures P(Restarted(st, order)) {
      KeyedRestart(keys, st, order);
    }
  }

  lemma MatchRefines(keys: map<string, set<string>>, st: State, m: RuleMatch, msg: Message, id: string, nowText: string)
    requires MapReady(keys, st) && Carries(keys, msg, m.rule) && FreshIds(st, [id]) && IsTimeText(nowText)
    ensures var next := HandleMatch(st, m, msg, id, nowText);
            next.clock == st.clock && Abs(next.table) == MapMatch(Abs(st.table), m, msg, id, st.clock, nowText)
  {
    hide Carries, MapReady, HandleMatch, MapMatch, Abs;
    OnceKeeps(st, m, msg, id, nowText);
    if m.kind == MatchOpen {
      OpenRefines(keys, st, m, msg, id, nowText);
    } else {
      CloseIsUpdate(keys, st, m, msg, id, nowText);
    }
  }

  /** What the first k matches leave is ready for the next one. */
  lemma HandleLeavesReady(keys: map<string, set<string>>, st: State, ms: seq<RuleMatch>, msg: Message,
                          ids: seq<string>, nowText: string, k: nat)
    requires MapReady(keys, st) && k < |ms| <= |ids| && FreshIds(st, ids) && IsTimeText(nowText)
    requires forall l | 0 <= l < |ms| :: Carries(keys, msg, ms[l].rule)
    ensures var mid := HandleUpTo(st, ms, msg, ids, nowText, k);
            MapReady(keys, mid) && FreshIds(mid, [ids[k]])
  {
    hide Carries, MapReady, HandleUpTo, InductiveWhen, SurvivesRestart;
    HandleUpToIds(st, ms, msg, ids, nowText, k, ids[k]);
    MapReadyIsInductive(keys);
    HandleKeeps(s => MapReady(keys, s), (ms0, r0) => Carries(keys, ms0, r0), st, ms, msg, ids, nowText, k);
  }

  lemma {:induction false} HandleRefines(keys: map<string, set<string>>, st: State, ms: seq<RuleMatch>, msg: Message,
                                         ids: seq<string>, nowText: string, k: nat)
    requires MapReady(keys, st) && k <= |ms| <= |ids| && FreshIds(st, ids) && IsTimeText(nowText)
    requires forall l | 0 <= l < |ms| :: Carries(keys, msg, ms[l].rule)
    ensures Abs(HandleUpTo(st, ms, msg, ids, nowText, k).table)
            == MapUpTo(Abs(st.table), ms, msg, ids, st.clock, nowText, k)
    ensures HandleUpTo(st, ms, msg, ids, nowText, k).clock == st.clock
  {
    hide Carries, MapReady, HandleMatch, MapMatch, Abs, FreshIds;
    if k > 0 {
      HandleRefines(keys, st, ms, msg, ids, nowText, k - 1);
      HandleLeavesReady(keys, st, ms, msg, ids, nowText, k - 1);
      MatchRefines(keys, HandleUpTo(st, ms, msg, ids, nowText, k - 1), ms[k - 1], msg, ids[k - 1], nowText);
    }
  }

  lemma TickRefines(st: State)
    requires Core(st) && NoTwins(st.table)
    ensures NoTwins(Tick(st).table)
    ensures Abs(Tick(st).table) == MapTick(Abs(st.table), st.rules, st.clock)
  {
    hide Abs, Core, RuleByName, Pass, MapTick;
    assert st.table[..|st.table|] == st.table;
    assert Tick(st).table == Pass(st.table, st.rules, st.clock);
    PassRefines(st.table, st.rules, st.clock);
  }

  lemma MapTickAdd(m: Alarms, k: Key, s: Signal, rules: seq<Rule>, now: int)
    requires k !in m
    ensures MapTick(m[k := s], rules, now)
            == match FateOf(s, rules, now)
               case Kept => MapTick(m, rules, now)[k := s]
               case Promoted => MapTick(m, rules, now)[k := Opened(s, now)]
               case Dropped => MapTick(m, rules, now)
  {
    hide FateOf, Opened;
  }

  lemma {:induction false} PassRefines(t: seq<Signal>, rules: seq<Rule>, now: int)
    requires NoTwins(t)
    ensures NoTwins(Pass(t, rules, now))
    ensures Abs(Pass(t, rules, now)) == MapTick(Abs(t), rules, now)
  {
    if t != [] {
      hide FateOf, MapTick, Twins;
      var u, s := t[..|t| - 1], t[|t| - 1];
      PassRefines(u, rules, now);
      LastKeyIsNew(t);
      MapTickAdd(Abs(u), KeyOf(s), s, rules, now);
      NoTwinsPass(t, rules, now);
      var p := Pass(u, rules, now);
      TwinKeys(s, now);
      assert (p + [s])[..|p|] == p && (p + [Opened(s, now)])[..|p|] == p && p + [] == p;
    }
  }

  lemma TwinKeys(s: Signal, now: int)
    ensures KeyOf(Opened(s, now)) == KeyOf(s) && Twins(Opened(s, now), s)
    ensures forall d :: Twins(d, s) <==> Twins(d, Opened(s, now))
  {
  }

  /** No signal left by the pass over the front is a twin of the last one. */
  lemma NoTwinsPass(t: seq<Signal>, rules: seq<Rule>, now: int)
    requires NoTwins(t) && t != []
    ensures var p := Pass(t[..|t| - 1], rules, now);
            forall k | 0 <= k < |p| :: !Twins(p[k], t[|t| - 1])
  {
    hide FateOf, Pass;
    var u := t[..|t| - 1];
    var p := Pass(u, rules, now);
    forall k | 0 <= k < |p| ensures !Twins(p[k], t[|t| - 1]) {
      PassKeeps(u, rules, now, p[k]);
      var s :| s in u && (p[k] == s || p[k] == Opened(s, now));
      var i :| 0 <= i < |u| && u[i] == s;
      assert !Twins(t[i], t[|t| - 1]);
    }
  }

  // ---- Refinement over runs ----

  /** On every run, restarts included, in which each rule name keeps one list of entity keys and every matching message
      carries them all, the table is a map: one signal per (device, rule, entity values), each
      message acts on it as insert-if-absent and update, each tick as the pass over entries, and a
      restart takes every entry back to its last creation or opening. */
  lemma TableRefinesMap(keys: map<string, set<string>>, r: Run, step: Step)
    requires LegalRun(r) && Enabled(Final(r), step)
    requires AllMatches(r, (msg, rule) => Carries(keys, msg, rule))
    requires StepMatches(Final(r), step, (msg, rule) => Carries(keys, msg, rule))
    ensures var m, st, next := Abs(Final(r).table), Final(r), Next(Final(r), step);
      && |m| == |st.table|
      && match step
         case Receive(payload, ids, now, nowText) =>
           var msg := ParseMessage(payload);
           Abs(next.table) == if msg.None? then m else
             MapUpTo(m, MatchesFor(st, msg.value), msg.value, ids, now, nowText, |MatchesFor(st, msg.value)|)
         case Monitor(now) => Abs(next.table) == MapTick(m, st.rules, now)
         case Reload(_) => Abs(next.table) == m
         case Restart(_) => Abs(next.table) == MapRestart(m, st.docs) && Abs(next.table).Keys == m.Keys
  {
    hide Carries, Core, NoTwins, Keyed, Abs, HandleUpTo, MapUpTo, TickTo, MapTick, MapRestart, Legal, Apply, Final,
         LegalRun, AllMatches;
    MapReadyIsInductive(keys);
    ReadyAtStart(keys, r.start);
    RunKeepsWhen(st => MapReady(keys, st), (msg, rule) => Carries(keys, msg, rule), r);
    var st := Final(r);
    AbsAt(st.table);
    match step
    case Receive(payload, ids, now, nowText) =>
      var msg := ParseMessage(payload);
      AtReady(keys, st, now);
      if msg.Some? {
        HandleRefines(keys, At(st, now), MatchesFor(st, msg.value), msg.value, ids, nowText,
                      |MatchesFor(st, msg.value)|);
      }
    case Monitor(now) =>
      AtReady(keys, st, now);
      TickRefines(At(st, now));
    case Reload(_) =>
    case Restart(order) =>
      RestartRefines(keys, st, order);
  }

  lemma RestartKeys(keys: map<string, set<string>>, st: State, order: seq<string>)
    requires MapReady(keys, st) && Enumerates(order, st.redis.ids)
    ensures Abs(Load(st.redis, order)).Keys == Abs(st.table).Keys
  {
    hide Load, Core, NoTwins, Abs, KeyOf, Keyed;
    var t := Load(st.redis, order);
    KeyedRestart(keys, st, order);
    NoTwinsRestart(st, order);
    TableSize(st, order);
    AbsSize(t);
    AbsSize(st.table);
    AbsHolds(st.table);
    forall k | k in Abs(t) ensures k in Abs(st.table) {
      var j := KeyAt(t, k);
      var s :| s in st.table && KeyOf(s) == KeyOf(t[j]);
      var i :| 0 <= i < |st.table| && st.table[i] == s;
    }
    SubsetOfSameSize(Abs(t).Keys, Abs(st.table).Keys);
  }

  lemma RestartRefines(keys: map<string, set<string>>, st: State, order: seq<string>)
    requires MapReady(keys, st) && Enumerates(order, st.redis.ids)
    ensures Abs(Load(st.redis, order)).Keys == Abs(st.table).Keys
    ensures Abs(Load(st.redis, order)) == MapRestart(Abs(st.table), st.docs)
  {
    hide Load, Core, NoTwins, Abs, KeyOf, Keyed, LastLive;
    RestartKeys(keys, st, order);
    NoTwinsRestart(st, order);
    var t, m := Load(st.redis, order), Abs(st.table);
    AbsHolds(t);
    AbsHolds(st.table);
    forall k | k in m ensures LastLive(st.docs, m[k].id) == Some(Abs(t)[k]) {
      var j := KeyAt(t, k);
      var i := OriginalOf(st, order, j);
      KeysTell(t[j], st.table[i]);
      assert m[KeyOf(st.table[i])] == st.table[i] && Abs(t)[KeyOf(t[j])] == t[j];
    }
  }

  lemma {:induction false} SubsetOfSameSize<T>(a: set<T>, b: set<T>)
    requires a <= b && |a| == |b|
    ensures a == b
  {
    if x :| x in b && x !in a {
      assert a <= b - {x};
      SmallerOrEqual(a, b - {x});
    }
  }

  lemma {:induction false} SmallerOrEqual<T>(a: set<T>, b: set<T>)
    requires a <= b
    ensures |a| <= |b|
  {
    if x :| x in a {
      SmallerOrEqual(a - {x}, b - {x});
    }
  }

  lemma ReadyAtStart(keys: map<string, set<string>>, now: int)
    ensures MapReady(keys, Init(now))
  {
  }

  lemma AtReady(keys: map<string, set<string>>, st: State, now: int)
    requires MapReady(keys, st) && st.clock <= now
    ensures MapReady(keys, At(st, now))
  {
  }
}
