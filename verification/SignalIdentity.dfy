/** One alarm, one signal: when the table never holds two signals for the same device, rule and
    entities. */
module SignalIdentity {
  import opened Options
  import opened SignalTypes
  import opened SignalRedis
  import opened SignalSpec
  import opened SignalRuns
  import opened SignalInvariants

  // ---- Names that fit ----

  /** The device and the rule name fit the arrays a signal keeps them in, so that a later lookup
      compares equal texts. */
  predicate NamesFit(msg: Message, rule: Rule) {
    |msg.device| <= 127 && |rule.name| <= 31
  }

  /** A signal just created from a message is what the same lookup finds exactly when the device
      and the rule name fit. */
  lemma NewSignalIsFound(st: State, c: Change)
    requires c.Add? && Legal(st, c)
    ensures var next := Apply(st, c).table;
            FindFirst(next, c.msg.device, c.rule.name, c.msg.tags)
            == if NamesFit(c.msg, c.rule) then |st.table| else |next|
  {
    hide Encode;
    var s := NewSignal(c.rule, c.msg, c.id, st.clock, c.nowText);
    assert Finds(s, c.msg.device, c.rule.name, c.msg.tags) <==> NamesFit(c.msg, c.rule);
    FindFirstAppend(st.table, s, c.msg.device, c.rule.name, c.msg.tags);
  }

  lemma FindFirstAppend(t: seq<Signal>, s: Signal, device: string, rule: string, tags: Tags)
    requires FindFirst(t, device, rule, tags) == |t|
    ensures FindFirst(t + [s], device, rule, tags)
            == if Finds(s, device, rule, tags) then |t| else |t| + 1
  {
    var u := t + [s];
    assert u[|t|] == s;
    assert forall i | 0 <= i < |t| :: u[i] == t[i];
  }

  /** Handling an open match a second time changes nothing exactly when the names fit; otherwise it
      adds a second signal for the same alarm. */
  lemma RepeatedOpenIsIgnored(st: State, m: RuleMatch, msg: Message, id1: string, id2: string, nowText: string)
    requires FreshIds(st, [id1, id2]) && IsTimeText(nowText) && |st.table| + 2 <= MAX_SIGNALS
    requires m.kind == MatchOpen && FindFirst(st.table, msg.device, m.rule.name, msg.tags) == |st.table|
    ensures var once := HandleMatch(st, m, msg, id1, nowText);
            var twice := HandleMatch(once, m, msg, id2, nowText);
            if NamesFit(msg, m.rule) then twice == once
            else |twice.table| == |st.table| + 2 && Twins(twice.table[|st.table|], twice.table[|st.table| + 1])
  {
    hide Encode;
    assert [id1, id2][0] == id1;
    NewSignalIsFound(st, Add(m.rule, msg, id1, nowText));
  }

  predicate Twins(a: Signal, b: Signal) {
    a.device == b.device && a.rule == b.rule && a.entities == b.entities
  }

  ghost predicate NoTwins(t: seq<Signal>) {
    forall i, j | 0 <= i < j < |t| :: !Twins(t[i], t[j])
  }

  /** Sharper, and it needs the order of creation: the older signal's entities are never part of the
      newer one's. */
  predicate Shadows(a: Signal, b: Signal) {
    a.device == b.device && a.rule == b.rule && SubsetMatch(a.entities, b.entities)
  }

  ghost predicate NoShadows(t: seq<Signal>) {
    forall i, j | 0 <= i < j < |t| :: !Shadows(t[i], t[j])
  }

  const LONG_RULE := Rule(seq(32, _ => 'r'), "LINK", "", "state", "down", "", "", "major", 5, 5, None)
  const DOWN := Message("router", "LINK", "1", None, map["state" := Str("down")])
  const DOWN_PAYLOAD := Obj(map["mnemonic" := Str("LINK"), "device" := Str("router"), "eventId" := Str("1"),
                                "tags" := Obj(map["state" := Str("down")])])

  lemma DownIsRead()
    ensures ParseMessage(Some(DOWN_PAYLOAD)) == Some(DOWN)
    ensures forall st: State | st.rules == [LONG_RULE] :: MatchesFor(st, DOWN) == [RuleMatch(LONG_RULE, MatchOpen)]
  {
    var root := DOWN_PAYLOAD.fields;
    assert Get(root, "mnemonic") == Some(Str("LINK")) && Get(root, "device") == Some(Str("router"));
    assert Get(root, "eventId") == Some(Str("1")) && Get(root, "timestamp") == None;
    assert Get(root, "tags") == Some(Obj(map["state" := Str("down")]));
    assert MatchesOf(LONG_RULE, "LINK", DOWN.tags) == [RuleMatch(LONG_RULE, MatchOpen)];
    forall st: State | st.rules == [LONG_RULE]
      ensures MatchesFor(st, DOWN) == [RuleMatch(LONG_RULE, MatchOpen)]
    {
      assert st.rules[..0] == [] && st.rules[0] == LONG_RULE;
      assert Matches(st.rules[..0], "LINK", DOWN.tags) == [];
      assert Matches(st.rules, "LINK", DOWN.tags)
          == Matches(st.rules[..0], "LINK", DOWN.tags) + MatchesOf(LONG_RULE, "LINK", DOWN.tags);
    }
  }

  lemma ReceivesDown(st: State, id: string)
    requires st.rules == [LONG_RULE] && FreshIds(st, [id])
    ensures Enabled(st, Receive(Some(DOWN_PAYLOAD), [id], st.clock, "now"))
    ensures Next(st, Receive(Some(DOWN_PAYLOAD), [id], st.clock, "now"))
            == HandleMatch(st, RuleMatch(LONG_RULE, MatchOpen), DOWN, id, "now")
  {
    hide Apply, Matches, ParseMessage;
    DownIsRead();
    var ms := MatchesFor(st, DOWN);
    assert At(st, st.clock) == st;
    assert HandleUpTo(st, ms, DOWN, [id], "now", 0) == st;
  }

  /** A rule name of 32 characters: a legal run without restarts in which the same open message,
      received twice, leaves two signals for one alarm. */
  lemma LongRuleNameDuplicates()
    ensures exists r: Run :: LegalRun(r) && RestartFree(r) && !NoTwins(Final(r).table)
  {
    hide Apply, HandleMatch, Twins, LegalRun, Final, NoTwins, Enabled, Next, MatchesFor, ParseMessage;
    var id1, id2 := seq(36, _ => 'a'), seq(36, _ => 'b');
    assert id1[0] != id2[0];
    var m := RuleMatch(LONG_RULE, MatchOpen);
    var r0 := Run(0, []);
    StartsWithRule(r0);
    var r1 := Then(r0, Reload(Some([LONG_RULE])));
    var st := Final(r1);
    assert FreshIds(st, [id1, id2]) && FreshIds(st, [id1]);
    ReceivesDown(st, id1);
    var r2 := Then(r1, Receive(Some(DOWN_PAYLOAD), [id1], 0, "now"));
    Extends(r1, Receive(Some(DOWN_PAYLOAD), [id1], 0, "now"));
    var once := Final(r2);
    HandleMatchIds(st, m, DOWN, id1, "now", id2);
    OnceKeeps(st, m, DOWN, id1, "now");
    assert FreshIds(once, [id2]);
    ReceivesDown(once, id2);
    var r3 := Then(r2, Receive(Some(DOWN_PAYLOAD), [id2], 0, "now"));
    Extends(r2, Receive(Some(DOWN_PAYLOAD), [id2], 0, "now"));
    RepeatedOpenIsIgnored(st, m, DOWN, id1, id2, "now");
    TwinsAtFront(Final(r3).table);
    assert LegalRun(r3) && RestartFree(r3);
  }

  lemma StartsWithRule(r: Run)
    requires r == Run(0, [])
    ensures LegalRun(Then(r, Reload(Some([LONG_RULE]))))
    ensures Final(Then(r, Reload(Some([LONG_RULE])))) == Init(0).(rules := [LONG_RULE])
  {
    Extends(r, Reload(Some([LONG_RULE])));
  }

  lemma TwinsAtFront(t: seq<Signal>)
    requires |t| == 2 && Twins(t[0], t[1])
    ensures !NoTwins(t)
  {
  }

  lemma OnceKeeps(st: State, m: RuleMatch, msg: Message, id: string, nowText: string)
    ensures var next := HandleMatch(st, m, msg, id, nowText);
            next.rules == st.rules && next.clock == st.clock
  {
  }

  // ---- No two signals for one alarm ----

  /** What a legal creation appends is shadowed by no signal already there. */
  lemma NewIsNotShadowed(st: State, c: Change, i: nat)
    requires c.Add? && Legal(st, c) && NamesFit(c.msg, c.rule) && i < |st.table|
    ensures !Shadows(st.table[i], DocOfAdd(st, c))
  {
    var s := DocOfAdd(st, c);
    assert SubsetMatch(s.entities, c.msg.tags);
    if Shadows(st.table[i], s) {
      forall k | k in st.table[i].entities
        ensures k in c.msg.tags && st.table[i].entities[k] == c.msg.tags[k]
      {
        assert k in s.entities;
      }
      assert Finds(st.table[i], c.msg.device, c.rule.name, c.msg.tags);
    }
  }

  function DocOfAdd(st: State, c: Change): Signal
    requires c.Add?
  {
    NewSignal(c.rule, c.msg, c.id, st.clock, c.nowText)
  }

  lemma TwinsShadow(a: Signal, b: Signal)
    ensures Twins(a, b) ==> Shadows(a, b)
  {
  }

  /** Cool and Promote leave device, rule and entities alone. */
  lemma SameAlarm(st: State, c: Change, k: nat)
    requires (c.Cool? || c.Promote?) && c.i < |st.table| && k < |st.table|
    ensures var t := Apply(st, c).table;
      |t| == |st.table| && Twins(t[k], st.table[k])
  {
    hide Encode;
  }

  lemma NoShadowsAfter(st: State, c: Change)
    requires NoShadows(st.table) && Legal(st, c) && (c.Add? ==> NamesFit(c.msg, c.rule))
    ensures NoShadows(Apply(st, c).table)
  {
    hide Encode, Shadows, NewSignal, Cooled, Opened, RuleByName;
    var t := Apply(st, c).table;
    forall i, j | 0 <= i < j < |t| ensures !Shadows(t[i], t[j]) {
      match c
      case Add(_, _, _, _) =>
        if j == |st.table| { NewIsNotShadowed(st, c, i); }
      case Cool(_, _, _) =>
        SameAlarm(st, c, i); SameAlarm(st, c, j); ShadowsOfTwins(st.table[i], st.table[j], t[i], t[j]);
      case Promote(_) =>
        SameAlarm(st, c, i); SameAlarm(st, c, j); ShadowsOfTwins(st.table[i], st.table[j], t[i], t[j]);
      case Retire(k) =>
        Removed(st.table, k);
    }
  }

  lemma ShadowsOfTwins(a: Signal, b: Signal, a': Signal, b': Signal)
    requires Twins(a', a) && Twins(b', b)
    ensures Shadows(a', b') <==> Shadows(a, b)
    ensures Twins(a', b') <==> Twins(a, b)
  {
  }

  lemma NoTwinsAfter(st: State, c: Change)
    requires NoTwins(st.table) && Legal(st, c) && (c.Add? ==> NamesFit(c.msg, c.rule))
    ensures NoTwins(Apply(st, c).table)
  {
    hide Encode, Shadows, Twins, NewSignal, Cooled, Opened, RuleByName;
    var t := Apply(st, c).table;
    forall i, j | 0 <= i < j < |t| ensures !Twins(t[i], t[j]) {
      match c
      case Add(_, _, _, _) =>
        if j == |st.table| { NewIsNotShadowed(st, c, i); TwinsShadow(t[i], t[j]); }
      case Cool(_, _, _) =>
        SameAlarm(st, c, i); SameAlarm(st, c, j); ShadowsOfTwins(st.table[i], st.table[j], t[i], t[j]);
      case Promote(_) =>
        SameAlarm(st, c, i); SameAlarm(st, c, j); ShadowsOfTwins(st.table[i], st.table[j], t[i], t[j]);
      case Retire(k) =>
        Removed(st.table, k);
    }
  }

  ghost predicate SingleCore(st: State) {
    Core(st) && NoTwins(st.table)
  }

  lemma EarlierIsTwin(b: Signal, s: Signal)
    requires Earlier(b, s)
    ensures Twins(b, s)
  {
  }

  lemma OriginalOf(st: State, order: seq<string>, j: nat) returns (i: nat)
    requires Core(st) && Enumerates(order, st.redis.ids) && j < |Load(st.redis, order)|
    ensures i < |st.table| && st.table[i].id == Load(st.redis, order)[j].id
    ensures Twins(Load(st.redis, order)[j], st.table[i])
    ensures LastLive(st.docs, st.table[i].id) == Some(Load(st.redis, order)[j])
  {
    hide Encode, Load, LastLive, Sound, Earlier, Twins, Ids;
    LoadedAll(st, order);
    BackingRecord(st, order[j]);
    i := AtId(st.table, order[j]);
    assert Backed(st.docs, st.redis, st.table[i]);
    EarlierIsTwin(LastLive(st.docs, order[j]).value, st.table[i]);
  }

  lemma NoTwinsRestart(st: State, order: seq<string>)
    requires SingleCore(st) && Enumerates(order, st.redis.ids)
    ensures NoTwins(Load(st.redis, order))
  {
    hide Load, Twins, Backed, Sound, Ids;
    LoadedAll(st, order);
    var t := Load(st.redis, order);
    forall i, j | 0 <= i < j < |t| ensures !Twins(t[i], t[j]) {
      var k := OriginalOf(st, order, i);
      var l := OriginalOf(st, order, j);
      assert k != l;
      ShadowsOfTwins(st.table[k], st.table[l], t[i], t[j]);
      TwinsSwap(st.table[k], st.table[l]);
    }
  }

  lemma TwinsSwap(a: Signal, b: Signal)
    ensures Twins(a, b) <==> Twins(b, a)
  {
  }

  lemma SingleIsInductive()
    ensures InductiveWhen(SingleCore, NamesFit) && SurvivesRestart(SingleCore)
  {
    hide Legal, Apply, Load, Core, NoTwins;
    CoreIsInductive();
    CoreSurvivesRestart();
    forall st: State, c: Change | SingleCore(st) && Legal(st, c) && (c.Add? ==> NamesFit(c.msg, c.rule))
      ensures SingleCore(Apply(st, c))
    {
      NoTwinsAfter(st, c);
    }
    forall st: State, order | SingleCore(st) && Enumerates(order, st.redis.ids)
      ensures SingleCore(Restarted(st, order))
    {
      NoTwinsRestart(st, order);
    }
  }

  lemma SingleAtStart(now: int)
    ensures SingleCore(Init(now)) && NoShadows(Init(now).table)
  {
  }

  /** Whatever the tags, and across rule reloads and restarts: as long as the devices and rule names
      met fit, no two active signals share device, rule and affected entities. */
  lemma OneSignalPerAlarm(r: Run)
    requires LegalRun(r) && AllMatches(r, NamesFit)
    ensures forall i, j | 0 <= i < j < |Final(r).table| :: !Twins(Final(r).table[i], Final(r).table[j])
  {
    hide Core, Twins;
    SingleIsInductive();
    SingleAtStart(r.start);
    RunKeepsWhen(SingleCore, NamesFit, r);
  }

  ghost predicate Unshadowed(st: State) {
    NoShadows(st.table)
  }

  /** Without restarts the table is in creation order, and an older signal's entities are never
      part of a newer one's for the same device and rule. */
  lemma OlderNeverShadowsNewer(r: Run)
    requires LegalRun(r) && RestartFree(r) && AllMatches(r, NamesFit)
    ensures forall i, j | 0 <= i < j < |Final(r).table| :: !Shadows(Final(r).table[i], Final(r).table[j])
  {
    hide Shadows, Legal, Apply;
    forall st: State, c: Change | Unshadowed(st) && Legal(st, c) && (c.Add? ==> NamesFit(c.msg, c.rule))
      ensures Unshadowed(Apply(st, c))
    {
      NoShadowsAfter(st, c);
    }
    SingleAtStart(r.start);
    RunKeepsWhen(Unshadowed, NamesFit, r);
  }
}
