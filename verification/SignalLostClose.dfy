/** A close event that a restart forgets, as a run. */
module SignalLostClose {
  import opened Options
  import opened SignalTypes
  import opened SignalRedis
  import opened SignalSpec
  import opened SignalRuns
  import opened SignalInvariants
  import opened SignalHistory
  import opened SignalIdentity

  const LINK_RULE := Rule("link", "LINK", "LINK", "state", "down", "state", "up", "major", 5, 5, None)

  function LinkMessage(value: string): Message {
    Message("router", "LINK", "1", None, map["state" := Str(value)])
  }

  function LinkPayload(value: string): Json {
    Obj(map["mnemonic" := Str("LINK"), "device" := Str("router"), "eventId" := Str("1"),
            "tags" := Obj(map["state" := Str(value)])])
  }

  function LinkMatch(value: string): RuleMatch {
    RuleMatch(LINK_RULE, if value == "down" then MatchOpen else MatchClose)
  }

  lemma LinkIsRead(value: string)
    ensures ParseMessage(Some(LinkPayload(value))) == Some(LinkMessage(value))
  {
    var root := LinkPayload(value).fields;
    assert Get(root, "mnemonic") == Some(Str("LINK")) && Get(root, "device") == Some(Str("router"));
    assert Get(root, "eventId") == Some(Str("1")) && Get(root, "timestamp") == None;
    assert Get(root, "tags") == Some(Obj(map["state" := Str(value)]));
  }

  lemma LinkMatches(st: State, value: string)
    requires st.rules == [LINK_RULE] && value in {"down", "up"}
    ensures MatchesFor(st, LinkMessage(value)) == [LinkMatch(value)]
  {
    var tags := LinkMessage(value).tags;
    assert "down" != "up";
    assert st.rules[..0] == [] && st.rules[0] == LINK_RULE;
    assert Matches(st.rules[..0], "LINK", tags) == [];
    assert MatchesOf(LINK_RULE, "LINK", tags) == [LinkMatch(value)];
    assert Matches(st.rules, "LINK", tags)
        == Matches(st.rules[..0], "LINK", tags) + MatchesOf(LINK_RULE, "LINK", tags);
  }

  lemma ReceivesLink(st: State, value: string, id: string)
    requires st.rules == [LINK_RULE] && value in {"down", "up"} && FreshIds(st, [id])
    ensures var step := Receive(Some(LinkPayload(value)), [id], st.clock, "now");
      Enabled(st, step) && Next(st, step) == HandleMatch(st, LinkMatch(value), LinkMessage(value), id, "now")
  {
    hide Apply, Matches, ParseMessage, HandleMatch;
    LinkIsRead(value);
    LinkMatches(st, value);
    var ms := MatchesFor(st, LinkMessage(value));
    assert At(st, st.clock) == st;
    assert HandleUpTo(st, ms, LinkMessage(value), [id], "now", 0) == st;
  }

  lemma OpensThenCools(st: State, id1: string, id2: string)
    requires st.table == [] && |id1| == ID_MAX
    ensures var once := HandleMatch(st, LinkMatch("down"), LinkMessage("down"), id1, "now");
            var twice := HandleMatch(once, LinkMatch("up"), LinkMessage("up"), id2, "now");
            |twice.table| == 1 && twice.table[0].status == CoolDown && twice.table[0].id == id1
  {
    hide Encode, Affected;
    var once := HandleMatch(st, LinkMatch("down"), LinkMessage("down"), id1, "now");
    assert "down" != "up";
    var s := once.table[0];
    assert s.entities == map[] by { NothingAffected(LinkMessage("down").tags); }
    assert Finds(s, "router", "link", LinkMessage("up").tags);
    assert FindFirst(once.table, "router", "link", LinkMessage("up").tags) == 0;
    assert FindId(once.table, id1) == 0;
  }

  lemma NothingAffected(tags: Tags)
    ensures Affected(None, tags) == map[]
  {
  }

  /** Down, up, restart: the signal was cooling down and comes back as it was before the close event,
      while the index says coolDown. */
  lemma RestartForgetsClose()
    ensures exists r: Run, order: seq<string> ::
      && LegalRun(r) && RestartFree(r) && Enumerates(order, Final(r).redis.ids)
      && |Final(r).table| == 1 && Final(r).table[0].status == CoolDown
      && var back := Restarted(Final(r), order);
      && |back.table| == 1 && back.table[0].id == Final(r).table[0].id && Live(back.table[0].status)
      && OpenView(back.docs) != TableView(back.table)
  {
    hide Apply, HandleMatch, LegalRun, Final, Enabled, Next, Load, OpenView, TableView;
    var id1, id2 := seq(36, _ => 'a'), seq(36, _ => 'b');
    assert id1[0] != id2[0];
    var r0 := Run(0, []);
    StartsWithLink(r0);
    var r1 := Then(r0, Reload(Some([LINK_RULE])));
    var st := Final(r1);
    assert FreshIds(st, [id1]);
    ReceivesLink(st, "down", id1);
    var down := Receive(Some(LinkPayload("down")), [id1], 0, "now");
    var r2 := Then(r1, down);
    Extends(r1, down);
    var once := Final(r2);
    HandleMatchIds(st, LinkMatch("down"), LinkMessage("down"), id1, "now", id2);
    OnceKeeps(st, LinkMatch("down"), LinkMessage("down"), id1, "now");
    assert FreshIds(once, [id2]);
    ReceivesLink(once, "up", id2);
    var up := Receive(Some(LinkPayload("up")), [id2], 0, "now");
    var r3 := Then(r2, up);
    Extends(r2, up);
    OpensThenCools(st, id1, id2);
    assert LegalRun(r3) && RestartFree(r3);
    ComesBackLive(r3, id1);
  }

  lemma StartsWithLink(r: Run)
    requires r == Run(0, [])
    ensures LegalRun(Then(r, Reload(Some([LINK_RULE]))))
    ensures Final(Then(r, Reload(Some([LINK_RULE])))) == Init(0).(rules := [LINK_RULE])
  {
    Extends(r, Reload(Some([LINK_RULE])));
    LoadedAsStored([LINK_RULE]);
  }

  lemma ComesBackLive(r: Run, id: string)
    requires LegalRun(r) && RestartFree(r)
    requires |Final(r).table| == 1 && Final(r).table[0].status == CoolDown && Final(r).table[0].id == id
    ensures Enumerates([id], Final(r).redis.ids)
    ensures var back := Restarted(Final(r), [id]);
      && |back.table| == 1 && back.table[0].id == id && Live(back.table[0].status)
      && OpenView(back.docs) != TableView(back.table)
  {
    hide Load, Encode, Decode, Final, LegalRun, OpenView, TableView, LastLive, LastDoc, Sound, Backed;
    var st := Final(r);
    CoreHolds(r);
    assert st.table[0] in st.table;
    LoadedAll(st, [id]);
    BackingRecord(st, id);
    MirroredHolds(r);
    assert SaysCoolDown(st.docs, st.table[0].id);
    RestartKeepsMirror(r, [id]);
  }
}
