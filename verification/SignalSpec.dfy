/**
  The signal engine as a state machine: what one message, one monitor tick, one rule reload and
  one restart do to the table of active signals, to the stream of emitted documents and to Redis.
  Each is one atomic step with one clock reading.
 */
module SignalSpec {
  import opened Options
  import opened Sequences
  import opened SignalTypes
  import opened SignalRedis

  /** `docs` lists every document sent to the search index, oldest first; a document carries the
      whole signal and is filed under its id. */
  datatype State = State(
    table: seq<Signal>,
    docs: seq<Signal>,
    redis: Redis,
    rules: seq<Rule>,
    clock: int)

  function At(st: State, now: int): State {
    st.(clock := now)
  }

  // ---- Matching ----

  /** json_subset_match. */
  predicate SubsetMatch(sub: Tags, full: Tags) {
    forall k | k in sub :: k in full && sub[k] == full[k]
  }

  /** findActiveSignals. */
  predicate Finds(s: Signal, device: string, rule: string, tags: Tags) {
    s.device == device && s.rule == rule && SubsetMatch(s.entities, tags)
  }

  /** The position of the first matching signal, |t| when there is none. */
  function FindFirst(t: seq<Signal>, device: string, rule: string, tags: Tags): (i: nat)
    ensures i <= |t|
    ensures forall j | 0 <= j < i :: !Finds(t[j], device, rule, tags)
    ensures i < |t| ==> Finds(t[i], device, rule, tags)
  {
    if t == [] || Finds(t[0], device, rule, tags) then 0
    else 1 + FindFirst(t[1..], device, rule, tags)
  }

  /** The position of the first signal with this id, |t| when there is none. */
  function FindId(t: seq<Signal>, id: string): (i: nat)
    ensures i <= |t|
    ensures forall j | 0 <= j < i :: t[j].id != id
    ensures i < |t| ==> t[i].id == id
  {
    if t == [] || t[0].id == id then 0 else 1 + FindId(t[1..], id)
  }

  predicate HasId(t: seq<Signal>, id: string): (b: bool)
    ensures b <==> exists i | 0 <= i < |t| :: t[i].id == id
  {
    FindId(t, id) < |t|
  }

  /** findRuleByName: the first rule of that name. */
  function RuleByName(rules: seq<Rule>, name: string): (r: Option<Rule>)
    ensures r.None? <==> forall i | 0 <= i < |rules| :: rules[i].name != name
    ensures r.Some? ==> exists i | 0 <= i < |rules| ::
              rules[i] == r.value && rules[i].name == name && forall j | 0 <= j < i :: rules[j].name != name
  {
    if rules == [] then None
    else if rules[0].name == name then Some(rules[0])
    else
      var r := RuleByName(rules[1..], name);
      assert r.Some? ==> exists i | 0 <= i < |rules| ::
        rules[i] == r.value && rules[i].name == name && forall j | 0 <= j < i :: rules[j].name != name
      by {
        if r.Some? {
          var i :| 0 <= i < |rules[1..]| && rules[1..][i] == r.value && rules[1..][i].name == name
                   && forall j | 0 <= j < i :: rules[1..][j].name != name;
          assert rules[i + 1] == r.value;
          assert forall j | 0 < j < i + 1 :: rules[j] == rules[1..][j - 1];
        }
      }
      assert forall i | 0 < i < |rules| :: rules[i] == rules[1..][i - 1];
      r
  }

  /** The message carries the tag, as a string, with the expected value. */
  predicate TagMatches(tags: Tags, tag: string, expected: string) {
    Text(Get(tags, tag)) == Some(expected)
  }

  predicate OpensOn(r: Rule, mnemonic: string, tags: Tags) {
    r.openMnemonic == mnemonic && TagMatches(tags, r.openTag, r.openValue)
  }

  predicate ClosesOn(r: Rule, mnemonic: string, tags: Tags) {
    r.closeMnemonic == mnemonic && TagMatches(tags, r.closeTag, r.closeValue)
  }

  /** What one rule adds to the match list: its open match before its close match. */
  function MatchesOf(r: Rule, mnemonic: string, tags: Tags): seq<RuleMatch> {
    (if OpensOn(r, mnemonic, tags) then [RuleMatch(r, MatchOpen)] else [])
    + (if ClosesOn(r, mnemonic, tags) then [RuleMatch(r, MatchClose)] else [])
  }

  /** The match is one the message makes with a rule in force. */
  predicate IsMatch(rules: seq<Rule>, m: RuleMatch, mnemonic: string, tags: Tags) {
    && m.rule in rules
    && match m.kind
       case MatchOpen => OpensOn(m.rule, mnemonic, tags)
       case MatchClose => ClosesOn(m.rule, mnemonic, tags)
  }

  lemma MatchAtEnd(front: seq<Rule>, r: Rule, m: RuleMatch, mnemonic: string, tags: Tags)
    ensures IsMatch(front + [r], m, mnemonic, tags)
            <==> IsMatch(front, m, mnemonic, tags) || m in MatchesOf(r, mnemonic, tags)
  {
    hide OpensOn, ClosesOn;
    assert m.rule in front + [r] <==> m.rule in front || m.rule == r;
  }

  lemma MatchesAtEnd(front: seq<Rule>, r: Rule, mnemonic: string, tags: Tags)
    ensures forall m :: IsMatch(front + [r], m, mnemonic, tags)
                        <==> IsMatch(front, m, mnemonic, tags) || m in MatchesOf(r, mnemonic, tags)
  {
    hide IsMatch, MatchesOf;
    forall m ensures IsMatch(front + [r], m, mnemonic, tags)
                     <==> IsMatch(front, m, mnemonic, tags) || m in MatchesOf(r, mnemonic, tags)
    {
      MatchAtEnd(front, r, m, mnemonic, tags);
    }
  }

  /** findSignalRule: all matches, in rule order. */
  function Matches(rules: seq<Rule>, mnemonic: string, tags: Tags): (ms: seq<RuleMatch>)
    ensures forall m :: m in ms <==> IsMatch(rules, m, mnemonic, tags)
  {
    if rules == [] then []
    else
      var front, r := rules[..|rules| - 1], rules[|rules| - 1];
      assert rules == front + [r];
      MatchesAtEnd(front, r, mnemonic, tags);
      Matches(front, mnemonic, tags) + MatchesOf(r, mnemonic, tags)
  }

  /** Rule order, each rule once for each place it has: the matches of a list of rules are those of
      its parts, one after the other. */
  lemma {:induction false} MatchesSplit(front: seq<Rule>, back: seq<Rule>, mnemonic: string, tags: Tags)
    ensures Matches(front + back, mnemonic, tags) == Matches(front, mnemonic, tags) + Matches(back, mnemonic, tags)
    decreases |back|
  {
    hide MatchesOf;
    if back == [] {
      assert front + back == front;
    } else {
      var mid, last := back[..|back| - 1], back[|back| - 1];
      assert (front + back)[..|front + back| - 1] == front + mid;
      MatchesSplit(front, mid, mnemonic, tags);
      Assoc(Matches(front, mnemonic, tags), Matches(mid, mnemonic, tags), MatchesOf(last, mnemonic, tags));
    }
  }

  // ---- The size of the match list ----

  function CountBoth(rules: seq<Rule>, mnemonic: string, tags: Tags): nat {
    if rules == [] then 0
    else
      var r := rules[|rules| - 1];
      CountBoth(rules[..|rules| - 1], mnemonic, tags)
      + if OpensOn(r, mnemonic, tags) && ClosesOn(r, mnemonic, tags) then 1 else 0
  }

  function CountNeither(rules: seq<Rule>, mnemonic: string, tags: Tags): nat {
    if rules == [] then 0
    else
      var r := rules[|rules| - 1];
      CountNeither(rules[..|rules| - 1], mnemonic, tags)
      + if !OpensOn(r, mnemonic, tags) && !ClosesOn(r, mnemonic, tags) then 1 else 0
  }

  lemma {:induction false} MatchCount(rules: seq<Rule>, mnemonic: string, tags: Tags)
    ensures |Matches(rules, mnemonic, tags)| + CountNeither(rules, mnemonic, tags)
            == |rules| + CountBoth(rules, mnemonic, tags)
    decreases |rules|
  {
    hide OpensOn, ClosesOn, IsMatch;
    if rules != [] {
      MatchCount(rules[..|rules| - 1], mnemonic, tags);
    }
  }

  /** The list is allocated for one match a rule: it is outgrown exactly when more rules match both
      ways than match neither way. */
  lemma MatchListOverflows(rules: seq<Rule>, mnemonic: string, tags: Tags)
    ensures |Matches(rules, mnemonic, tags)| > |rules|
            <==> CountBoth(rules, mnemonic, tags) > CountNeither(rules, mnemonic, tags)
  {
    hide Matches, CountBoth, CountNeither;
    MatchCount(rules, mnemonic, tags);
  }

  /** One rule that opens and closes on the same tag value has two matches in room for one. */
  lemma FlapOverflows()
    ensures var flap := Rule("flap", "LINK", "LINK", "state", "down", "state", "down", "major", 5, 5, None);
            FitsColumns(flap) && |Matches([flap], "LINK", map["state" := Str("down")])| == 2
  {
    var flap := Rule("flap", "LINK", "LINK", "state", "down", "state", "down", "major", 5, 5, None);
    var tags: Tags := map["state" := Str("down")];
    var none: seq<Rule> := [];
    assert [flap][..0] == none && OpensOn(flap, "LINK", tags) && ClosesOn(flap, "LINK", tags);
    assert CountBoth(none, "LINK", tags) == 0 && CountNeither(none, "LINK", tags) == 0;
    assert CountBoth([flap], "LINK", tags) == 1 && CountNeither([flap], "LINK", tags) == 0;
    MatchCount([flap], "LINK", tags);
  }

  // ---- Loading rules ----

  /** The longest text each char array of StatefulRule can hold. */
  const COLUMN_MAX := 255

  /** A row's texts copied into their arrays. */
  function CopyRow(row: Rule): Rule {
    row.(name := Trunc(row.name, COLUMN_MAX),
         openMnemonic := Trunc(row.openMnemonic, COLUMN_MAX),
         closeMnemonic := Trunc(row.closeMnemonic, COLUMN_MAX),
         openTag := Trunc(row.openTag, COLUMN_MAX),
         openValue := Trunc(row.openValue, COLUMN_MAX),
         closeTag := Trunc(row.closeTag, COLUMN_MAX),
         closeValue := Trunc(row.closeValue, COLUMN_MAX),
         severity := Trunc(row.severity, COLUMN_MAX))
  }

  predicate FitsColumns(row: Rule) {
    && |row.name| <= 255 && |row.openMnemonic| <= 255 && |row.closeMnemonic| <= 255
    && |row.openTag| <= 255 && |row.openValue| <= 255
    && |row.closeTag| <= 255 && |row.closeValue| <= 255 && |row.severity| <= 255
  }

  /** The rules after a query: none when it failed. */
  function LoadedRules(rows: Option<seq<Rule>>): seq<Rule> {
    if rows.None? then [] else seq(|rows.value|, i requires 0 <= i < |rows.value| => CopyRow(rows.value[i]))
  }

  /** The rules in force are the rows exactly when every text fits its array. */
  lemma LoadedAsStored(rows: seq<Rule>)
    ensures LoadedRules(None) == []
    ensures LoadedRules(Some(rows)) == rows <==> forall row | row in rows :: FitsColumns(row)
  {
    hide Trunc;
    var loaded := LoadedRules(Some(rows));
    forall i | 0 <= i < |rows| ensures loaded[i] == rows[i] <==> FitsColumns(rows[i]) {
      CopiedAsStored(rows[i]);
    }
    if loaded == rows {
      forall row | row in rows ensures FitsColumns(row) {
        var i :| 0 <= i < |rows| && rows[i] == row;
        assert loaded[i] == rows[i];
      }
    } else {
      var i :| 0 <= i < |rows| && loaded[i] != rows[i];
      assert rows[i] in rows;
    }
  }

  lemma CopiedAsStored(row: Rule)
    ensures CopyRow(row) == row <==> FitsColumns(row)
  {
  }

  // ---- Signals ----

  /** The tags a rule's affected-entity list names, as far as the message carries them. A list that
      does not parse, or is no array, names none; items that are no strings are passed over. */
  predicate NamesKey(affected: Option<Json>, key: string) {
    affected.Some? && affected.value.Arr? && Str(key) in affected.value.items
  }

  function Affected(affected: Option<Json>, tags: Tags): Tags {
    map k | k in tags && NamesKey(affected, k) :: tags[k]
  }

  function StampOr(timestamp: Option<string>, nowText: string): string {
    if timestamp.Some? && |timestamp.value| > 0 then Trunc(timestamp.value, TEXT_MAX) else nowText
  }

  /** createSignal's record. */
  function NewSignal(rule: Rule, msg: Message, id: string, now: int, nowText: string): Signal {
    Signal(id, Trunc(msg.device, DEVICE_MAX), Trunc(rule.name, RULE_MAX),
           Trunc(rule.severity, SEVERITY_MAX), WarmUp, StampOr(msg.timestamp, nowText), "", now,
           Affected(rule.affected, msg.tags), [Trunc(msg.mnemonic, TEXT_MAX)],
           [Trunc(msg.eventId, TEXT_MAX)])
  }

  /** closeSignal's change to the record. */
  function Cooled(s: Signal, msg: Message, now: int, nowText: string): Signal {
    s.(events := if |s.events| < EVENTS_MAX then s.events + [Trunc(msg.eventId, TEXT_MAX)] else s.events,
       endTime := StampOr(msg.timestamp, nowText),
       status := CoolDown,
       changedAt := now)
  }

  function Opened(s: Signal, now: int): Signal {
    s.(status := Open, changedAt := now)
  }

  function Retired(s: Signal, now: int): Signal {
    s.(status := Closed, changedAt := now)
  }

  // ---- Changes: the four ways a step touches the table ----

  datatype Change =
    | Add(rule: Rule, msg: Message, id: string, nowText: string)
    | Cool(i: nat, msg: Message, nowText: string)
    | Promote(i: nat)
    | Retire(i: nat)

  /** strftime of the current second: never empty, and it fits. */
  predicate IsTimeText(nowText: string) {
    1 <= |nowText| <= TEXT_MAX
  }

  predicate Legal(st: State, c: Change): (b: bool)
    ensures b && !c.Add? ==> c.i < |st.table|
  {
    match c
    case Add(rule, msg, id, nowText) =>
      && |st.table| < MAX_SIGNALS
      && |id| == ID_MAX
      && !HasId(st.table, id)
      && !HasId(st.docs, id)
      && IsTimeText(nowText)
      && FindFirst(st.table, msg.device, rule.name, msg.tags) == |st.table|
    case Cool(i, _, nowText) => i < |st.table| && IsTimeText(nowText)
    case Promote(i) =>
      && i < |st.table|
      && st.table[i].status == WarmUp
      && var r := RuleByName(st.rules, st.table[i].rule);
         r.Some? && st.clock - st.table[i].changedAt >= r.value.warmup
    case Retire(i) =>
      && i < |st.table|
      && st.table[i].status == CoolDown
      && var r := RuleByName(st.rules, st.table[i].rule);
         r.Some? && st.clock - st.table[i].changedAt >= r.value.cooldown
  }

  /** Creation and opening also write Redis, removal deletes from it; a close event does neither. */
  function Apply(st: State, c: Change): State
    requires !c.Add? ==> c.i < |st.table|
  {
    match c
    case Add(rule, msg, id, nowText) =>
      var s := NewSignal(rule, msg, id, st.clock, nowText);
      st.(table := st.table + [s], docs := st.docs + [s], redis := Save(st.redis, s))
    case Cool(i, msg, nowText) =>
      var s := Cooled(st.table[i], msg, st.clock, nowText);
      st.(table := st.table[i := s], docs := st.docs + [s])
    case Promote(i) =>
      var s := Opened(st.table[i], st.clock);
      st.(table := st.table[i := s], docs := st.docs + [s], redis := Save(st.redis, s))
    case Retire(i) =>
      var s := Retired(st.table[i], st.clock);
      st.(table := st.table[..i] + st.table[i + 1..], docs := st.docs + [s], redis := Delete(st.redis, s.id))
  }

  // ---- Message handling ----

  /** process_message's reading of a payload: None when it is skipped. */
  function ParseMessage(payload: Option<Json>): Option<Message> {
    if payload.None? then None else
    var root := if payload.value.Obj? then payload.value.fields else map[];
    var mnemonic := Text(Get(root, "mnemonic"));
    var device := Text(Get(root, "device"));
    var eventId := Text(Get(root, "eventId"));
    var tags := Get(root, "tags");
    if mnemonic.None? || device.None? || eventId.None? then None
    else Some(Message(device.value, mnemonic.value, eventId.value, Text(Get(root, "timestamp")),
                      if tags.Some? && tags.value.Obj? then tags.value.fields else map[]))
  }

  /** createSignal, which refuses when the table is full. */
  function CreateSignal(st: State, rule: Rule, msg: Message, id: string, nowText: string): State {
    if |st.table| >= MAX_SIGNALS then st else Apply(st, Add(rule, msg, id, nowText))
  }

  /** closeSignal, which looks its signal up again by id. */
  function CloseSignal(st: State, id: string, msg: Message, nowText: string): State {
    var i := FindId(st.table, id);
    if i < |st.table| then Apply(st, Cool(i, msg, nowText)) else st
  }

  /** One entry of the match list. An open match on a signal that exists does nothing, whatever
      its status; so does a close match on none. */
  function HandleMatch(st: State, m: RuleMatch, msg: Message, id: string, nowText: string): State {
    var i := FindFirst(st.table, msg.device, m.rule.name, msg.tags);
    match m.kind
    case MatchOpen => if i < |st.table| then st else CreateSignal(st, m.rule, msg, id, nowText)
    case MatchClose => if i < |st.table| then CloseSignal(st, st.table[i].id, msg, nowText) else st
  }

  /** The first k matches, in order; ids[k] is the fresh id kept for match k. */
  function HandleUpTo(st: State, ms: seq<RuleMatch>, msg: Message, ids: seq<string>, nowText: string, k: nat): State
    requires k <= |ms| <= |ids|
  {
    if k == 0 then st
    else HandleMatch(HandleUpTo(st, ms, msg, ids, nowText, k - 1), ms[k - 1], msg, ids[k - 1], nowText)
  }

  function MatchesFor(st: State, msg: Message): seq<RuleMatch> {
    Matches(st.rules, msg.mnemonic, msg.tags)
  }

  function Handle(st: State, msg: Message, ids: seq<string>, nowText: string): State
    requires |MatchesFor(st, msg)| <= |ids|
  {
    var ms := MatchesFor(st, msg);
    HandleUpTo(st, ms, msg, ids, nowText, |ms|)
  }

  // ---- The monitor tick ----

  datatype Fate = Kept | Promoted | Dropped

  /** What a tick does with one signal; a signal whose rule is gone is left alone. */
  function FateOf(s: Signal, rules: seq<Rule>, now: int): Fate {
    var r := RuleByName(rules, s.rule);
    if r.None? then Kept
    else if s.status == WarmUp && now - s.changedAt >= r.value.warmup then Promoted
    else if s.status == CoolDown && now - s.changedAt >= r.value.cooldown then Dropped
    else Kept
  }

  /** One order-preserving pass over the table. */
  function Pass(t: seq<Signal>, rules: seq<Rule>, now: int): seq<Signal> {
    if t == [] then []
    else
      var s := t[|t| - 1];
      Pass(t[..|t| - 1], rules, now)
      + (match FateOf(s, rules, now)
         case Kept => [s]
         case Promoted => [Opened(s, now)]
         case Dropped => [])
  }

  /** The documents the pass emits, in table order. */
  function PassDocs(t: seq<Signal>, rules: seq<Rule>, now: int): seq<Signal> {
    if t == [] then []
    else
      var s := t[|t| - 1];
      PassDocs(t[..|t| - 1], rules, now)
      + (match FateOf(s, rules, now)
         case Kept => []
         case Promoted => [Opened(s, now)]
         case Dropped => [Retired(s, now)])
  }

  function PassRedis(redis: Redis, t: seq<Signal>, rules: seq<Rule>, now: int): Redis {
    if t == [] then redis
    else
      var s := t[|t| - 1];
      var before := PassRedis(redis, t[..|t| - 1], rules, now);
      match FateOf(s, rules, now)
      case Kept => before
      case Promoted => Save(before, Opened(s, now))
      case Dropped => Delete(before, s.id)
  }

  /** The pass over the first k signals, the rest of the table untouched. */
  function TickTo(st: State, k: nat): State
    requires k <= |st.table|
  {
    var t := st.table[..k];
    st.(table := Pass(t, st.rules, st.clock) + st.table[k..],
        docs := st.docs + PassDocs(t, st.rules, st.clock),
        redis := PassRedis(st.redis, t, st.rules, st.clock))
  }

  /** updateSignalStates. */
  function Tick(st: State): State {
    TickTo(st, |st.table|)
  }

  /** How many signals are left of the first k. */
  ghost function LeftOf(st: State, k: nat): nat
    requires k <= |st.table|
  {
    |Pass(st.table[..k], st.rules, st.clock)|
  }

  lemma TickSize(st: State, k: nat)
    requires k <= |st.table|
    ensures |TickTo(st, k).table| - LeftOf(st, k) == |st.table| - k
  {
  }

  lemma TickStart(st: State)
    ensures TickTo(st, 0) == st && LeftOf(st, 0) == 0
  {
    assert st.table[..0] == [] && st.table[0..] == st.table;
  }

  /** The monitor loop's body at index i: the new state and the next index. */
  function UpdateAt(st: State, i: nat): (State, nat)
    requires i < |st.table|
  {
    match FateOf(st.table[i], st.rules, st.clock)
    case Kept => (st, i + 1)
    case Promoted => (Apply(st, Promote(i)), i + 1)
    case Dropped => (Apply(st, Retire(i)), i)
  }

  /** One signal of the old table, met at position LeftOf(st, k) of the current one. */
  lemma TickStep(st: State, k: nat)
    requires k < |st.table|
    ensures LeftOf(st, k) < |TickTo(st, k).table|
    ensures TickTo(st, k).table[LeftOf(st, k)] == st.table[k]
    ensures UpdateAt(TickTo(st, k), LeftOf(st, k)) == (TickTo(st, k + 1), LeftOf(st, k + 1))
  {
    hide Save, Delete, RuleByName;
    var t, s := st.table, st.table[k];
    var p, rest := Pass(t[..k], st.rules, st.clock), t[k + 1..];
    assert t[..k + 1][..k] == t[..k];
    assert TickTo(st, k).table == p + [s] + rest;
    Spliced(p, s, rest, Opened(s, st.clock));
    SeqFacts(st.docs, PassDocs(t[..k], st.rules, st.clock), Opened(s, st.clock));
    SeqFacts(st.docs, PassDocs(t[..k], st.rules, st.clock), Retired(s, st.clock));
  }

  lemma Spliced(p: seq<Signal>, s: Signal, rest: seq<Signal>, o: Signal)
    ensures var t := p + [s] + rest;
      && t[|p|] == s
      && t[|p| := o] == p + [o] + rest
      && t[..|p|] + t[|p| + 1..] == p + rest
      && p + [] + rest == p + rest
  {
    var t := p + [s] + rest;
    assert t[..|p|] == p && t[|p| + 1..] == rest;
  }

  lemma SeqFacts(a: seq<Signal>, b: seq<Signal>, d: Signal)
    ensures a + (b + [d]) == a + b + [d]
    ensures a + (b + []) == a + b
  {
  }

  /** removeClosedSignals. */
  function WithoutClosed(t: seq<Signal>): seq<Signal> {
    if t == [] then []
    else
      WithoutClosed(t[..|t| - 1]) + if t[|t| - 1].status == Closed then [] else [t[|t| - 1]]
  }

  // ---- Restart ----

  /** The loader's table after the first k ids; an id with no readable record is passed over. */
  function LoadUpTo(redis: Redis, order: seq<string>, k: nat): (t: seq<Signal>)
    requires k <= |order|
    ensures |t| <= k && |t| <= MAX_SIGNALS
  {
    if k == 0 then [] else
    var t := LoadUpTo(redis, order, k - 1);
    if |t| >= MAX_SIGNALS then t else
    var record := Get(redis.records, order[k - 1]);
    var s := if record.None? then None else Decode(record.value);
    if s.None? then t else t + [s.value]
  }

  function Load(redis: Redis, order: seq<string>): seq<Signal> {
    LoadUpTo(redis, order, |order|)
  }

  /** SMEMBERS answers with every member once, in any order. */
  predicate Enumerates(order: seq<string>, ids: set<string>) {
    && (forall i | 0 <= i < |order| :: order[i] in ids)
    && (forall id | id in ids :: id in order)
    && (forall i, j | 0 <= i < j < |order| :: order[i] != order[j])
  }
}
