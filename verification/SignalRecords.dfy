/** The records an open and a close event leave, field by field. */
module SignalRecords {
  import opened Options
  import opened SignalTypes
  import opened SignalRedis
  import opened SignalSpec

  /** The front of a text, at most n characters. */
  function Front(s: string, n: nat): string {
    if |s| < n then s else s[..n]
  }

  lemma FrontIsTrunc(s: string, n: nat)
    ensures Front(s, n) == Trunc(s, n)
  {
  }

  /** When the event happened, by the message or else by the clock. */
  function When(msg: Message, nowText: string): string {
    match msg.timestamp
    case None => nowText
    case Some(t) => if t == "" then nowText else Front(t, 63)
  }

  /** An open event that finds no signal: the new record is last in the table, last in the stream, and
      stored; a table of 1000 refuses it. */
  lemma OpenEventCreates(st: State, rule: Rule, msg: Message, id: string, nowText: string)
    requires FindFirst(st.table, msg.device, rule.name, msg.tags) == |st.table|
    ensures var next := HandleMatch(st, RuleMatch(rule, MatchOpen), msg, id, nowText);
      if |st.table| >= 1000 then next == st
      else
        && |next.table| == |st.table| + 1 && next.table[..|st.table|] == st.table
        && var s := next.table[|st.table|];
        && next.docs == st.docs + [s]
        && s.id == id && s.id in next.redis.ids && Get(next.redis.records, s.id) == Some(Encode(s))
        && s.device == Front(msg.device, 127) && s.rule == Front(rule.name, 31)
        && s.severity == Front(rule.severity, 31)
        && s.status == WarmUp && s.changedAt == st.clock && s.endTime == "" && s.startTime == When(msg, nowText)
        && s.mnemonics == [Front(msg.mnemonic, 63)] && s.events == [Front(msg.eventId, 63)]
  {
    hide Encode, Affected, Front;
    FrontIsTrunc(msg.device, 127);
    FrontIsTrunc(rule.name, 31);
    FrontIsTrunc(rule.severity, 31);
    FrontIsTrunc(msg.mnemonic, 63);
    FrontIsTrunc(msg.eventId, 63);
    WhenIsStamp(msg, nowText);
  }

  lemma WhenIsStamp(msg: Message, nowText: string)
    ensures When(msg, nowText) == StampOr(msg.timestamp, nowText)
  {
    if msg.timestamp.Some? {
      FrontIsTrunc(msg.timestamp.value, 63);
    }
  }

  /** Its entities are the tags that the rule's list names, wherever in the list, with their values. */
  lemma EntitiesExactly(rule: Rule, msg: Message, id: string, now: int, nowText: string, k: string)
    ensures var e := NewSignal(rule, msg, id, now, nowText).entities;
      && (k in e <==>
            && k in msg.tags && rule.affected.Some? && rule.affected.value.Arr?
            && exists i | 0 <= i < |rule.affected.value.items| :: rule.affected.value.items[i] == Str(k))
      && (k in e ==> e[k] == msg.tags[k])
      && (rule.affected.None? || !rule.affected.value.Arr? ==> e == map[])
  {
    var e := NewSignal(rule, msg, id, now, nowText).entities;
    if rule.affected.None? || !rule.affected.value.Arr? {
      assert forall key :: key !in e;
    }
  }

  /** An open event that finds a signal changes nothing. */
  lemma OpenEventIgnored(st: State, rule: Rule, msg: Message, id: string, nowText: string)
    requires FindFirst(st.table, msg.device, rule.name, msg.tags) < |st.table|
    ensures HandleMatch(st, RuleMatch(rule, MatchOpen), msg, id, nowText) == st
  {
  }

  /** A close event: the signal found takes the event's id while it has fewer than 100, its end time
      and coolDown; nothing else of it changes, nor any other signal, nor Redis. Without a signal it
      does nothing. */
  lemma CloseEventCools(st: State, rule: Rule, msg: Message, id: string, nowText: string)
    requires forall i, j | 0 <= i < j < |st.table| :: st.table[i].id != st.table[j].id
    ensures var i := FindFirst(st.table, msg.device, rule.name, msg.tags);
      var next := HandleMatch(st, RuleMatch(rule, MatchClose), msg, id, nowText);
      if i == |st.table| then next == st
      else
        && |next.table| == |st.table| && next.redis == st.redis
        && (forall j | 0 <= j < |st.table| && j != i :: next.table[j] == st.table[j])
        && var s, c := st.table[i], next.table[i];
        && next.docs == st.docs + [c]
        && c.events == (if |s.events| < 100 then s.events + [Front(msg.eventId, 63)] else s.events)
        && c.status == CoolDown && c.changedAt == st.clock && c.endTime == When(msg, nowText)
        && c.id == s.id && c.device == s.device && c.rule == s.rule && c.severity == s.severity
        && c.startTime == s.startTime && c.entities == s.entities && c.mnemonics == s.mnemonics
  {
    hide Front;
    FrontIsTrunc(msg.eventId, 63);
    WhenIsStamp(msg, nowText);
    var i := FindFirst(st.table, msg.device, rule.name, msg.tags);
    if i < |st.table| {
      assert FindId(st.table, st.table[i].id) == i;
    }
  }

  /** Opening and retiring change the status and the time of it, and nothing else. */
  lemma TickChangesStatusOnly(s: Signal, now: int)
    ensures Opened(s, now).status == Open && Opened(s, now).changedAt == now
    ensures Opened(s, now).(status := s.status, changedAt := s.changedAt) == s
    ensures Retired(s, now).status == Closed && Retired(s, now).changedAt == now
    ensures Retired(s, now).(status := s.status, changedAt := s.changedAt) == s
  {
  }

  /** What a restart loads: the readable records of the ids listed, and nothing else, as far as 1000
      places go; and in the order of the ids. */
  lemma {:induction false} LoadsReadable(redis: Redis, order: seq<string>, k: nat, s: Signal)
    requires k <= |order| && k <= 1000
    ensures |LoadUpTo(redis, order, k)| <= k
    ensures s in LoadUpTo(redis, order, k)
            <==> exists i | 0 <= i < k :: order[i] in redis.records && Decode(redis.records[order[i]]) == Some(s)
    ensures k < |order| && k < 1000 ==>
              LoadUpTo(redis, order, k) <= LoadUpTo(redis, order, k + 1)
    decreases k
  {
    hide Decode;
    if k > 0 {
      LoadsReadable(redis, order, k - 1, s);
    }
  }

  /** Beyond 1000 signals nothing more is loaded. */
  lemma LoadIsBounded(redis: Redis, order: seq<string>)
    ensures |Load(redis, order)| <= 1000
  {
  }
}
