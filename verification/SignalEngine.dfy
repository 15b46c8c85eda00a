/** The engine as the program runs it: one fixed table updated in place, a bulk buffer in front of
    the document stream, and Redis. Every method is tied to the state machine of SignalSpec. */
module SignalEngine {
  import opened Options
  import opened SignalTypes
  import opened SignalRedis
  import opened SignalSpec

  /** A zeroed slot. */
  const BLANK := Signal("", "", "", "", WarmUp, "", "", 0, map[], [], [])

  const MAX_BULK_EVENTS := 1

  lemma NoneLeft()
    ensures WithoutClosed([]) == []
  {
  }

  lemma CompactionStep(t: seq<Signal>, i: nat)
    requires i < |t|
    ensures WithoutClosed(t[..i + 1])
            == WithoutClosed(t[..i]) + if t[i].status == Closed then [] else [t[i]]
  {
    assert t[..i + 1][..i] == t[..i];
  }

  class Engine {
    const active: array<Signal>
    var count: nat
    var rules: seq<Rule>
    var clock: int
    var redisIds: set<string>
    var redisRecords: map<string, Json>
    var bulk: seq<Signal>
    var bulkCount: nat
    var sent: seq<Signal>

    ghost predicate Valid()
      reads this
    {
      active.Length == MAX_SIGNALS && count <= MAX_SIGNALS && bulk == []
    }

    ghost function St(): State
      reads this, active
      requires Valid()
    {
      State(active[..count], sent, Redis(redisIds, redisRecords), rules, clock)
    }

    constructor (now: int)
      ensures Valid() && fresh(active)
      ensures St() == State([], [], EMPTY, [], now)
    {
      active := new Signal[MAX_SIGNALS](_ => BLANK);
      count, rules, clock := 0, [], now;
      redisIds, redisRecords := {}, map[];
      bulk, bulkCount, sent := [], 0, [];
    }

    // ---- Documents and Redis ----

    /** add_to_bulk_payload: with a threshold of one event, every document is sent at once. */
    method AddToBulkPayload(s: Signal)
      requires Valid()
      modifies this`bulk, this`bulkCount, this`sent
      ensures Valid()
      ensures sent == old(sent) + [s]
    {
      bulk := bulk + [s];
      bulkCount := bulkCount + 1;
      if bulkCount >= MAX_BULK_EVENTS {
        SendToOpensearch();
      }
    }

    method SendToOpensearch()
      modifies this`bulk, this`sent
      ensures sent == old(sent + bulk) && bulk == []
    {
      if |bulk| == 0 {
        return;
      }
      sent := sent + bulk;
      bulk := [];
    }

    method StoreSignalInRedis(s: Signal)
      modifies this`redisIds, this`redisRecords
      ensures Redis(redisIds, redisRecords) == Save(old(Redis(redisIds, redisRecords)), s)
    {
      redisRecords := redisRecords[s.id := Encode(s)];
      redisIds := redisIds + {s.id};
    }

    method DeleteSignalFromRedis(id: string)
      modifies this`redisIds, this`redisRecords
      ensures Redis(redisIds, redisRecords) == Delete(old(Redis(redisIds, redisRecords)), id)
    {
      redisRecords := redisRecords - {id};
      redisIds := redisIds - {id};
    }

    // ---- The monitor tick ----

    method OpenSignal(i: nat)
      requires Valid() && i < count
      modifies this, active
      ensures Valid() && St() == Apply(old(St()), Promote(i))
    {
      active[i] := active[i].(status := Open, changedAt := clock);
      StoreSignalInRedis(active[i]);
      AddToBulkPayload(active[i]);
      assert active[..count] == old(active[..count])[i := active[i]];
    }

    /** close_signal's shift: the slots behind entry i move down by one. */
    method ShiftDown(i: nat)
      requires i < count <= active.Length
      modifies active
      ensures active[..count - 1] == old(active[..i] + active[i + 1..count])
    {
      var j := i;
      while j < count - 1
        invariant i <= j <= count - 1
        invariant active[..i] == old(active[..i])
        invariant active[i..j] == old(active[i + 1..j + 1])
        invariant forall k | j < k < count :: active[k] == old(active[k])
      {
        active[j] := active[j + 1];
        j := j + 1;
      }
      assert active[..count - 1] == active[..i] + active[i..count - 1];
    }

    /** close_signal. */
    method RetireSignal(i: nat)
      requires Valid() && i < count
      modifies this, active
      ensures Valid() && St() == Apply(old(St()), Retire(i))
    {
      hide Delete;
      ghost var t := active[..count];
      active[i] := active[i].(status := Closed, changedAt := clock);
      AddToBulkPayload(active[i]);
      DeleteSignalFromRedis(active[i].id);
      assert active[..i] == t[..i] && active[i + 1..count] == t[i + 1..];
      ShiftDown(i);
      count := count - 1;
    }

    method FindRuleByName(name: string) returns (r: Option<Rule>)
      ensures r == RuleByName(rules, name)
    {
      var i := 0;
      while i < |rules|
        invariant 0 <= i <= |rules|
        invariant forall k | 0 <= k < i :: rules[k].name != name
      {
        if rules[i].name == name {
          return Some(rules[i]);
        }
        i := i + 1;
      }
      return None;
    }

    /** The body of the monitor loop; the index stays where a signal is removed under it. */
    method UpdateOne(i: nat) returns (next: nat)
      requires Valid() && i < count
      modifies this, active
      ensures Valid() && (St(), next) == UpdateAt(old(St()), i)
    {
      var rule := FindRuleByName(active[i].rule);
      if rule.None? {
        return i + 1;
      }
      if active[i].status == WarmUp && clock - active[i].changedAt >= rule.value.warmup {
        OpenSignal(i);
      } else if active[i].status == CoolDown && clock - active[i].changedAt >= rule.value.cooldown {
        RetireSignal(i);
        return i;
      }
      return i + 1;
    }

    /** The monitor loop. */
    method PromoteAndRetire()
      requires Valid()
      modifies this, active
      ensures Valid() && St() == Tick(old(St()))
    {
      hide TickTo, LeftOf, UpdateAt;
      ghost var start, k := St(), 0;
      TickStart(start);
      var i := 0;
      while i < count
        invariant Valid()
        invariant k <= |start.table| && St() == TickTo(start, k) && i == LeftOf(start, k)
        decreases |start.table| - k
      {
        TickSize(start, k);
        TickStep(start, k);
        i := UpdateOne(i);
        k := k + 1;
      }
      TickSize(start, k);
    }

    /** updateSignalStates. */
    method UpdateSignalStates()
      requires Valid()
      modifies this, active
      ensures Valid() && St() == Tick(old(St())).(table := WithoutClosed(Tick(old(St())).table))
    {
      PromoteAndRetire();
      RemoveClosedSignals();
    }

    /** removeClosedSignals: in-place compaction; a dropped slot is zeroed. */
    method RemoveClosedSignals()
      requires Valid()
      modifies this`count, active
      ensures Valid() && active[..count] == WithoutClosed(old(active[..count]))
    {
      hide WithoutClosed;
      ghost var t := active[..count];
      ghost var kept: seq<Signal> := [];
      var i, j := 0, 0;
      NoneLeft();
      while i < count
        invariant 0 <= j <= i <= count && count == |t|
        invariant kept == WithoutClosed(t[..i]) && |kept| == j
        invariant active[..j] == kept
        invariant active[i..count] == t[i..]
      {
        CompactionStep(t, i);
        assert active[i..count][0] == t[i..][0] && active[i + 1..count] == active[i..count][1..];
        if active[i].status != Closed {
          if i != j {
            active[j] := active[i];
          }
          j := j + 1;
          kept := kept + [t[i]];
        } else {
          active[i] := BLANK;
        }
        i := i + 1;
      }
      assert t[..count] == t;
      count := j;
    }

    // ---- Messages ----

    method FindActive(device: string, rule: string, tags: Tags) returns (i: nat)
      requires Valid()
      ensures i == FindFirst(active[..count], device, rule, tags)
    {
      i := 0;
      while i < count
        invariant i <= count
        invariant forall k | 0 <= k < i :: !Finds(active[k], device, rule, tags)
      {
        if Finds(active[i], device, rule, tags) {
          return;
        }
        i := i + 1;
      }
    }

    /** The entity loop of createSignal. */
    method AffectedEntities(affected: Option<Json>, tags: Tags) returns (entities: Tags)
      ensures entities == Affected(affected, tags)
    {
      entities := map[];
      if affected.Some? && affected.value.Arr? {
        var keys := affected.value.items;
        for i := 0 to |keys|
          invariant entities.Keys == set k | k in tags && Str(k) in keys[..i]
          invariant forall k | k in entities :: entities[k] == tags[k]
        {
          assert keys[..i + 1] == keys[..i] + [keys[i]];
          if keys[i].Str? && keys[i].s in tags {
            entities := entities[keys[i].s := tags[keys[i].s]];
          }
        }
        assert keys[..|keys|] == keys;
      }
    }

    method CreateSignal(rule: Rule, msg: Message, id: string, nowText: string)
      requires Valid()
      modifies this, active
      ensures Valid() && St() == SignalSpec.CreateSignal(old(St()), rule, msg, id, nowText)
    {
      hide Save, Affected;
      if count >= MAX_SIGNALS {
        return;
      }
      var entities := AffectedEntities(rule.affected, msg.tags);
      var startTime := nowText;
      if msg.timestamp.Some? && |msg.timestamp.value| > 0 {
        startTime := Trunc(msg.timestamp.value, TEXT_MAX);
      }
      active[count] := Signal(id, Trunc(msg.device, DEVICE_MAX), Trunc(rule.name, RULE_MAX),
                              Trunc(rule.severity, SEVERITY_MAX), WarmUp, startTime, "", clock, entities,
                              [Trunc(msg.mnemonic, TEXT_MAX)], [Trunc(msg.eventId, TEXT_MAX)]);
      AddToBulkPayload(active[count]);
      count := count + 1;
      StoreSignalInRedis(active[count - 1]);
    }

    /** closeSignal's assignments to the record it found. */
    method CoolSignal(i: nat, msg: Message, nowText: string)
      requires Valid() && i < count
      modifies this, active
      ensures Valid() && St() == Apply(old(St()), Cool(i, msg, nowText))
    {
      hide Trunc;
      ghost var t := active[..count];
      var events := active[i].events;
      if |events| < EVENTS_MAX {
        events := events + [Trunc(msg.eventId, TEXT_MAX)];
      }
      var endTime := nowText;
      if msg.timestamp.Some? && |msg.timestamp.value| > 0 {
        endTime := Trunc(msg.timestamp.value, TEXT_MAX);
      }
      active[i] := active[i].(events := events, endTime := endTime, status := CoolDown, changedAt := clock);
      AddToBulkPayload(active[i]);
      assert active[..count] == t[i := active[i]];
    }

    method CloseSignal(id: string, msg: Message, nowText: string)
      requires Valid()
      modifies this, active
      ensures Valid() && St() == SignalSpec.CloseSignal(old(St()), id, msg, nowText)
    {
      hide Apply;
      var i := 0;
      while i < count
        invariant i <= count
        invariant forall k | 0 <= k < i :: active[k].id != id
      {
        if active[i].id == id {
          assert FindId(St().table, id) == i;
          CoolSignal(i, msg, nowText);
          return;
        }
        i := i + 1;
      }
    }

    /** findSignalRule. */
    method FindSignalRule(mnemonic: string, tags: Tags) returns (ms: seq<RuleMatch>)
      ensures ms == Matches(rules, mnemonic, tags)
    {
      ms := [];
      for i := 0 to |rules|
        invariant ms == Matches(rules[..i], mnemonic, tags)
      {
        assert rules[..i + 1][..i] == rules[..i];
        if rules[i].openMnemonic == mnemonic && TagMatches(tags, rules[i].openTag, rules[i].openValue) {
          ms := ms + [RuleMatch(rules[i], MatchOpen)];
        }
        if rules[i].closeMnemonic == mnemonic && TagMatches(tags, rules[i].closeTag, rules[i].closeValue) {
          ms := ms + [RuleMatch(rules[i], MatchClose)];
        }
      }
      assert rules[..|rules|] == rules;
    }

    /** One entry of the match list. */
    method HandleOne(m: RuleMatch, msg: Message, id: string, nowText: string)
      requires Valid()
      modifies this, active
      ensures Valid() && St() == HandleMatch(old(St()), m, msg, id, nowText)
    {
      var j := FindActive(msg.device, m.rule.name, msg.tags);
      if m.kind == MatchOpen {
        if j >= count {
          CreateSignal(m.rule, msg, id, nowText);
        }
      } else if j < count {
        CloseSignal(active[j].id, msg, nowText);
      }
    }

    /** process_message, one payload: ids is the supply of fresh UUIDs. */
    method ProcessMessage(payload: Option<Json>, ids: seq<string>, nowText: string)
      requires Valid()
      requires var m := ParseMessage(payload); m.Some? ==> |MatchesFor(St(), m.value)| <= |ids|
      modifies this, active
      ensures Valid()
      ensures var m := ParseMessage(payload);
              St() == if m.None? then old(St()) else Handle(old(St()), m.value, ids, nowText)
    {
      hide HandleMatch, ParseMessage;
      var parsed := ParseMessage(payload);
      if parsed.None? {
        return;
      }
      var msg := parsed.value;
      ghost var start := St();
      var ms := FindSignalRule(msg.mnemonic, msg.tags);
      for k := 0 to |ms|
        invariant Valid() && St() == HandleUpTo(start, ms, msg, ids, nowText, k)
      {
        HandleOne(ms[k], msg, ids[k], nowText);
      }
    }

    // ---- Rules and restart ----

    /** load_signal_rules: the old rules go first; a failed query leaves none. */
    method LoadSignalRules(rows: Option<seq<Rule>>)
      requires Valid()
      modifies this`rules
      ensures Valid() && St() == old(St()).(rules := LoadedRules(rows))
    {
      hide CopyRow;
      rules := [];
      if rows.None? {
        return;
      }
      var i := 0;
      while i < |rows.value|
        invariant 0 <= i <= |rows.value|
        invariant |rules| == i && forall k | 0 <= k < i :: rules[k] == CopyRow(rows.value[k])
      {
        rules := rules + [CopyRow(rows.value[i])];
        i := i + 1;
      }
    }

    /** time(NULL), once a step. */
    method ReadClock(now: int)
      requires Valid()
      modifies this`clock
      ensures Valid() && St() == At(old(St()), now)
    {
      clock := now;
    }

    /** load_active_signals_from_redis, in the order SMEMBERS answers. */
    method LoadActiveSignals(order: seq<string>)
      requires Valid()
      modifies this`count, active
      ensures Valid() && St() == old(St()).(table := Load(old(St()).redis, order))
    {
      hide Decode;
      ghost var redis := St().redis;
      count := 0;
      var i := 0;
      while i < |order| && count < MAX_SIGNALS
        invariant i <= |order| && count <= MAX_SIGNALS
        invariant active[..count] == LoadUpTo(redis, order, i)
      {
        if order[i] in redisRecords {
          var s := Decode(redisRecords[order[i]]);
          if s.Some? {
            active[count] := s.value;
            count := count + 1;
          }
        }
        i := i + 1;
      }
      LoadStopsWhenFull(redis, order, i);
    }
  }

  lemma LoadStopsWhenFull(redis: Redis, order: seq<string>, i: nat)
    requires i <= |order| && (i == |order| || |LoadUpTo(redis, order, i)| == MAX_SIGNALS)
    ensures Load(redis, order) == LoadUpTo(redis, order, i)
    decreases |order| - i
  {
    if i < |order| {
      LoadStopsWhenFull(redis, order, i + 1);
    }
  }
}
