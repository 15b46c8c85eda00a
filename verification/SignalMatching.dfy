/** What a message means to the engine, field by field: which payloads it reads, which rules it matches
    and which signal it finds. */
module SignalMatching {
  import opened Options
  import opened SignalTypes
  import opened SignalSpec

  /** A payload is handled exactly when it is an object with three texts; a timestamp or tags of another
      type count as missing. */
  lemma ReadExactly(payload: Option<Json>)
    ensures ParseMessage(payload).Some?
            <==> payload.Some? && payload.value.Obj?
                 && forall key | key in ["mnemonic", "device", "eventId"] ::
                      key in payload.value.fields && payload.value.fields[key].Str?
    ensures ParseMessage(payload).Some? ==>
              var f, m := payload.value.fields, ParseMessage(payload).value;
              && f["mnemonic"] == Str(m.mnemonic) && f["device"] == Str(m.device) && f["eventId"] == Str(m.eventId)
              && (if "timestamp" in f && f["timestamp"].Str? then m.timestamp == Some(f["timestamp"].s)
                  else m.timestamp == None)
              && (if "tags" in f && f["tags"].Obj? then f["tags"] == Obj(m.tags) else m.tags == map[])
  {
    assert forall key | key in ["mnemonic", "device", "eventId"] ::
      key == "mnemonic" || key == "device" || key == "eventId";
    assert ["mnemonic", "device", "eventId"][0] == "mnemonic";
    assert ["mnemonic", "device", "eventId"][1] == "device";
    assert ["mnemonic", "device", "eventId"][2] == "eventId";
  }

  /** A rule opens on exactly its mnemonic with exactly its value, a string, under its tag; and closes
      likewise. */
  lemma MatchesExactly(rules: seq<Rule>, mnemonic: string, tags: Tags, r: Rule)
    ensures RuleMatch(r, MatchOpen) in Matches(rules, mnemonic, tags)
            <==> && r in rules && r.openMnemonic == mnemonic
                 && r.openTag in tags && tags[r.openTag] == Str(r.openValue)
    ensures RuleMatch(r, MatchClose) in Matches(rules, mnemonic, tags)
            <==> && r in rules && r.closeMnemonic == mnemonic
                 && r.closeTag in tags && tags[r.closeTag] == Str(r.closeValue)
  {
    hide Matches;
    assert IsMatch(rules, RuleMatch(r, MatchOpen), mnemonic, tags)
        <==> r in rules && OpensOn(r, mnemonic, tags);
  }

  /** A rule that matches both ways opens before it closes. */
  lemma OpensBeforeItCloses(front: seq<Rule>, r: Rule, back: seq<Rule>, mnemonic: string, tags: Tags)
    requires r.openMnemonic == mnemonic == r.closeMnemonic
    requires r.openTag in tags && tags[r.openTag] == Str(r.openValue)
    requires r.closeTag in tags && tags[r.closeTag] == Str(r.closeValue)
    ensures Matches(front + [r] + back, mnemonic, tags)
            == Matches(front, mnemonic, tags) + [RuleMatch(r, MatchOpen), RuleMatch(r, MatchClose)]
               + Matches(back, mnemonic, tags)
  {
    MatchesSplit(front + [r], back, mnemonic, tags);
    assert (front + [r])[..|front|] == front;
    assert Matches(front + [r], mnemonic, tags) == Matches(front, mnemonic, tags) + MatchesOf(r, mnemonic, tags);
  }

  /** The signal found is the first one of that device and rule whose every entity the tags carry with
      the same value. */
  lemma FoundExactly(t: seq<Signal>, device: string, rule: string, tags: Tags)
    ensures var i := FindFirst(t, device, rule, tags);
      && (i < |t| ==>
            && t[i].device == device && t[i].rule == rule
            && forall k | k in t[i].entities :: k in tags && tags[k] == t[i].entities[k])
      && (forall j | 0 <= j < i ::
            || t[j].device != device || t[j].rule != rule
            || exists k | k in t[j].entities :: k !in tags || tags[k] != t[j].entities[k])
  {
    var i := FindFirst(t, device, rule, tags);
    forall j | 0 <= j < i
      ensures || t[j].device != device || t[j].rule != rule
              || exists k | k in t[j].entities :: k !in tags || tags[k] != t[j].entities[k]
    {
      assert !Finds(t[j], device, rule, tags);
    }
  }
}
