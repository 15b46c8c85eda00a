/** Redis as a perfect key-value store, and the record a signal is stored as. */
module SignalRedis {
  import opened Options
  import opened SignalTypes

  /** The set active_signals, and the texts under the keys signals:syslogs:<id>. */
  datatype Redis = Redis(ids: set<string>, records: map<string, Json>)

  const EMPTY := Redis({}, map[])

  function Save(r: Redis, s: Signal): Redis {
    Redis(r.ids + {s.id}, r.records[s.id := Encode(s)])
  }

  function Delete(r: Redis, id: string): Redis {
    Redis(r.ids - {id}, r.records - {id})
  }

  function StatusText(status: Status): string {
    match status
    case WarmUp => "warmUp"
    case Open => "open"
    case CoolDown => "coolDown"
    case Closed => "closed"
  }

  function ParseStatus(text: string): Option<Status> {
    if text == "warmUp" then Some(WarmUp)
    else if text == "open" then Some(Open)
    else if text == "coolDown" then Some(CoolDown)
    else if text == "closed" then Some(Closed)
    else None
  }

  function Texts(items: seq<string>): seq<Json> {
    seq(|items|, i requires 0 <= i < |items| => Str(items[i]))
  }

  /** The JSON object that store_signal_in_redis writes. */
  function Encode(s: Signal): Json {
    Obj(map[
      "signalId" := Str(s.id),
      "device" := Str(s.device),
      "rule" := Str(s.rule),
      "severity" := Str(s.severity),
      "status" := Str(StatusText(s.status)),
      "startTime" := Str(s.startTime),
      "endTime" := Str(s.endTime),
      "status_changed_at" := Int(s.changedAt),
      "affectedEntities" := Obj(s.entities),
      "mnemonics" := Arr(Texts(s.mnemonics)),
      "events" := Arr(Texts(s.events))])
  }

  /** A text member of a stored record, copied into an array of n + 1 chars. */
  function TextField(fields: map<string, Json>, key: string, n: nat): Option<string> {
    match Text(Get(fields, key))
    case None => None
    case Some(s) => Some(Trunc(s, n))
  }

  /** The first `most` items of a JSON array; an item that is no string leaves its slot blank. */
  function TextItems(j: Option<Json>, most: nat, n: nat): seq<string> {
    if j.Some? && j.value.Arr? then
      var items := j.value.items;
      seq(if |items| <= most then |items| else most,
          i requires 0 <= i < |items| => if items[i].Str? then Trunc(items[i].s, n) else "")
    else []
  }

  /** What the loader reads back from one stored text; None where a member it needs is missing. */
  function Decode(j: Json): Option<Signal> {
    if !j.Obj? then None else
    var f := j.fields;
    var id := TextField(f, "signalId", ID_MAX);
    var device := TextField(f, "device", DEVICE_MAX);
    var rule := TextField(f, "rule", RULE_MAX);
    var severity := TextField(f, "severity", SEVERITY_MAX);
    var statusText := TextField(f, "status", SEVERITY_MAX);
    var startTime := TextField(f, "startTime", TEXT_MAX);
    var endTime := TextField(f, "endTime", TEXT_MAX);
    var entities := Get(f, "affectedEntities");
    var changed := Get(f, "status_changed_at");
    if id.None? || device.None? || rule.None? || severity.None? || statusText.None?
       || startTime.None? || endTime.None? || entities.None? || !entities.value.Obj? then None
    else
      match ParseStatus(statusText.value)
      case None => None
      case Some(status) =>
        Some(Signal(id.value, device.value, rule.value, severity.value, status,
                    startTime.value, endTime.value,
                    if changed.Some? && changed.value.Int? then changed.value.n else 0,
                    entities.value.fields,
                    TextItems(Get(f, "mnemonics"), MNEMONICS_MAX, TEXT_MAX),
                    TextItems(Get(f, "events"), EVENTS_MAX, TEXT_MAX)))
  }

  /** The eleven member names are distinct, so each member can be read back. */
  lemma Members(s: Signal)
    ensures Encode(s).Obj?
    ensures var f := Encode(s).fields;
      && Get(f, "signalId") == Some(Str(s.id))
      && Get(f, "device") == Some(Str(s.device))
      && Get(f, "rule") == Some(Str(s.rule))
      && Get(f, "severity") == Some(Str(s.severity))
      && Get(f, "status") == Some(Str(StatusText(s.status)))
      && Get(f, "startTime") == Some(Str(s.startTime))
      && Get(f, "endTime") == Some(Str(s.endTime))
      && Get(f, "status_changed_at") == Some(Int(s.changedAt))
      && Get(f, "affectedEntities") == Some(Obj(s.entities))
      && Get(f, "mnemonics") == Some(Arr(Texts(s.mnemonics)))
      && Get(f, "events") == Some(Arr(Texts(s.events)))
  {
  }

  lemma TextsRoundTrip(items: seq<string>, most: nat)
    ensures TextItems(Some(Arr(Texts(items))), most, TEXT_MAX) == items
            <==> |items| <= most && forall i | 0 <= i < |items| :: |items[i]| <= TEXT_MAX
  {
    var back := TextItems(Some(Arr(Texts(items))), most, TEXT_MAX);
    if back == items {
      forall i | 0 <= i < |items| ensures |items[i]| <= TEXT_MAX {
        assert back[i] == Trunc(items[i], TEXT_MAX);
      }
    }
  }

  /** What loading makes of a stored signal: every text and list cut to its array. */
  function Cut(s: Signal): Signal {
    Signal(Trunc(s.id, ID_MAX), Trunc(s.device, DEVICE_MAX), Trunc(s.rule, RULE_MAX), Trunc(s.severity, SEVERITY_MAX),
           s.status, Trunc(s.startTime, TEXT_MAX), Trunc(s.endTime, TEXT_MAX), s.changedAt, s.entities,
           TextItems(Some(Arr(Texts(s.mnemonics))), MNEMONICS_MAX, TEXT_MAX),
           TextItems(Some(Arr(Texts(s.events))), EVENTS_MAX, TEXT_MAX))
  }

  lemma LoadCuts(s: Signal)
    ensures Decode(Encode(s)) == Some(Cut(s))
  {
    hide Encode, Texts, TextItems, Trunc;
    Members(s);
    StatusReadsBack(s.status);
  }

  lemma StatusReadsBack(status: Status)
    ensures Trunc(StatusText(status), SEVERITY_MAX) == StatusText(status)
    ensures ParseStatus(StatusText(status)) == Some(status)
  {
  }

  lemma CutIsSame(s: Signal)
    ensures Cut(s) == s <==> Fits(s)
  {
    hide Texts, TextItems;
    TextsRoundTrip(s.mnemonics, MNEMONICS_MAX);
    TextsRoundTrip(s.events, EVENTS_MAX);
  }

  /** Loading gives back the stored signal exactly when all its texts fit their arrays. */
  lemma LoadUndoesStore(s: Signal)
    ensures Decode(Encode(s)) == Some(s) <==> Fits(s)
  {
    hide Encode, Decode, Cut, Fits;
    LoadCuts(s);
    CutIsSame(s);
  }

  // ---- Records as they stand in Redis ----

  /** The status of a stored record, by name. */
  lemma StoredStatus(s: Signal)
    ensures Get(Encode(s).fields, "status")
            == Some(Str(match s.status
                        case WarmUp => "warmUp"
                        case Open => "open"
                        case CoolDown => "coolDown"
                        case Closed => "closed"))
  {
    hide Encode;
    Members(s);
  }

  const LOADED_TEXTS := ["signalId", "device", "rule", "severity", "status", "startTime", "endTime"]

  /** The loader reads exactly the objects that have seven texts, one of the four statuses, and an object
      of entities; a time that is no number reads as zero, a list that is no array as empty. */
  lemma LoadsExactly(j: Json)
    ensures Decode(j).Some?
            <==> && j.Obj?
                 && (forall i | 0 <= i < |LOADED_TEXTS| :: Text(Get(j.fields, LOADED_TEXTS[i])).Some?)
                 && Text(Get(j.fields, "status")) in
                      {Some("warmUp"), Some("open"), Some("coolDown"), Some("closed")}
                 && "affectedEntities" in j.fields && j.fields["affectedEntities"].Obj?
    ensures Decode(j).Some? ==>
              var f, s := j.fields, Decode(j).value;
              && s.changedAt == (if "status_changed_at" in f && f["status_changed_at"].Int?
                                 then f["status_changed_at"].n else 0)
              && f["affectedEntities"] == Obj(s.entities)
              && ("mnemonics" !in f || !f["mnemonics"].Arr? ==> s.mnemonics == [])
              && ("events" !in f || !f["events"].Arr? ==> s.events == [])
              && s.id <= f["signalId"].s && s.device <= f["device"].s && s.rule <= f["rule"].s
              && s.severity <= f["severity"].s && s.startTime <= f["startTime"].s && s.endTime <= f["endTime"].s
  {
    if j.Obj? {
      LoadedTexts(j.fields);
    }
  }

  lemma LoadedTexts(f: map<string, Json>)
    ensures (forall i | 0 <= i < |LOADED_TEXTS| :: Text(Get(f, LOADED_TEXTS[i])).Some?)
            <==> Text(Get(f, "signalId")).Some? && Text(Get(f, "device")).Some? && Text(Get(f, "rule")).Some?
                 && Text(Get(f, "severity")).Some? && Text(Get(f, "status")).Some?
                 && Text(Get(f, "startTime")).Some? && Text(Get(f, "endTime")).Some?
  {
    hide Text, Get;
    assert LOADED_TEXTS[0] == "signalId" && LOADED_TEXTS[1] == "device" && LOADED_TEXTS[2] == "rule";
    assert LOADED_TEXTS[3] == "severity" && LOADED_TEXTS[4] == "status" && LOADED_TEXTS[5] == "startTime";
    assert LOADED_TEXTS[6] == "endTime";
  }
}
