/** The records of the syslog signal engine, as values. */
module SignalTypes {
  import opened Options

  /** A parsed JSON text. Equality is that of json_equal; reals are not modelled. */
  datatype Json =
    | Null
    | Bool(b: bool)
    | Int(n: int)
    | Str(s: string)
    | Arr(items: seq<Json>)
    | Obj(fields: map<string, Json>)

  type Tags = map<string, Json>

  datatype Status = WarmUp | Open | CoolDown | Closed

  datatype Signal = Signal(
    id: string,
    device: string,
    rule: string,
    severity: string,
    status: Status,
    startTime: string,
    endTime: string,
    changedAt: int,
    entities: Tags,
    mnemonics: seq<string>,
    events: seq<string>)

  /** `affected` is the parsed affectedEntityJson, None when the text does not parse. */
  datatype Rule = Rule(
    name: string,
    openMnemonic: string,
    closeMnemonic: string,
    openTag: string,
    openValue: string,
    closeTag: string,
    closeValue: string,
    severity: string,
    warmup: int,
    cooldown: int,
    affected: Option<Json>)

  datatype Message = Message(
    device: string,
    mnemonic: string,
    eventId: string,
    timestamp: Option<string>,
    tags: Tags)

  datatype MatchKind = MatchOpen | MatchClose

  datatype RuleMatch = RuleMatch(rule: Rule, kind: MatchKind)

  /** The longest text each char array of ActiveSignal can hold. */
  const ID_MAX := 36
  const DEVICE_MAX := 127
  const RULE_MAX := 31
  const SEVERITY_MAX := 31
  const TEXT_MAX := 63
  const MNEMONICS_MAX := 3
  const EVENTS_MAX := 100
  const MAX_SIGNALS := 1000

  /** strncpy into a zeroed or terminated array of n + 1 chars. */
  function Trunc(s: string, n: nat): (r: string)
    ensures |r| <= n
    ensures r == s <==> |s| <= n
    ensures r <= s
  {
    if |s| <= n then s else s[..n]
  }

  /** The string a JSON value holds, as json_string_value gives it. */
  function Text(j: Option<Json>): Option<string> {
    if j.Some? && j.value.Str? then Some(j.value.s) else None
  }

  function Get<T>(m: map<string, T>, key: string): Option<T> {
    if key in m then Some(m[key]) else None
  }

  /** A signal that is neither cooling down nor closed: it has no end time yet. */
  predicate Live(status: Status) {
    status == WarmUp || status == Open
  }

  /** Every text fits the char array that holds it, and every list its bound. */
  predicate Fits(s: Signal) {
    && |s.id| <= 36
    && |s.device| <= 127
    && |s.rule| <= 31
    && |s.severity| <= 31
    && |s.startTime| <= 63
    && |s.endTime| <= 63
    && |s.mnemonics| <= 3
    && (forall i | 0 <= i < |s.mnemonics| :: |s.mnemonics[i]| <= 63)
    && |s.events| <= 100
    && (forall i | 0 <= i < |s.events| :: |s.events[i]| <= 63)
  }
}
