/**
  The NetFlow v9 collector (RFC 3954, sections 5.1 to 5.3): what one packet does to the template
  table and to the buffer of decoded flow records.

  A packet lies at the start of the receive buffer `mem`; the program reads fields at fixed widths
  and may look past the end of a record whose template is narrower. What it finds there are the
  bytes of the buffer; past the buffer itself the model reads zero.
 */
module NetFlow {
  import opened Bytes

  datatype Field = Field(kind: u16, length: u16)

  datatype Template = Template(id: u16, source: u32, fields: seq<Field>)

  datatype FlowRecord = FlowRecord(
    bytesCount: u32,
    packetsCount: u32,
    protocol: byte,
    sourcePort: u16,
    sourceAddr: u32,
    inputSnmp: u32,
    destPort: u16,
    destAddr: u32,
    outputSnmp: u32,
    lastTimestamp: u32,
    firstTimestamp: u32)

  const ZERO := FlowRecord(0, 0, 0, 0, 0, 0, 0, 0, 0, 0, 0)

  const MAX_TEMPLATES := 64
  const MAX_BATCH_SIZE := 6
  const HEADER_SIZE := 20

  datatype State = State(table: seq<Template>, buffer: seq<FlowRecord>)

  // ---- Reading ----

  function ByteAt(mem: seq<byte>, p: nat): byte {
    if p < |mem| then mem[p] else 0
  }

  function Read16(mem: seq<byte>, p: nat): u16 {
    Be16(ByteAt(mem, p), ByteAt(mem, p + 1))
  }

  function Read32(mem: seq<byte>, p: nat): u32 {
    Be32(ByteAt(mem, p), ByteAt(mem, p + 1), ByteAt(mem, p + 2), ByteAt(mem, p + 3))
  }

  /** How many bytes the field switch reads for a kind; it skips kinds it does not know. */
  function Width(kind: u16): nat {
    if kind in {1, 2, 8, 10, 12, 14, 21, 22} then 4
    else if kind in {7, 11} then 2
    else if kind == 4 then 1
    else 0
  }

  predicate Known(kind: u16) {
    Width(kind) > 0
  }

  /** The field switch. */
  function SetField(rec: FlowRecord, kind: u16, mem: seq<byte>, p: nat): FlowRecord {
    match kind
    case 1 => rec.(bytesCount := Read32(mem, p))
    case 2 => rec.(packetsCount := Read32(mem, p))
    case 4 => rec.(protocol := ByteAt(mem, p))
    case 7 => rec.(sourcePort := Read16(mem, p))
    case 8 => rec.(sourceAddr := Read32(mem, p))
    case 10 => rec.(inputSnmp := Read32(mem, p))
    case 11 => rec.(destPort := Read16(mem, p))
    case 12 => rec.(destAddr := Read32(mem, p))
    case 14 => rec.(outputSnmp := Read32(mem, p))
    case 21 => rec.(lastTimestamp := Read32(mem, p))
    case 22 => rec.(firstTimestamp := Read32(mem, p))
    case _ => rec
  }

  function RecordLength(fields: seq<Field>): nat {
    if fields == [] then 0 else fields[0].length + RecordLength(fields[1..])
  }

  /** One record read field by field, from position p on. */
  function DecodeFields(rec: FlowRecord, fields: seq<Field>, mem: seq<byte>, p: nat): FlowRecord
    decreases |fields|
  {
    if fields == [] then rec
    else DecodeFields(SetField(rec, fields[0].kind, mem, p), fields[1..], mem, p + fields[0].length)
  }

  function DecodeRecord(fields: seq<Field>, mem: seq<byte>, p: nat): FlowRecord {
    DecodeFields(ZERO, fields, mem, p)
  }

  /** As many whole records as lie before `end`. */
  function DecodeRecords(fields: seq<Field>, mem: seq<byte>, p: nat, end: nat): seq<FlowRecord>
    requires RecordLength(fields) > 0
    decreases end - p
  {
    if p + RecordLength(fields) > end then []
    else [DecodeRecord(fields, mem, p)] + DecodeRecords(fields, mem, p + RecordLength(fields), end)
  }

  // ---- The template table ----

  /** get_template: the first template of that id and source, |t| when there is none. */
  function FindTemplate(t: seq<Template>, id: u16, source: u32): (i: nat)
    ensures i <= |t|
    ensures forall j | 0 <= j < i :: !(t[j].id == id && t[j].source == source)
    ensures i < |t| ==> t[i].id == id && t[i].source == source
  {
    if t == [] || (t[0].id == id && t[0].source == source) then 0
    else 1 + FindTemplate(t[1..], id, source)
  }

  /** An existing template is replaced where it stands; a new one is added while there is room. */
  function Register(t: seq<Template>, id: u16, source: u32, fields: seq<Field>): seq<Template> {
    var i := FindTemplate(t, id, source);
    if i < |t| then t[i := t[i].(fields := fields)]
    else if |t| < MAX_TEMPLATES then t + [Template(id, source, fields)]
    else t
  }

  /** n field descriptions, from position p on. */
  function ReadFields(mem: seq<byte>, p: nat, n: nat): (fs: seq<Field>)
    ensures |fs| == n
  {
    if n == 0 then []
    else ReadFields(mem, p, n - 1) + [Field(Read16(mem, p + 4 * (n - 1)), Read16(mem, p + 4 * (n - 1) + 2))]
  }

  /** parse_template_flowset. */
  function ParseTemplates(t: seq<Template>, mem: seq<byte>, p: nat, end: nat, source: u32): seq<Template>
    decreases end - p
  {
    if p + 4 > end then t
    else
      var id, n := Read16(mem, p), Read16(mem, p + 2);
      if p + 4 + n * 4 > end then t
      else
        ParseTemplates(Register(t, id, source, ReadFields(mem, p + 4, n)), mem, p + 4 + n * 4, end, source)
  }

  // ---- FlowSets ----

  /** Records go into the buffer while it has room; the rest of them is dropped. */
  function Buffered(buffer: seq<FlowRecord>, records: seq<FlowRecord>): seq<FlowRecord>
    decreases |records|
  {
    if records == [] then buffer
    else
      Buffered(if |buffer| < MAX_BATCH_SIZE then buffer + [records[0]] else buffer, records[1..])
  }

  /** The records parse_data_flowset finds. */
  function DataRecords(t: seq<Template>, mem: seq<byte>, p: nat, end: nat, id: u16, source: u32): seq<FlowRecord> {
    var i := FindTemplate(t, id, source);
    if i == |t| || RecordLength(t[i].fields) == 0 then []
    else DecodeRecords(t[i].fields, mem, p, end)
  }

  /** One FlowSet body: templates for id 0, data above 255, options and the rest skipped. */
  function Visit(st: State, mem: seq<byte>, p: nat, end: nat, id: u16, source: u32): State {
    if id == 0 then st.(table := ParseTemplates(st.table, mem, p, end, source))
    else if id > 255 then st.(buffer := Buffered(st.buffer, DataRecords(st.table, mem, p, end, id, source)))
    else st
  }

  /** The FlowSet loop of process_netflow_v9. */
  function Walk(st: State, mem: seq<byte>, p: nat, end: nat, source: u32): State
    decreases end - p
  {
    if p + 4 > end then st
    else
      var id, length := Read16(mem, p), Read16(mem, p + 2);
      if length < 4 || p + length > end then st
      else Walk(Visit(st, mem, p + 4, p + length, id, source), mem, p + length, end, source)
  }

  /** process_netflow_v9: false when the packet is shorter than its header. */
  function Process(st: State, mem: seq<byte>, len: nat): (bool, State) {
    if len < HEADER_SIZE then (false, st)
    else (true, Walk(st, mem, HEADER_SIZE, len, Read32(mem, 16)))
  }

  const VERSION: u16 := 9

  /** A packet as it is received: the buffer, how many of its bytes are the packet's, and whether the
      flush interval has passed. */
  datatype Received = Received(mem: seq<byte>, len: nat, due: bool)

  /** The loop of main: other versions and packets that are too short change nothing; the buffer is
      flushed when it is full or when it is time. The second part is what is produced. */
  function Receive(st: State, r: Received): (State, seq<FlowRecord>) {
    if Read16(r.mem, 0) != VERSION then (st, [])
    else
      var (ok, next) := Process(st, r.mem, r.len);
      if !ok then (st, [])
      else if |next.buffer| >= MAX_BATCH_SIZE || r.due then (next.(buffer := []), next.buffer)
      else (next, [])
  }

  /** The RECORDER template the collector starts with, in the router's order. */
  const STATIC_TEMPLATE_ID: u16 := 256
  const STATIC_SOURCES: seq<u32> := [0, 65562]
  const STATIC_FIELDS: seq<Field> := [
    Field(4, 1), Field(8, 4), Field(12, 4), Field(7, 2), Field(11, 2), Field(10, 4),
    Field(14, 4), Field(1, 4), Field(2, 4), Field(22, 4), Field(21, 4)]

  function Init(): State {
    State([Template(STATIC_TEMPLATE_ID, STATIC_SOURCES[0], STATIC_FIELDS),
           Template(STATIC_TEMPLATE_ID, STATIC_SOURCES[1], STATIC_FIELDS)], [])
  }
}
