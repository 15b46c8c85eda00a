/** What the collector reads without being told: the router's record, and the FlowSets it passes over. */
module NetFlowLayout {
  import opened Bytes
  import opened NetFlow
  import opened NetFlowDecode
  import opened NetFlowBounds

  /** The router's record of 37 bytes, by the place of each field. */
  function RouterRecord(mem: seq<byte>, p: nat): FlowRecord {
    FlowRecord(
      Read32(mem, p + 21),
      Read32(mem, p + 25),
      ByteAt(mem, p),
      Read16(mem, p + 9),
      Read32(mem, p + 1),
      Read32(mem, p + 13),
      Read16(mem, p + 11),
      Read32(mem, p + 5),
      Read32(mem, p + 17),
      Read32(mem, p + 33),
      Read32(mem, p + 29))
  }

  /** One field of a template, read where it stands. */
  lemma Peel(rec: FlowRecord, fields: seq<Field>, i: nat, mem: seq<byte>, q: nat)
    requires i < |fields|
    ensures DecodeFields(rec, fields[i..], mem, q)
            == DecodeFields(SetField(rec, fields[i].kind, mem, q), fields[i + 1..], mem, q + fields[i].length)
    ensures RecordLength(fields[i..]) == fields[i].length + RecordLength(fields[i + 1..])
  {
    hide SetField;
    assert fields[i..][1..] == fields[i + 1..];
  }

  lemma Peeled(rec: FlowRecord, fields: seq<Field>, mem: seq<byte>, q: nat)
    ensures DecodeFields(rec, fields[|fields|..], mem, q) == rec && RecordLength(fields[|fields|..]) == 0
    ensures fields[0..] == fields
  {
  }

  /** The first six fields: protocol, addresses, ports, input interface. */
  lemma StaticFront(mem: seq<byte>, p: nat, rec: FlowRecord)
    requires rec == ZERO.(protocol := ByteAt(mem, p), sourceAddr := Read32(mem, p + 1), destAddr := Read32(mem, p + 5),
                          sourcePort := Read16(mem, p + 9), destPort := Read16(mem, p + 11),
                          inputSnmp := Read32(mem, p + 13))
    ensures DecodeFields(ZERO, STATIC_FIELDS[0..], mem, p) == DecodeFields(rec, STATIC_FIELDS[6..], mem, p + 17)
    ensures RecordLength(STATIC_FIELDS[0..]) == 17 + RecordLength(STATIC_FIELDS[6..])
  {
    hide DecodeFields, RecordLength, Read16, Read32, ByteAt;
    var f := STATIC_FIELDS;
    var r1 := ZERO.(protocol := ByteAt(mem, p));
    var r2 := r1.(sourceAddr := Read32(mem, p + 1));
    var r3 := r2.(destAddr := Read32(mem, p + 5));
    var r4 := r3.(sourcePort := Read16(mem, p + 9));
    var r5 := r4.(destPort := Read16(mem, p + 11));
    Peel(ZERO, f, 0, mem, p);
    Peel(r1, f, 1, mem, p + 1);
    Peel(r2, f, 2, mem, p + 5);
    Peel(r3, f, 3, mem, p + 9);
    Peel(r4, f, 4, mem, p + 11);
    Peel(r5, f, 5, mem, p + 13);
  }

  /** The last five: output interface, counters, times. */
  lemma StaticBack(mem: seq<byte>, p: nat, rec: FlowRecord)
    ensures DecodeFields(rec, STATIC_FIELDS[6..], mem, p + 17)
            == rec.(outputSnmp := Read32(mem, p + 17), bytesCount := Read32(mem, p + 21),
                    packetsCount := Read32(mem, p + 25), firstTimestamp := Read32(mem, p + 29),
                    lastTimestamp := Read32(mem, p + 33))
    ensures RecordLength(STATIC_FIELDS[6..]) == 20
  {
    hide DecodeFields, RecordLength, Read16, Read32, ByteAt;
    var f := STATIC_FIELDS;
    var r1 := rec.(outputSnmp := Read32(mem, p + 17));
    var r2 := r1.(bytesCount := Read32(mem, p + 21));
    var r3 := r2.(packetsCount := Read32(mem, p + 25));
    var r4 := r3.(firstTimestamp := Read32(mem, p + 29));
    var r5 := r4.(lastTimestamp := Read32(mem, p + 33));
    Peel(rec, f, 6, mem, p + 17);
    Peel(r1, f, 7, mem, p + 21);
    Peel(r2, f, 8, mem, p + 25);
    Peel(r3, f, 9, mem, p + 29);
    Peel(r4, f, 10, mem, p + 33);
    Peeled(r5, f, mem, p + 37);
  }

  /** The template the collector starts with reads the router's record, field by field. */
  lemma StaticRecordIsRouters(mem: seq<byte>, p: nat)
    ensures RecordLength(STATIC_FIELDS) == 37 && DecodeRecord(STATIC_FIELDS, mem, p) == RouterRecord(mem, p)
  {
    hide DecodeFields, RecordLength, Read16, Read32, ByteAt;
    var rec := ZERO.(protocol := ByteAt(mem, p), sourceAddr := Read32(mem, p + 1), destAddr := Read32(mem, p + 5),
                     sourcePort := Read16(mem, p + 9), destPort := Read16(mem, p + 11),
                     inputSnmp := Read32(mem, p + 13));
    StaticFront(mem, p, rec);
    StaticBack(mem, p, rec);
    Peeled(ZERO, STATIC_FIELDS, mem, p);
  }

  /** As many router records as lie before the end. */
  function RouterRecords(mem: seq<byte>, p: nat, end: nat): seq<FlowRecord>
    decreases end - p
  {
    if p + 37 > end then [] else [RouterRecord(mem, p)] + RouterRecords(mem, p + 37, end)
  }

  lemma {:induction false} RecordsAreRouters(mem: seq<byte>, p: nat, end: nat)
    requires RecordLength(STATIC_FIELDS) == 37
    ensures DecodeRecords(STATIC_FIELDS, mem, p, end) == RouterRecords(mem, p, end)
    decreases end - p
  {
    hide RecordLength, DecodeRecord, RouterRecord;
    if p + 37 <= end {
      StaticRecordIsRouters(mem, p);
      RecordsAreRouters(mem, p + 37, end);
    }
  }

  /** Before it has learned any template the collector reads data FlowSets 256 of the sources 0 and 65562
      as router records, and no other data. */
  lemma DataBeforeTemplates(mem: seq<byte>, p: nat, end: nat, id: u16, source: u32)
    ensures DataRecords(Init().table, mem, p, end, id, source)
            == if id == 256 && (source == 0 || source == 65562) then RouterRecords(mem, p, end) else []
  {
    hide RecordLength, DecodeRecords, RouterRecords;
    StaticRecordIsRouters(mem, p);
    RecordsAreRouters(mem, p, end);
    StaticKeys(id, source);
  }

  lemma StaticKeys(id: u16, source: u32)
    ensures var t, i := Init().table, FindTemplate(Init().table, id, source);
      && |t| == 2 && t[0].fields == t[1].fields == STATIC_FIELDS
      && (i < 2 <==> id == 256 && (source == 0 || source == 65562))
  {
    var t, i := Init().table, FindTemplate(Init().table, id, source);
    assert i > 0 ==> !(t[0].id == id && t[0].source == source);
    assert i > 1 ==> !(t[1].id == id && t[1].source == source);
  }

  // ---- FlowSets that yield nothing ----

  /** FlowSets 1 to 255 are passed over; template FlowSets leave the buffer alone and data FlowSets the
      table; data without a template, or with one of no length, yields nothing. */
  lemma OtherFlowSets(st: State, mem: seq<byte>, p: nat, end: nat, id: u16, source: u32)
    ensures 1 <= id <= 255 ==> Visit(st, mem, p, end, id, source) == st
    ensures id == 0 ==> Visit(st, mem, p, end, id, source).buffer == st.buffer
    ensures id >= 1 ==> Visit(st, mem, p, end, id, source).table == st.table
    ensures id >= 256 && (forall t | t in st.table && t.id == id && t.source == source :: RecordLength(t.fields) == 0)
            ==> Visit(st, mem, p, end, id, source) == st
  {
    hide DecodeRecords, RecordLength, ParseTemplates;
    var i := FindTemplate(st.table, id, source);
    assert i < |st.table| ==> st.table[i] in st.table;
    NothingBuffered(st.buffer);
  }

  /** Only a packet shorter than 20 bytes is refused, and it changes nothing. */
  lemma ShortIsRefused(st: State, mem: seq<byte>, len: nat)
    ensures Process(st, mem, len).0 <==> len >= 20
    ensures len < 20 ==> Process(st, mem, len).1 == st
  {
    hide Walk, Read32;
  }

  /** The walk stops at a FlowSet whose length is below four or beyond the packet, and at fewer than
      four bytes. */
  lemma WalkStops(st: State, mem: seq<byte>, p: nat, end: nat, source: u32)
    requires p + 4 > end || Read16(mem, p + 2) < 4 || end < p + Read16(mem, p + 2)
    ensures Walk(st, mem, p, end, source) == st
  {
    hide Read16;
  }

  /** A definition whose fields do not fit ends the template FlowSet. */
  lemma TruncatedDefinitionStops(t: seq<Template>, mem: seq<byte>, p: nat, end: nat, source: u32)
    requires p + 4 > end || end < p + 4 + 4 * Read16(mem, p + 2) as int
    ensures ParseTemplates(t, mem, p, end, source) == t
  {
    hide Read16, Register;
  }
}
