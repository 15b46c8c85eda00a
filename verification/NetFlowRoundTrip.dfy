/** Encoding templates, data records and FlowSets as RFC 3954 lays them out (sections 5.1 to 5.3),
    and reading them back. */
module NetFlowRoundTrip {
  import opened Bytes
  import opened Sequences
  import opened NetFlow
  import opened NetFlowDecode

  // ---- Finding bytes in memory ----

  /** mem holds s at position p. */
  ghost predicate Holds(mem: seq<byte>, p: nat, s: seq<byte>) {
    p + |s| <= |mem| && mem[p..p + |s|] == s
  }

  lemma HoldsSplit(mem: seq<byte>, p: nat, a: seq<byte>, b: seq<byte>)
    requires Holds(mem, p, a + b)
    ensures Holds(mem, p, a) && Holds(mem, p + |a|, b)
  {
    var s := a + b;
    assert forall i | 0 <= i < |s| :: mem[p..p + |s|][i] == s[i];
    assert mem[p..p + |a|] == s[..|a|] == a;
    assert mem[p + |a|..p + |a| + |b|] == s[|a|..] == b;
  }

  lemma HoldsByte(mem: seq<byte>, p: nat, s: seq<byte>, i: nat)
    requires Holds(mem, p, s) && i < |s|
    ensures ByteAt(mem, p + i) == s[i]
  {
    assert mem[p..p + |s|][i] == mem[p + i];
  }

  lemma Holds16(mem: seq<byte>, p: nat, x: u16)
    requires Holds(mem, p, Enc16(x))
    ensures Read16(mem, p) == x
  {
    HoldsByte(mem, p, Enc16(x), 0);
    HoldsByte(mem, p, Enc16(x), 1);
  }

  lemma Holds32(mem: seq<byte>, p: nat, x: u32)
    requires Holds(mem, p, Enc32(x))
    ensures Read32(mem, p) == x
  {
    HoldsByte(mem, p, Enc32(x), 0);
    HoldsByte(mem, p, Enc32(x), 1);
    HoldsByte(mem, p, Enc32(x), 2);
    HoldsByte(mem, p, Enc32(x), 3);
  }

  // ---- Data records ----

  /** A record on the wire: the known values, and the bytes of the fields the collector skips. */
  datatype Wire = Wire(rec: FlowRecord, fill: seq<seq<byte>>)

  /** Known fields have the width the decoder reads; unknown ones are filled to their length. */
  ghost predicate WellWired(fields: seq<Field>, fill: seq<seq<byte>>) {
    && |fill| == |fields|
    && forall i | 0 <= i < |fields| ::
         if Known(fields[i].kind) then fields[i].length == Width(fields[i].kind)
         else |fill[i]| == fields[i].length
  }

  function EncKind(kind: u16, rec: FlowRecord): seq<byte>
    requires Known(kind)
  {
    var x := GetField(rec, kind);
    if Width(kind) == 4 then Enc32(x)
    else if Width(kind) == 2 then (assert kind in {7, 11}; Enc16(x))
    else (assert kind == 4; [x])
  }

  function EncField(f: Field, rec: FlowRecord, fill: seq<byte>): seq<byte> {
    if Known(f.kind) then EncKind(f.kind, rec) else fill
  }

  function EncRecord(fields: seq<Field>, rec: FlowRecord, fill: seq<seq<byte>>): seq<byte>
    requires |fill| == |fields|
  {
    if fields == [] then []
    else EncField(fields[0], rec, fill[0]) + EncRecord(fields[1..], rec, fill[1..])
  }

  lemma {:induction false} EncRecordLength(fields: seq<Field>, rec: FlowRecord, fill: seq<seq<byte>>)
    requires WellWired(fields, fill)
    ensures |EncRecord(fields, rec, fill)| == RecordLength(fields)
  {
    if fields != [] {
      assert WellWired(fields[1..], fill[1..]);
      EncRecordLength(fields[1..], rec, fill[1..]);
    }
  }

  lemma ReadsEncoded(kind: u16, rec: FlowRecord, mem: seq<byte>, p: nat)
    requires Known(kind) && Holds(mem, p, EncKind(kind, rec))
    ensures ReadKind(kind, mem, p) == GetField(rec, kind)
  {
    hide GetField, Holds;
    if Width(kind) == 4 {
      Holds32(mem, p, GetField(rec, kind));
    } else if Width(kind) == 2 {
      assert GetField(rec, kind) < 0x1_0000 by { SmallFields(rec); }
      Holds16(mem, p, GetField(rec, kind));
    } else {
      assert GetField(rec, kind) < 0x100 by { SmallFields(rec); }
      HoldsByte(mem, p, [GetField(rec, kind)], 0);
    }
  }

  lemma SmallFields(rec: FlowRecord)
    ensures GetField(rec, 4) < 0x100 && GetField(rec, 7) < 0x1_0000 && GetField(rec, 11) < 0x1_0000
  {
  }

  predicate Lists(fields: seq<Field>, kind: u16) {
    exists i | 0 <= i < |fields| :: fields[i].kind == kind
  }

  /** Decoding an encoded record gives each listed field its value and leaves the others. */
  lemma {:induction false} DecodesEncoded(acc: FlowRecord, fields: seq<Field>, rec: FlowRecord, fill: seq<seq<byte>>,
                                          mem: seq<byte>, p: nat, k: u16)
    requires |fill| == |fields| && WellWired(fields, fill) && Holds(mem, p, EncRecord(fields, rec, fill)) && Known(k)
    ensures GetField(DecodeFields(acc, fields, mem, p), k)
            == if Lists(fields, k) then GetField(rec, k) else GetField(acc, k)
    decreases |fields|
  {
    hide SetField, GetField, ReadKind, Holds, WellWired, EncField, EncRecord, Lists;
    if fields == [] {
      NothingListed(acc, rec, fill, mem, p, k);
    } else {
      var f := fields[0];
      WiredStep(fields, rec, fill);
      HoldsSplit(mem, p, EncField(f, rec, fill[0]), EncRecord(fields[1..], rec, fill[1..]));
      SetThenGet(acc, f.kind, mem, p, k);
      if f.kind == k {
        FieldIsKind(f, rec, fill[0]);
        ReadsEncoded(k, rec, mem, p);
      }
      DecodesEncoded(SetField(acc, f.kind, mem, p), fields[1..], rec, fill[1..], mem, p + f.length, k);
      ListsStep(fields, k);
    }
  }

  lemma FieldIsKind(f: Field, rec: FlowRecord, fill: seq<byte>)
    requires Known(f.kind)
    ensures EncField(f, rec, fill) == EncKind(f.kind, rec)
  {
    hide EncKind;
  }

  lemma NothingListed(acc: FlowRecord, rec: FlowRecord, fill: seq<seq<byte>>, mem: seq<byte>, p: nat, k: u16)
    ensures DecodeFields(acc, [], mem, p) == acc && !Lists([], k)
  {
  }

  lemma WiredStep(fields: seq<Field>, rec: FlowRecord, fill: seq<seq<byte>>)
    requires fields != [] && WellWired(fields, fill)
    ensures |fill| == |fields| && WellWired(fields[1..], fill[1..])
    ensures EncRecord(fields, rec, fill) == EncField(fields[0], rec, fill[0]) + EncRecord(fields[1..], rec, fill[1..])
    ensures |EncField(fields[0], rec, fill[0])| == fields[0].length
  {
    hide GetField;
  }

  lemma ListsStep(fields: seq<Field>, k: u16)
    requires fields != []
    ensures Lists(fields, k) <==> fields[0].kind == k || Lists(fields[1..], k)
  {
    if Lists(fields, k) && fields[0].kind != k {
      var i :| 0 <= i < |fields| && fields[i].kind == k;
      assert fields[1..][i - 1].kind == k;
    }
    if Lists(fields[1..], k) {
      var i :| 0 <= i < |fields[1..]| && fields[1..][i].kind == k;
      assert fields[i + 1].kind == k;
    }
  }

  /** The record carries nothing the template does not list. */
  ghost predicate Covers(fields: seq<Field>, rec: FlowRecord) {
    forall k: u16 | Known(k) && !Lists(fields, k) :: GetField(rec, k) == 0
  }

  lemma RecordReadsBack(fields: seq<Field>, w: Wire, mem: seq<byte>, p: nat)
    requires WellWired(fields, w.fill) && Covers(fields, w.rec)
    requires Holds(mem, p, EncRecord(fields, w.rec, w.fill))
    ensures DecodeRecord(fields, mem, p) == w.rec
  {
    hide GetField, DecodeFields, EncRecord, Holds, Lists;
    forall k: u16 | Known(k) ensures GetField(DecodeRecord(fields, mem, p), k) == GetField(w.rec, k) {
      DecodesEncoded(ZERO, fields, w.rec, w.fill, mem, p, k);
      ZeroField(k);
    }
    SameFields(DecodeRecord(fields, mem, p), w.rec);
  }

  lemma ZeroField(k: u16)
    ensures GetField(ZERO, k) == 0
  {
  }

  function EncRecords(fields: seq<Field>, ws: seq<Wire>): seq<byte>
    requires forall i | 0 <= i < |ws| :: |ws[i].fill| == |fields|
  {
    if ws == [] then [] else EncRecord(fields, ws[0].rec, ws[0].fill) + EncRecords(fields, ws[1..])
  }

  function Recs(ws: seq<Wire>): seq<FlowRecord> {
    seq(|ws|, i requires 0 <= i < |ws| => ws[i].rec)
  }

  ghost predicate Encodable(fields: seq<Field>, ws: seq<Wire>) {
    forall i | 0 <= i < |ws| :: WellWired(fields, ws[i].fill) && Covers(fields, ws[i].rec)
  }

  lemma EncodableRest(fields: seq<Field>, ws: seq<Wire>)
    requires Encodable(fields, ws) && ws != []
    ensures Encodable(fields, ws[1..]) && WellWired(fields, ws[0].fill) && Covers(fields, ws[0].rec)
    ensures forall i | 0 <= i < |ws| :: |ws[i].fill| == |fields|
  {
  }

  /** A data FlowSet body of encoded records decodes to exactly those records, in order; padding
      shorter than one record adds nothing. */
  lemma {:induction false} RecordsReadBack(fields: seq<Field>, ws: seq<Wire>, pad: seq<byte>, mem: seq<byte>, p: nat,
                                           end: nat)
    requires RecordLength(fields) > 0 && Encodable(fields, ws)
    requires forall i | 0 <= i < |ws| :: |ws[i].fill| == |fields|
    requires |pad| < RecordLength(fields)
    requires Holds(mem, p, EncRecords(fields, ws) + pad) && end == p + |EncRecords(fields, ws) + pad|
    ensures DecodeRecords(fields, mem, p, end) == Recs(ws)
    decreases |ws|
  {
    hide RecordLength, Holds, DecodeRecord, WellWired, Covers, EncRecord;
    if ws == [] {
      assert EncRecords(fields, ws) + pad == pad;
    } else {
      EncodableRest(fields, ws);
      var first, rest := EncRecord(fields, ws[0].rec, ws[0].fill), EncRecords(fields, ws[1..]);
      EncRecordLength(fields, ws[0].rec, ws[0].fill);
      Assoc(first, rest, pad);
      HoldsSplit(mem, p, first, rest + pad);
      RecordReadsBack(fields, ws[0], mem, p);
      RecordsReadBack(fields, ws[1..], pad, mem, p + |first|, end);
      assert Recs(ws) == [ws[0].rec] + Recs(ws[1..]);
    }
  }

  /** How many records any body gives: one for each whole record length in it. */
  lemma {:induction false} RecordCount(fields: seq<Field>, mem: seq<byte>, p: nat, end: nat)
    requires RecordLength(fields) > 0 && p <= end
    ensures |DecodeRecords(fields, mem, p, end)| * RecordLength(fields) <= end - p
    ensures end - p < (|DecodeRecords(fields, mem, p, end)| + 1) * RecordLength(fields)
    decreases end - p
  {
    hide RecordLength, DecodeRecord;
    if p + RecordLength(fields) <= end {
      RecordCount(fields, mem, p + RecordLength(fields), end);
    }
  }

  // ---- Template FlowSets ----

  function EncFields(fs: seq<Field>): seq<byte> {
    if fs == [] then []
    else EncFields(fs[..|fs| - 1]) + Enc16(fs[|fs| - 1].kind) + Enc16(fs[|fs| - 1].length)
  }

  lemma EncFieldsStep(fs: seq<Field>)
    requires fs != []
    ensures var front, last := fs[..|fs| - 1], fs[|fs| - 1];
      EncFields(fs) == EncFields(front) + Enc16(last.kind) + Enc16(last.length) && fs == front + [last]
  {
    hide Enc16;
  }

  lemma ReadFieldsStep(mem: seq<byte>, p: nat, n: nat)
    ensures ReadFields(mem, p, n + 1)
            == ReadFields(mem, p, n) + [Field(Read16(mem, p + 4 * n), Read16(mem, p + 4 * n + 2))]
  {
    hide Read16;
  }

  lemma NoFields(mem: seq<byte>, p: nat)
    ensures ReadFields(mem, p, 0) == [] && EncFields([]) == []
  {
  }

  lemma {:induction false} FieldsReadBack(fs: seq<Field>, mem: seq<byte>, p: nat)
    requires Holds(mem, p, EncFields(fs))
    ensures |EncFields(fs)| == 4 * |fs| && ReadFields(mem, p, |fs|) == fs
    decreases |fs|
  {
    hide Holds, Enc16, Read16, EncFields, ReadFields;
    if fs == [] {
      NoFields(mem, p);
    } else {
      var front, last := fs[..|fs| - 1], fs[|fs| - 1];
      EncFieldsStep(fs);
      HoldsSplit(mem, p, EncFields(front) + Enc16(last.kind), Enc16(last.length));
      HoldsSplit(mem, p, EncFields(front), Enc16(last.kind));
      FieldsReadBack(front, mem, p);
      Holds16(mem, p + 4 * |front|, last.kind);
      Holds16(mem, p + 4 * |front| + 2, last.length);
      ReadFieldsStep(mem, p, |front|);
    }
  }

  lemma {:induction false} EncFieldsLength(fs: seq<Field>)
    ensures |EncFields(fs)| == 4 * |fs|
  {
    if fs != [] {
      EncFieldsLength(fs[..|fs| - 1]);
    }
  }

  /** A template definition without its source, as it stands in a FlowSet. */
  datatype TemplateDef = TemplateDef(id: u16, fields: seq<Field>)

  function EncTemplate(d: TemplateDef): seq<byte>
    requires |d.fields| < 0x1_0000
  {
    Enc16(d.id) + Enc16(|d.fields|) + EncFields(d.fields)
  }

  function EncTemplates(ds: seq<TemplateDef>): seq<byte>
    requires forall i | 0 <= i < |ds| :: |ds[i].fields| < 0x1_0000
  {
    if ds == [] then [] else EncTemplate(ds[0]) + EncTemplates(ds[1..])
  }

  /** The definitions registered one after the other. */
  function RegisterDefs(t: seq<Template>, ds: seq<TemplateDef>, source: u32): seq<Template>
    decreases |ds|
  {
    if ds == [] then t else RegisterDefs(Register(t, ds[0].id, source, ds[0].fields), ds[1..], source)
  }

  /** A template FlowSet body registers exactly its definitions, in order; up to three bytes of
      padding add nothing. */
  lemma {:induction false} TemplatesReadBack(t: seq<Template>, ds: seq<TemplateDef>, pad: seq<byte>, mem: seq<byte>,
                                             p: nat, end: nat, source: u32)
    requires forall i | 0 <= i < |ds| :: |ds[i].fields| < 0x1_0000
    requires |pad| < 4 && Holds(mem, p, EncTemplates(ds) + pad) && end == p + |EncTemplates(ds) + pad|
    ensures ParseTemplates(t, mem, p, end, source) == RegisterDefs(t, ds, source)
    decreases |ds|
  {
    hide Holds, Register, Read16, ReadFields, EncFields, Enc16;
    if ds == [] {
      assert EncTemplates(ds) + pad == pad;
    } else {
      var d, rest := ds[0], EncTemplates(ds[1..]);
      EncFieldsLength(d.fields);
      Assoc(EncTemplate(d), rest, pad);
      HoldsSplit(mem, p, EncTemplate(d), rest + pad);
      HoldsSplit(mem, p, Enc16(d.id) + Enc16(|d.fields|), EncFields(d.fields));
      HoldsSplit(mem, p, Enc16(d.id), Enc16(|d.fields|));
      Holds16(mem, p, d.id);
      Holds16(mem, p + 2, |d.fields|);
      FieldsReadBack(d.fields, mem, p + 4);
      TemplatesReadBack(Register(t, d.id, source, d.fields), ds[1..], pad, mem, p + |EncTemplate(d)|, end, source);
    }
  }

  // ---- The FlowSet walk ----

  datatype FlowSet = FlowSet(id: u16, body: seq<byte>)

  predicate Sized(fs: FlowSet) {
    |fs.body| + 4 < 0x1_0000
  }

  function EncSet(fs: FlowSet): seq<byte>
    requires Sized(fs)
  {
    Enc16(fs.id) + Enc16(|fs.body| + 4) + fs.body
  }

  function EncSets(sets: seq<FlowSet>): seq<byte>
    requires forall i | 0 <= i < |sets| :: Sized(sets[i])
  {
    if sets == [] then [] else EncSet(sets[0]) + EncSets(sets[1..])
  }

  /** The FlowSets visited one after the other, as a left fold over the state. */
  function VisitAll(st: State, mem: seq<byte>, p: nat, sets: seq<FlowSet>, source: u32): State
    decreases |sets|
  {
    if sets == [] then st
    else
      var end := p + 4 + |sets[0].body|;
      VisitAll(Visit(st, mem, p + 4, end, sets[0].id, source), mem, end, sets[1..], source)
  }

  /** On a concatenation of well-formed FlowSets the walk visits exactly that list, in order, and
      stops; a tail of fewer than four bytes adds nothing. */
  lemma {:induction false} WalkVisitsAll(st: State, mem: seq<byte>, p: nat, end: nat, sets: seq<FlowSet>,
                                         tail: seq<byte>, source: u32)
    requires forall i | 0 <= i < |sets| :: Sized(sets[i])
    requires |tail| < 4 && Holds(mem, p, EncSets(sets) + tail) && end == p + |EncSets(sets) + tail|
    ensures Walk(st, mem, p, end, source) == VisitAll(st, mem, p, sets, source)
    decreases |sets|
  {
    hide Holds, Visit, Read16, Enc16;
    if sets == [] {
      assert EncSets(sets) + tail == tail;
    } else {
      var fs, rest := sets[0], EncSets(sets[1..]);
      Assoc(EncSet(fs), rest, tail);
      HoldsSplit(mem, p, EncSet(fs), rest + tail);
      HoldsSplit(mem, p, Enc16(fs.id) + Enc16(|fs.body| + 4), fs.body);
      HoldsSplit(mem, p, Enc16(fs.id), Enc16(|fs.body| + 4));
      Holds16(mem, p, fs.id);
      Holds16(mem, p + 2, |fs.body| + 4);
      var next := p + |EncSet(fs)|;
      WalkVisitsAll(Visit(st, mem, p + 4, next, fs.id, source), mem, next, end, sets[1..], tail, source);
    }
  }

  // ---- Whole packets ----

  /** A header with this source id: version, count, uptime, seconds and sequence are not looked at. */
  function EncHeader(rest: seq<byte>, source: u32): seq<byte>
    requires |rest| == 16
  {
    rest + Enc32(source)
  }

  /** A packet of a template FlowSet and a data FlowSet of that template. */
  function EncPacket(rest: seq<byte>, source: u32, d: TemplateDef, pad1: seq<byte>, ws: seq<Wire>,
                     pad2: seq<byte>): seq<byte>
    requires |rest| == 16 && |d.fields| < 0x1_0000
    requires forall i | 0 <= i < |ws| :: |ws[i].fill| == |d.fields|
    requires Sized(FlowSet(0, EncTemplates([d]) + pad1)) && Sized(FlowSet(d.id, EncRecords(d.fields, ws) + pad2))
  {
    EncHeader(rest, source)
    + EncSets([FlowSet(0, EncTemplates([d]) + pad1), FlowSet(d.id, EncRecords(d.fields, ws) + pad2)])
  }

  lemma {:induction false} BufferedIsPrefix(buffer: seq<FlowRecord>, records: seq<FlowRecord>)
    requires |buffer| <= MAX_BATCH_SIZE
    ensures Buffered(buffer, records) <= buffer + records
    ensures |Buffered(buffer, records)|
            == if |buffer| + |records| <= MAX_BATCH_SIZE then |buffer| + |records| else MAX_BATCH_SIZE
    decreases |records|
  {
    if records == [] {
      assert buffer + [] == buffer;
    } else if |buffer| < MAX_BATCH_SIZE {
      assert records == [records[0]] + records[1..];
      Assoc(buffer, [records[0]], records[1..]);
      BufferedIsPrefix(buffer + [records[0]], records[1..]);
    } else {
      BufferedIsPrefix(buffer, records[1..]);
      SamePrefix(Buffered(buffer, records[1..]), buffer, records[1..], records);
    }
  }

  lemma SamePrefix(x: seq<FlowRecord>, a: seq<FlowRecord>, b: seq<FlowRecord>, c: seq<FlowRecord>)
    requires |x| == |a| && x <= a + b
    ensures x == a && x <= a + c
  {
    assert (a + b)[..|x|] == a;
  }

  /** The buffer takes the first records as far as its places go: all of them exactly when they fit. */
  lemma BufferKeepsAll(buffer: seq<FlowRecord>, records: seq<FlowRecord>)
    requires |buffer| <= MAX_BATCH_SIZE
    ensures Buffered(buffer, records) == (buffer + records)[..if |buffer| + |records| <= MAX_BATCH_SIZE
                                                              then |buffer| + |records| else MAX_BATCH_SIZE]
    ensures Buffered(buffer, records) == buffer + records <==> |buffer| + |records| <= 6
  {
    hide Buffered;
    BufferedIsPrefix(buffer, records);
    WholePrefix(Buffered(buffer, records), buffer + records);
  }

  lemma WholePrefix(x: seq<FlowRecord>, y: seq<FlowRecord>)
    requires x <= y
    ensures x == y[..|x|]
    ensures x == y <==> |x| == |y|
  {
  }

  lemma RegisteredIsFound(t: seq<Template>, id: u16, source: u32, fields: seq<Field>)
    requires FindTemplate(t, id, source) < |t| || |t| < MAX_TEMPLATES
    ensures var u := Register(t, id, source, fields);
            var i := FindTemplate(u, id, source);
            i < |u| && u[i].fields == fields
  {
    var i, u := FindTemplate(t, id, source), Register(t, id, source, fields);
    assert u[i] == Template(id, source, fields);
    assert forall j | 0 <= j < i :: u[j] == t[j];
  }

  /** A packet of any number of well-formed FlowSets is processed as the left fold over them, with
      the source id its header carries. */
  lemma PacketIsWalked(st: State, rest: seq<byte>, source: u32, sets: seq<FlowSet>)
    requires |rest| == 16 && forall i | 0 <= i < |sets| :: Sized(sets[i])
    ensures var packet := EncHeader(rest, source) + EncSets(sets);
            && Process(st, packet, |packet|) == (true, VisitAll(st, packet, HEADER_SIZE, sets, source))
            && Holds(packet, HEADER_SIZE, EncSets(sets))
  {
    hide Holds, Walk, EncSets, VisitAll, Enc32, Read32;
    var packet := EncHeader(rest, source) + EncSets(sets);
    WholeHolds(packet);
    HoldsSplit(packet, 0, EncHeader(rest, source), EncSets(sets));
    HoldsSplit(packet, 0, rest, Enc32(source));
    Holds32(packet, 16, source);
    assert EncSets(sets) + [] == EncSets(sets);
    WalkVisitsAll(st, packet, HEADER_SIZE, |packet|, sets, [], source);
  }

  /** Data behind a template just registered decodes to exactly its records. */
  lemma DataReadsBack(t: seq<Template>, source: u32, d: TemplateDef, ws: seq<Wire>, pad: seq<byte>, mem: seq<byte>,
                      p: nat, end: nat)
    requires FindTemplate(t, d.id, source) < |t| || |t| < MAX_TEMPLATES
    requires RecordLength(d.fields) > 0 && |pad| < RecordLength(d.fields)
    requires Encodable(d.fields, ws) && forall i | 0 <= i < |ws| :: |ws[i].fill| == |d.fields|
    requires Holds(mem, p, EncRecords(d.fields, ws) + pad) && end == p + |EncRecords(d.fields, ws) + pad|
    ensures DataRecords(Register(t, d.id, source, d.fields), mem, p, end, d.id, source) == Recs(ws)
  {
    hide Holds, EncRecords, RecordLength, Encodable, Register, DecodeRecords;
    RegisteredIsFound(t, d.id, source, d.fields);
    RecordsReadBack(d.fields, ws, pad, mem, p, end);
  }

  /** From any table that has the key or has room, a packet that defines a template and then carries
      records of it leaves the template registered and exactly those records, in order, appended to
      the buffer, as far as its six places go. */
  lemma PacketReadsBack(st: State, rest: seq<byte>, source: u32, d: TemplateDef, pad1: seq<byte>, ws: seq<Wire>,
                        pad2: seq<byte>)
    requires FindTemplate(st.table, d.id, source) < |st.table| || |st.table| < MAX_TEMPLATES
    requires |rest| == 16 && |d.fields| < 0x1_0000 && d.id > 255 && RecordLength(d.fields) > 0
    requires Encodable(d.fields, ws) && forall i | 0 <= i < |ws| :: |ws[i].fill| == |d.fields|
    requires |pad1| < 4 && |pad2| < RecordLength(d.fields)
    requires Sized(FlowSet(0, EncTemplates([d]) + pad1)) && Sized(FlowSet(d.id, EncRecords(d.fields, ws) + pad2))
    ensures var packet := EncPacket(rest, source, d, pad1, ws, pad2);
            Process(st, packet, |packet|)
            == (true, State(Register(st.table, d.id, source, d.fields), Buffered(st.buffer, Recs(ws))))
  {
    hide Holds, Process, EncSets, EncHeader, VisitAll, EncRecords, EncTemplates, RecordLength, Encodable, Register,
         Buffered, ParseTemplates, RegisterDefs, DataRecords, Recs;
    var b1, b2 := EncTemplates([d]) + pad1, EncRecords(d.fields, ws) + pad2;
    var sets := [FlowSet(0, b1), FlowSet(d.id, b2)];
    var packet := EncPacket(rest, source, d, pad1, ws, pad2);
    PacketIsWalked(st, rest, source, sets);
    VisitedTwo(st, packet, sets, source);
    SetsHold(packet, HEADER_SIZE, sets);
    TemplatesReadBack(st.table, [d], pad1, packet, HEADER_SIZE + 4, HEADER_SIZE + 4 + |b1|, source);
    OneDef(st.table, d, source);
    DataReadsBack(st.table, source, d, ws, pad2, packet, HEADER_SIZE + 8 + |b1|, HEADER_SIZE + 8 + |b1| + |b2|);
  }

  lemma WholeHolds(mem: seq<byte>)
    ensures Holds(mem, 0, mem)
  {
  }

  lemma OneDef(t: seq<Template>, d: TemplateDef, source: u32)
    ensures RegisterDefs(t, [d], source) == Register(t, d.id, source, d.fields)
  {
    assert [d][1..] == [];
  }

  lemma VisitedTwo(st: State, mem: seq<byte>, sets: seq<FlowSet>, source: u32)
    requires |sets| == 2
    ensures var p1 := HEADER_SIZE + 4 + |sets[0].body|;
            VisitAll(st, mem, HEADER_SIZE, sets, source)
            == Visit(Visit(st, mem, HEADER_SIZE + 4, p1, sets[0].id, source), mem, p1 + 4, p1 + 4 + |sets[1].body|,
                     sets[1].id, source)
  {
    hide Visit;
    var rest, p1 := sets[1..], HEADER_SIZE + 4 + |sets[0].body|;
    var st1 := Visit(st, mem, HEADER_SIZE + 4, p1, sets[0].id, source);
    assert rest[0] == sets[1] && rest[1..] == [];
    assert VisitAll(st1, mem, p1, rest, source)
        == Visit(st1, mem, p1 + 4, p1 + 4 + |rest[0].body|, rest[0].id, source);
  }

  lemma SetsHold(mem: seq<byte>, p: nat, sets: seq<FlowSet>)
    requires |sets| == 2 && Sized(sets[0]) && Sized(sets[1]) && Holds(mem, p, EncSets(sets))
    ensures Holds(mem, p + 4, sets[0].body) && Holds(mem, p + 8 + |sets[0].body|, sets[1].body)
  {
    hide Holds, Enc16;
    var rest := sets[1..];
    HoldsSplit(mem, p, EncSet(sets[0]), EncSets(rest));
    HoldsSplit(mem, p, Enc16(sets[0].id) + Enc16(|sets[0].body| + 4), sets[0].body);
    assert rest[0] == sets[1] && rest[1..] == [] && Sized(rest[0]);
    assert EncSets(rest) == EncSet(rest[0]) + EncSets(rest[1..]);
    HoldsSplit(mem, p + |EncSet(sets[0])|, EncSet(sets[1]), []);
    HoldsSplit(mem, p + |EncSet(sets[0])|, Enc16(sets[1].id) + Enc16(|sets[1].body| + 4), sets[1].body);
  }

  // ---- One packet too full ----

  const ONE_BYTE := TemplateDef(300, [Field(4, 1)])

  function Numbered(n: nat): (ws: seq<Wire>)
    requires n < 256
    ensures |ws| == n
  {
    seq(n, i requires 0 <= i < n => Wire(ZERO.(protocol := i + 1), [[]]))
  }

  lemma NumberedFit(n: nat)
    requires n < 256
    ensures Encodable(ONE_BYTE.fields, Numbered(n)) && RecordLength(ONE_BYTE.fields) == 1
    ensures forall i | 0 <= i < n :: |Numbered(n)[i].fill| == |ONE_BYTE.fields|
  {
    var fields := ONE_BYTE.fields;
    assert fields[1..] == [];
    assert Lists(fields, 4) by { assert fields[0].kind == 4; }
    forall i | 0 <= i < n ensures WellWired(fields, Numbered(n)[i].fill) && Covers(fields, Numbered(n)[i].rec) {
      forall k: u16 | Known(k) && !Lists(fields, k) ensures GetField(Numbered(n)[i].rec, k) == 0 {
        assert k != 4;
      }
    }
  }

  /** A version 9 packet with a template and seven records of one byte, the first packet received: six
      records are produced, the seventh is decoded and lost. */
  lemma SeventhRecordIsLost()
    ensures exists packet: seq<byte> :: SeventhLost(packet)
  {
    hide EncPacket, EncRecords, EncTemplates, Process, Register, Buffered, Encodable, RecordLength, SeventhLost, Read16;
    var rest: seq<byte> := [0, 9] + Zeros(14);
    var ws := Numbered(7);
    NumberedFit(7);
    ShortBodies(ws);
    var packet := EncPacket(rest, 0, ONE_BYTE, [], ws, []);
    PacketReadsBack(Init(), rest, 0, ONE_BYTE, [], ws, []);
    BufferKeepsAll([], Recs(ws));
    assert Process(Init(), packet, |packet|).1.buffer == ([] + Recs(ws))[..6];
    VersionNine(rest, 0, ONE_BYTE, [], ws, []);
    FirstSix(packet);
  }

  /** The program takes the packet; the records numbered one to six are produced, and number seven is
      neither produced nor left in the buffer, whether or not a flush is due. */
  ghost predicate SeventhLost(packet: seq<byte>) {
    Read16(packet, 0) == VERSION
    && forall due ::
         var (st, out) := Receive(Init(), Received(packet, |packet|, due));
         out == Recs(Numbered(6)) && Recs(Numbered(7))[6] !in out && st.buffer == []
  }

  lemma VersionNine(rest: seq<byte>, source: u32, d: TemplateDef, pad1: seq<byte>, ws: seq<Wire>, pad2: seq<byte>)
    requires |rest| == 16 && |d.fields| < 0x1_0000 && rest[..2] == [0, 9]
    requires forall i | 0 <= i < |ws| :: |ws[i].fill| == |d.fields|
    requires Sized(FlowSet(0, EncTemplates([d]) + pad1)) && Sized(FlowSet(d.id, EncRecords(d.fields, ws) + pad2))
    ensures Read16(EncPacket(rest, source, d, pad1, ws, pad2), 0) == VERSION
    ensures |EncPacket(rest, source, d, pad1, ws, pad2)| >= HEADER_SIZE
  {
    hide EncSets, EncTemplates, EncRecords, Enc32;
    var packet := EncPacket(rest, source, d, pad1, ws, pad2);
    assert packet[0] == rest[..2][0] && packet[1] == rest[..2][1];
  }

  lemma FirstSix(packet: seq<byte>)
    requires Read16(packet, 0) == VERSION && |packet| >= HEADER_SIZE
    requires Process(Init(), packet, |packet|).1.buffer == ([] + Recs(Numbered(7)))[..6]
    ensures SeventhLost(packet)
  {
    hide Process, Read16;
    Accepted(Init(), packet);
    var all := Recs(Numbered(7));
    assert [] + all == all && all[..6] == Recs(Numbered(6));
  }

  lemma Accepted(st: State, packet: seq<byte>)
    requires |packet| >= HEADER_SIZE
    ensures Process(st, packet, |packet|).0
  {
    hide Walk, Read32;
  }

  lemma ShortBodies(ws: seq<Wire>)
    requires ws == Numbered(7) && forall i | 0 <= i < |ws| :: |ws[i].fill| == |ONE_BYTE.fields|
    ensures Sized(FlowSet(0, EncTemplates([ONE_BYTE]) + []))
            && Sized(FlowSet(300, EncRecords(ONE_BYTE.fields, ws) + []))
  {
    hide Encodable, EncRecords, EncFields, Enc16, Numbered;
    NumberedFit(7);
    OneByteEach(ws);
    EncFieldsLength(ONE_BYTE.fields);
    assert [ONE_BYTE][1..] == [];
  }

  lemma {:induction false} OneByteEach(ws: seq<Wire>)
    requires Encodable(ONE_BYTE.fields, ws) && forall i | 0 <= i < |ws| :: |ws[i].fill| == |ONE_BYTE.fields|
    ensures |EncRecords(ONE_BYTE.fields, ws)| == |ws|
  {
    hide WellWired, Covers, EncRecord;
    if ws != [] {
      NumberedFit(0);
      EncRecordLength(ONE_BYTE.fields, ws[0].rec, ws[0].fill);
      OneByteEach(ws[1..]);
    }
  }
}
