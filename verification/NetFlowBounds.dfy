/** What a packet may depend on: the table on its own bytes only, the records on its own bytes exactly
    when no field read reaches behind it. */
module NetFlowBounds {
  import opened Options
  import opened Bytes
  import opened NetFlow
  import opened NetFlowDecode

  // ---- Templates ----

  lemma Read16Agrees(a: seq<byte>, b: seq<byte>, len: nat, p: nat)
    requires Agree(a, b, 0, len) && p + 2 <= len
    ensures Read16(a, p) == Read16(b, p)
  {
    assert forall i | p <= i < p + 2 :: ByteAt(a, i) == ByteAt(b, i);
  }

  lemma Read32Agrees(a: seq<byte>, b: seq<byte>, len: nat, p: nat)
    requires Agree(a, b, 0, len) && p + 4 <= len
    ensures Read32(a, p) == Read32(b, p)
  {
    assert forall i | p <= i < p + 4 :: ByteAt(a, i) == ByteAt(b, i);
  }

  lemma {:induction false} FieldsAgree(a: seq<byte>, b: seq<byte>, len: nat, p: nat, n: nat)
    requires Agree(a, b, 0, len) && p + 4 * n <= len
    ensures ReadFields(a, p, n) == ReadFields(b, p, n)
    decreases n
  {
    hide Agree, Read16;
    if n > 0 {
      FieldsAgree(a, b, len, p, n - 1);
      Read16Agrees(a, b, len, p + 4 * (n - 1));
      Read16Agrees(a, b, len, p + 4 * (n - 1) + 2);
    }
  }

  lemma {:induction false} TemplatesAgree(t: seq<Template>, a: seq<byte>, b: seq<byte>, len: nat, p: nat, end: nat,
                                          source: u32)
    requires Agree(a, b, 0, len) && end <= len
    ensures ParseTemplates(t, a, p, end, source) == ParseTemplates(t, b, p, end, source)
    decreases end - p
  {
    hide Agree, Read16, ReadFields, Register;
    if p + 4 <= end {
      Read16Agrees(a, b, len, p);
      Read16Agrees(a, b, len, p + 2);
      var id, n: nat := Read16(a, p), Read16(a, p + 2);
      if p + 4 + n * 4 <= end {
        FieldsAgree(a, b, len, p + 4, n);
        TemplatesAgree(Register(t, id, source, ReadFields(a, p + 4, n)), a, b, len, p + 4 + n * 4, end, source);
      }
    }
  }

  // ---- Records ----

  /** Every field read of the record at p lies before len. */
  ghost predicate FieldsBefore(fields: seq<Field>, p: nat, len: nat) {
    forall k: u16 | Known(k) && LastOffset(fields, k).Some? :: p + LastOffset(fields, k).value + Width(k) <= len
  }

  ghost predicate RecordsBefore(fields: seq<Field>, p: nat, end: nat, len: nat)
    requires RecordLength(fields) > 0
    decreases end - p
  {
    p + RecordLength(fields) > end
    || (FieldsBefore(fields, p, len) && RecordsBefore(fields, p + RecordLength(fields), end, len))
  }

  lemma RecordAgrees(fields: seq<Field>, a: seq<byte>, b: seq<byte>, len: nat, p: nat)
    requires Agree(a, b, 0, len) && FieldsBefore(fields, p, len)
    ensures DecodeRecord(fields, a, p) == DecodeRecord(fields, b, p)
  {
    hide GetField, DecodeFields, ReadKind, LastOffset, Width;
    forall k: u16 | Known(k)
      ensures GetField(DecodeRecord(fields, a, p), k) == GetField(DecodeRecord(fields, b, p), k)
    {
      DecodesLastOccurrence(ZERO, fields, a, p, k);
      DecodesLastOccurrence(ZERO, fields, b, p, k);
      if LastOffset(fields, k).Some? {
        SameReads(a, b, 0, len, k, p + LastOffset(fields, k).value);
      }
    }
    SameFields(DecodeRecord(fields, a, p), DecodeRecord(fields, b, p));
  }

  lemma {:induction false} RecordsAgree(fields: seq<Field>, a: seq<byte>, b: seq<byte>, len: nat, p: nat, end: nat)
    requires RecordLength(fields) > 0 && Agree(a, b, 0, len) && RecordsBefore(fields, p, end, len)
    ensures DecodeRecords(fields, a, p, end) == DecodeRecords(fields, b, p, end)
    decreases end - p
  {
    hide Agree, DecodeRecord, FieldsBefore, RecordLength;
    if p + RecordLength(fields) <= end {
      RecordAgrees(fields, a, b, len, p);
      RecordsAgree(fields, a, b, len, p + RecordLength(fields), end);
    }
  }

  /** A record that reads past s is not the same with ones behind it as with zeros. */
  lemma RecordShows(fields: seq<Field>, s: seq<byte>, p: nat)
    requires p + RecordLength(fields) <= |s|
    requires DecodeRecord(fields, Followed(s, 0), p) == DecodeRecord(fields, Followed(s, 1), p)
    ensures FieldsBefore(fields, p, |s|)
  {
    hide GetField, DecodeFields, ReadKind, LastOffset, Width, RecordLength, Followed;
    forall k: u16 | Known(k) && LastOffset(fields, k).Some?
      ensures p + LastOffset(fields, k).value + Width(k) <= |s|
    {
      DecodesLastOccurrence(ZERO, fields, Followed(s, 0), p, k);
      DecodesLastOccurrence(ZERO, fields, Followed(s, 1), p, k);
      OffsetInRecord(fields, k);
      if p + LastOffset(fields, k).value + Width(k) > |s| {
        FollowedShows(k, s, p + LastOffset(fields, k).value);
      }
    }
  }

  lemma {:induction false} RecordsShow(fields: seq<Field>, s: seq<byte>, p: nat, end: nat)
    requires RecordLength(fields) > 0 && end <= |s|
    requires DecodeRecords(fields, Followed(s, 0), p, end) == DecodeRecords(fields, Followed(s, 1), p, end)
    ensures RecordsBefore(fields, p, end, |s|)
    decreases end - p
  {
    hide DecodeRecord, FieldsBefore, RecordLength, Followed;
    if p + RecordLength(fields) <= end {
      var a, b := Followed(s, 0), Followed(s, 1);
      var q := p + RecordLength(fields);
      Apart([DecodeRecord(fields, a, p)], DecodeRecords(fields, a, q, end),
            [DecodeRecord(fields, b, p)], DecodeRecords(fields, b, q, end));
      assert [DecodeRecord(fields, a, p)][0] == [DecodeRecord(fields, b, p)][0];
      RecordShows(fields, s, p);
      RecordsShow(fields, s, q, end);
    }
  }

  lemma Apart<T>(x: seq<T>, y: seq<T>, x': seq<T>, y': seq<T>)
    requires x + y == x' + y' && |x| == |x'|
    ensures x == x' && y == y'
  {
    assert (x + y)[..|x|] == x && (x' + y')[..|x|] == x';
    assert (x + y)[|x|..] == y && (x' + y')[|x|..] == y';
  }

  lemma {:induction false} SameCount(fields: seq<Field>, a: seq<byte>, b: seq<byte>, p: nat, end: nat)
    requires RecordLength(fields) > 0
    ensures |DecodeRecords(fields, a, p, end)| == |DecodeRecords(fields, b, p, end)|
    decreases end - p
  {
    hide DecodeRecord, RecordLength;
    if p + RecordLength(fields) <= end {
      SameCount(fields, a, b, p + RecordLength(fields), end);
    }
  }

  lemma {:induction false} InsideIsBefore(fields: seq<Field>, p: nat, end: nat, len: nat)
    requires RecordLength(fields) > 0 && ReadsInside(fields) && end <= len
    ensures RecordsBefore(fields, p, end, len)
    decreases end - p
  {
    hide RecordLength, LastOffset, Width;
    if p + RecordLength(fields) <= end {
      InsideIsBefore(fields, p + RecordLength(fields), end, len);
    }
  }

  // ---- Packets ----

  /** The table one FlowSet leaves. */
  function NextTable(t: seq<Template>, mem: seq<byte>, p: nat, end: nat, id: u16, source: u32): seq<Template> {
    if id == 0 then ParseTemplates(t, mem, p, end, source) else t
  }

  /** The records one FlowSet yields, before the buffer takes what fits. */
  function SetRecords(t: seq<Template>, mem: seq<byte>, p: nat, end: nat, id: u16, source: u32): seq<FlowRecord> {
    if id > 255 then DataRecords(t, mem, p, end, id, source) else []
  }

  function WalkRecords(t: seq<Template>, mem: seq<byte>, p: nat, end: nat, source: u32): seq<FlowRecord>
    decreases end - p
  {
    if p + 4 > end then []
    else
      var id, length := Read16(mem, p), Read16(mem, p + 2);
      if length < 4 || p + length > end then []
      else
        SetRecords(t, mem, p + 4, p + length, id, source)
        + WalkRecords(NextTable(t, mem, p + 4, p + length, id, source), mem, p + length, end, source)
  }

  /** All records a packet yields. */
  function PacketRecords(t: seq<Template>, mem: seq<byte>, len: nat): seq<FlowRecord> {
    if len < HEADER_SIZE then [] else WalkRecords(t, mem, HEADER_SIZE, len, Read32(mem, 16))
  }

  lemma {:induction false} BufferedSplit(buffer: seq<FlowRecord>, xs: seq<FlowRecord>, ys: seq<FlowRecord>)
    ensures Buffered(buffer, xs + ys) == Buffered(Buffered(buffer, xs), ys)
    decreases |xs|
  {
    if xs == [] {
      assert xs + ys == ys;
    } else {
      assert (xs + ys)[1..] == xs[1..] + ys;
      BufferedSplit(if |buffer| < MAX_BATCH_SIZE then buffer + [xs[0]] else buffer, xs[1..], ys);
    }
  }

  lemma {:induction false} WalkBuffers(st: State, mem: seq<byte>, p: nat, end: nat, source: u32)
    ensures Walk(st, mem, p, end, source).buffer == Buffered(st.buffer, WalkRecords(st.table, mem, p, end, source))
    decreases end - p
  {
    hide Read16, Buffered, ParseTemplates, DataRecords;
    NothingBuffered(st.buffer);
    if p + 4 <= end {
      var id, length := Read16(mem, p), Read16(mem, p + 2);
      if !(length < 4 || p + length > end) {
        var next := Visit(st, mem, p + 4, p + length, id, source);
        WalkBuffers(next, mem, p + length, end, source);
        BufferedSplit(st.buffer, SetRecords(st.table, mem, p + 4, p + length, id, source),
                      WalkRecords(next.table, mem, p + length, end, source));
      }
    }
  }

  lemma NothingBuffered(buffer: seq<FlowRecord>)
    ensures Buffered(buffer, []) == buffer
  {
  }

  /** The buffer after a packet: its records, as far as there is room. */
  lemma PacketBuffers(st: State, mem: seq<byte>, len: nat)
    ensures Process(st, mem, len).1.buffer == Buffered(st.buffer, PacketRecords(st.table, mem, len))
  {
    hide Walk, WalkRecords, Read32;
    NothingBuffered(st.buffer);
    if len >= HEADER_SIZE {
      WalkBuffers(st, mem, HEADER_SIZE, len, Read32(mem, 16));
    }
  }

  /** Every record of a data FlowSet reads before len. */
  ghost predicate SetBefore(t: seq<Template>, p: nat, end: nat, id: u16, source: u32, len: nat) {
    var i := FindTemplate(t, id, source);
    id > 255 && i < |t| && RecordLength(t[i].fields) > 0 ==> RecordsBefore(t[i].fields, p, end, len)
  }

  /** Every template a data FlowSet uses reads inside its record. */
  ghost predicate SetInside(t: seq<Template>, id: u16, source: u32) {
    var i := FindTemplate(t, id, source);
    id > 255 && i < |t| ==> ReadsInside(t[i].fields)
  }

  ghost predicate WalkBefore(t: seq<Template>, mem: seq<byte>, p: nat, end: nat, source: u32, len: nat)
    decreases end - p
  {
    p + 4 <= end ==>
      var id, length := Read16(mem, p), Read16(mem, p + 2);
      length >= 4 && p + length <= end ==>
        && SetBefore(t, p + 4, p + length, id, source, len)
        && WalkBefore(NextTable(t, mem, p + 4, p + length, id, source), mem, p + length, end, source, len)
  }

  ghost predicate WalkInside(t: seq<Template>, mem: seq<byte>, p: nat, end: nat, source: u32)
    decreases end - p
  {
    p + 4 <= end ==>
      var id, length := Read16(mem, p), Read16(mem, p + 2);
      length >= 4 && p + length <= end ==>
        && SetInside(t, id, source)
        && WalkInside(NextTable(t, mem, p + 4, p + length, id, source), mem, p + length, end, source)
  }

  /** No record of the packet reads behind it. */
  ghost predicate PacketBefore(t: seq<Template>, mem: seq<byte>, len: nat) {
    len >= HEADER_SIZE ==> WalkBefore(t, mem, HEADER_SIZE, len, Read32(mem, 16), len)
  }

  /** Every data FlowSet of the packet uses a template whose fields read inside the record. */
  ghost predicate PacketInside(t: seq<Template>, mem: seq<byte>, len: nat) {
    len >= HEADER_SIZE ==> WalkInside(t, mem, HEADER_SIZE, len, Read32(mem, 16))
  }

  lemma NextTableAgrees(t: seq<Template>, a: seq<byte>, b: seq<byte>, len: nat, p: nat, end: nat, id: u16, source: u32)
    requires Agree(a, b, 0, len) && end <= len
    ensures NextTable(t, a, p, end, id, source) == NextTable(t, b, p, end, id, source)
  {
    hide Agree, ParseTemplates;
    TemplatesAgree(t, a, b, len, p, end, source);
  }

  lemma {:induction false} WalkTableAgrees(x: State, y: State, a: seq<byte>, b: seq<byte>, len: nat, p: nat, end: nat,
                                           source: u32)
    requires Agree(a, b, 0, len) && end <= len && x.table == y.table
    ensures Walk(x, a, p, end, source).table == Walk(y, b, p, end, source).table
    decreases end - p
  {
    hide Agree, Read16, ParseTemplates, DataRecords, Buffered;
    if p + 4 <= end {
      Read16Agrees(a, b, len, p);
      Read16Agrees(a, b, len, p + 2);
      var id, length := Read16(a, p), Read16(a, p + 2);
      if !(length < 4 || p + length > end) {
        NextTableAgrees(x.table, a, b, len, p + 4, p + length, id, source);
        WalkTableAgrees(Visit(x, a, p + 4, p + length, id, source), Visit(y, b, p + 4, p + length, id, source),
                        a, b, len, p + length, end, source);
      }
    }
  }

  /** The walk stays in the packet: the table it leaves, and whether it is accepted, depend on the
      packet's own bytes, whatever lies behind it. */
  lemma TableStaysInPacket(st: State, a: seq<byte>, b: seq<byte>, len: nat)
    requires Agree(a, b, 0, len)
    ensures Process(st, a, len).0 == Process(st, b, len).0
    ensures Process(st, a, len).1.table == Process(st, b, len).1.table
  {
    hide Agree, Walk, Read32;
    if len >= HEADER_SIZE {
      Read32Agrees(a, b, len, 16);
      WalkTableAgrees(st, st, a, b, len, HEADER_SIZE, len, Read32(a, 16));
    }
  }

  lemma SetAgrees(t: seq<Template>, a: seq<byte>, b: seq<byte>, len: nat, p: nat, end: nat, id: u16, source: u32)
    requires Agree(a, b, 0, len) && SetBefore(t, p, end, id, source, len)
    ensures SetRecords(t, a, p, end, id, source) == SetRecords(t, b, p, end, id, source)
  {
    hide Agree, DecodeRecords, RecordLength, RecordsBefore;
    var i := FindTemplate(t, id, source);
    if id > 255 && i < |t| && RecordLength(t[i].fields) > 0 {
      RecordsAgree(t[i].fields, a, b, len, p, end);
    }
  }

  lemma {:induction false} WalkRecordsAgree(t: seq<Template>, a: seq<byte>, b: seq<byte>, len: nat, p: nat, end: nat,
                                            source: u32)
    requires Agree(a, b, 0, len) && end <= len && WalkBefore(t, a, p, end, source, len)
    ensures WalkRecords(t, a, p, end, source) == WalkRecords(t, b, p, end, source)
    decreases end - p
  {
    hide Agree, Read16, NextTable, SetRecords, SetBefore;
    if p + 4 <= end {
      Read16Agrees(a, b, len, p);
      Read16Agrees(a, b, len, p + 2);
      var id, length := Read16(a, p), Read16(a, p + 2);
      if !(length < 4 || p + length > end) {
        SetAgrees(t, a, b, len, p + 4, p + length, id, source);
        NextTableAgrees(t, a, b, len, p + 4, p + length, id, source);
        WalkRecordsAgree(NextTable(t, a, p + 4, p + length, id, source), a, b, len, p + length, end, source);
      }
    }
  }

  /** Whether records read behind the packet is itself told by the packet's bytes. */
  lemma {:induction false} WalkBeforeAgrees(t: seq<Template>, a: seq<byte>, b: seq<byte>, len: nat, p: nat, end: nat,
                                            source: u32)
    requires Agree(a, b, 0, len) && end <= len
    ensures WalkBefore(t, a, p, end, source, len) <==> WalkBefore(t, b, p, end, source, len)
    decreases end - p
  {
    hide Agree, Read16, NextTable, SetBefore;
    if p + 4 <= end {
      Read16Agrees(a, b, len, p);
      Read16Agrees(a, b, len, p + 2);
      var id, length := Read16(a, p), Read16(a, p + 2);
      if !(length < 4 || p + length > end) {
        NextTableAgrees(t, a, b, len, p + 4, p + length, id, source);
        WalkBeforeAgrees(NextTable(t, a, p + 4, p + length, id, source), a, b, len, p + length, end, source);
      }
    }
  }

  lemma SetShows(t: seq<Template>, s: seq<byte>, p: nat, end: nat, id: u16, source: u32)
    requires end <= |s|
    requires SetRecords(t, Followed(s, 0), p, end, id, source) == SetRecords(t, Followed(s, 1), p, end, id, source)
    ensures SetBefore(t, p, end, id, source, |s|)
  {
    hide Followed, DecodeRecords, RecordLength, RecordsBefore;
    var i := FindTemplate(t, id, source);
    if id > 255 && i < |t| && RecordLength(t[i].fields) > 0 {
      RecordsShow(t[i].fields, s, p, end);
    }
  }

  lemma SetCount(t: seq<Template>, a: seq<byte>, b: seq<byte>, p: nat, end: nat, id: u16, source: u32)
    ensures |SetRecords(t, a, p, end, id, source)| == |SetRecords(t, b, p, end, id, source)|
  {
    hide DecodeRecords, RecordLength;
    var i := FindTemplate(t, id, source);
    if id > 255 && i < |t| && RecordLength(t[i].fields) > 0 {
      SameCount(t[i].fields, a, b, p, end);
    }
  }

  lemma {:induction false} WalkShows(t: seq<Template>, s: seq<byte>, p: nat, end: nat, source: u32)
    requires end <= |s|
    requires WalkRecords(t, Followed(s, 0), p, end, source) == WalkRecords(t, Followed(s, 1), p, end, source)
    ensures WalkBefore(t, Followed(s, 0), p, end, source, |s|)
    decreases end - p
  {
    hide Followed, Agree, Read16, NextTable, SetRecords, SetBefore;
    if p + 4 <= end {
      var a, b := Followed(s, 0), Followed(s, 1);
      FollowedAgree(s);
      Read16Agrees(a, b, |s|, p);
      Read16Agrees(a, b, |s|, p + 2);
      var id, length := Read16(a, p), Read16(a, p + 2);
      if !(length < 4 || p + length > end) {
        NextTableAgrees(t, a, b, |s|, p + 4, p + length, id, source);
        SetCount(t, a, b, p + 4, p + length, id, source);
        var u := NextTable(t, a, p + 4, p + length, id, source);
        Apart(SetRecords(t, a, p + 4, p + length, id, source), WalkRecords(u, a, p + length, end, source),
              SetRecords(t, b, p + 4, p + length, id, source), WalkRecords(u, b, p + length, end, source));
        SetShows(t, s, p + 4, p + length, id, source);
        WalkShows(u, s, p + length, end, source);
      }
    }
  }

  lemma PacketRecordsAgree(t: seq<Template>, a: seq<byte>, b: seq<byte>, len: nat)
    requires Agree(a, b, 0, len) && PacketBefore(t, a, len)
    ensures PacketRecords(t, a, len) == PacketRecords(t, b, len)
  {
    hide Agree, WalkRecords, WalkBefore, Read32;
    if len >= HEADER_SIZE {
      Read32Agrees(a, b, len, 16);
      WalkRecordsAgree(t, a, b, len, HEADER_SIZE, len, Read32(a, 16));
    }
  }

  lemma PacketShows(t: seq<Template>, s: seq<byte>, mem: seq<byte>)
    requires |s| <= |mem| && s == mem[..|s|]
    requires PacketRecords(t, Followed(s, 0), |s|) == PacketRecords(t, Followed(s, 1), |s|)
    ensures PacketBefore(t, mem, |s|)
  {
    hide Followed, WalkRecords, WalkBefore, Read32;
    var a := Followed(s, 0);
    if |s| >= HEADER_SIZE {
      FollowedAgree(s);
      FrontAgrees(s, 0, mem);
      Read32Agrees(a, Followed(s, 1), |s|, 16);
      Read32Agrees(a, mem, |s|, 16);
      WalkShows(t, s, HEADER_SIZE, |s|, Read32(a, 16));
      WalkBeforeAgrees(t, a, mem, |s|, HEADER_SIZE, |s|, Read32(a, 16));
    }
  }

  lemma FrontAgrees(s: seq<byte>, x: byte, mem: seq<byte>)
    requires |s| <= |mem| && s == mem[..|s|]
    ensures Agree(Followed(s, x), mem, 0, |s|) && Agree(mem, Followed(s, x), 0, |s|)
  {
  }

  /** The records of a packet depend on its own bytes exactly when none of them reads behind it. */
  lemma RecordsStayInPacket(t: seq<Template>, mem: seq<byte>, len: nat)
    requires len <= |mem|
    ensures PacketBefore(t, mem, len) <==>
              forall other | len <= |other| && Agree(mem, other, 0, len) ::
                PacketRecords(t, mem, len) == PacketRecords(t, other, len)
  {
    hide Agree, PacketBefore, PacketRecords, Followed;
    if PacketBefore(t, mem, len) {
      forall other | Agree(mem, other, 0, len) ensures PacketRecords(t, mem, len) == PacketRecords(t, other, len) {
        PacketRecordsAgree(t, mem, other, len);
      }
    }
    if forall other | len <= |other| && Agree(mem, other, 0, len) ::
         PacketRecords(t, mem, len) == PacketRecords(t, other, len) {
      var s := mem[..len];
      FrontAgrees(s, 0, mem);
      FrontAgrees(s, 1, mem);
      PacketShows(t, s, mem);
    }
  }

  lemma {:induction false} WalkInsideIsBefore(t: seq<Template>, mem: seq<byte>, p: nat, end: nat, source: u32, len: nat)
    requires end <= len && WalkInside(t, mem, p, end, source)
    ensures WalkBefore(t, mem, p, end, source, len)
    decreases end - p
  {
    hide Read16, NextTable, RecordsBefore, ReadsInside, RecordLength;
    if p + 4 <= end {
      var id, length := Read16(mem, p), Read16(mem, p + 2);
      if !(length < 4 || p + length > end) {
        var i := FindTemplate(t, id, source);
        if id > 255 && i < |t| && RecordLength(t[i].fields) > 0 {
          InsideIsBefore(t[i].fields, p + 4, p + length, len);
        }
        WalkInsideIsBefore(NextTable(t, mem, p + 4, p + length, id, source), mem, p + length, end, source, len);
      }
    }
  }

  /** With templates that read inside their records no record reads behind the packet, and then table
      and buffer depend on its own bytes alone. */
  lemma StateStaysInPacket(st: State, a: seq<byte>, b: seq<byte>, len: nat)
    requires Agree(a, b, 0, len)
    ensures PacketInside(st.table, a, len) ==> PacketBefore(st.table, a, len)
    ensures PacketBefore(st.table, a, len) ==> Process(st, a, len) == Process(st, b, len)
  {
    hide Agree, Process, PacketRecords, WalkBefore, WalkInside, Buffered, Read32;
    if len >= HEADER_SIZE && PacketInside(st.table, a, len) {
      WalkInsideIsBefore(st.table, a, HEADER_SIZE, len, Read32(a, 16), len);
    }
    TableStaysInPacket(st, a, b, len);
    PacketBuffers(st, a, len);
    PacketBuffers(st, b, len);
    if PacketBefore(st.table, a, len) {
      PacketRecordsAgree(st.table, a, b, len);
    }
  }

  // ---- A packet that is read behind ----

  /** A version 9 packet: a template that gives the byte count one byte, and one record of it. The
      decoder takes three more bytes, from behind the packet. */
  const SHORT_FIELDS := [Field(1, 1)]
  const SHORT_SETS: seq<byte> := [0, 0, 0, 12, 1, 44, 0, 1, 0, 1, 0, 1, 1, 44, 0, 5, 7]

  function ShortHeader(): (h: seq<byte>)
    ensures |h| == HEADER_SIZE && h[0] == 0 && h[1] == 9 && forall i | 2 <= i < HEADER_SIZE :: h[i] == 0
  {
    [0, 9] + Zeros(18)
  }

  function ShortCount(): (packet: seq<byte>)
    ensures |packet| == 37
  {
    ShortHeader() + SHORT_SETS
  }

  lemma ShortTemplate()
    ensures RecordLength(SHORT_FIELDS) == 1 && !ReadsInside(SHORT_FIELDS) && !FieldsBefore(SHORT_FIELDS, 36, 37)
  {
    assert SHORT_FIELDS[1..] == [];
    assert LastOffset(SHORT_FIELDS, 1) == Some(0) && Width(1) == 4;
  }

  lemma ShortHeaderRead()
    ensures Read16(ShortCount(), 0) == VERSION && Read32(ShortCount(), 16) == 0
  {
    hide ShortHeader;
    var mem, h := ShortCount(), ShortHeader();
    assert forall i | 0 <= i < HEADER_SIZE :: mem[i] == h[i];
  }

  lemma ShortSetRead(i: nat)
    requires i + 1 < |SHORT_SETS|
    ensures Read16(ShortCount(), HEADER_SIZE + i) == Be16(SHORT_SETS[i], SHORT_SETS[i + 1])
  {
    hide ShortHeader;
    var mem := ShortCount();
    assert mem[HEADER_SIZE + i] == SHORT_SETS[i] && mem[HEADER_SIZE + i + 1] == SHORT_SETS[i + 1];
  }

  lemma ShortRead()
    ensures var mem := ShortCount();
      && Read16(mem, 20) == 0 && Read16(mem, 22) == 12 && Read16(mem, 24) == 300 && Read16(mem, 26) == 1
      && ReadFields(mem, 28, 1) == SHORT_FIELDS && Read16(mem, 32) == 300 && Read16(mem, 34) == 5
  {
    hide Read16, ShortCount;
    ShortSetRead(0);
    ShortSetRead(2);
    ShortSetRead(4);
    ShortSetRead(6);
    ShortSetRead(8);
    ShortSetRead(10);
    ShortSetRead(12);
    ShortSetRead(14);
    assert ReadFields(ShortCount(), 28, 0) == [];
  }

  lemma ShortTable(t: seq<Template>)
    requires |t| == 2 && t[0].id == 256 && t[1].id == 256
    ensures Register(t, 300, 0, SHORT_FIELDS) == t + [Template(300, 0, SHORT_FIELDS)]
    ensures FindTemplate(t + [Template(300, 0, SHORT_FIELDS)], 300, 0) == 2
  {
    var u := t + [Template(300, 0, SHORT_FIELDS)];
    assert u[0] == t[0] && u[1] == t[1];
  }

  lemma StaticIds()
    ensures |Init().table| == 2 && Init().table[0].id == 256 && Init().table[1].id == 256
  {
  }

  /** The table the template FlowSet leaves. */
  lemma ShortRegistered()
    ensures var t := NextTable(Init().table, ShortCount(), 24, 32, 0, 0);
            |t| == 3 && t[2] == Template(300, 0, SHORT_FIELDS) && FindTemplate(t, 300, 0) == 2
  {
    hide Read16, ReadFields, ShortCount, Init, Register, FindTemplate;
    ShortRead();
    StaticIds();
    ShortTable(Init().table);
    var t := Register(Init().table, 300, 0, SHORT_FIELDS);
    assert ParseTemplates(t, ShortCount(), 32, 32, 0) == t;
  }

  lemma ShortSetReadsBehind(t: seq<Template>)
    requires |t| == 3 && t[2] == Template(300, 0, SHORT_FIELDS) && FindTemplate(t, 300, 0) == 2
    ensures !SetBefore(t, 36, 37, 300, 0, 37)
  {
    hide RecordLength, FieldsBefore;
    ShortTemplate();
    assert !RecordsBefore(SHORT_FIELDS, 36, 37, 37);
  }

  /** The first packet received: it reads behind itself, so two memories that hold it yield different
      records. */
  lemma ShortFieldReadsBehind()
    ensures Read16(ShortCount(), 0) == VERSION
    ensures !PacketBefore(Init().table, ShortCount(), |ShortCount()|)
    ensures exists other | |ShortCount()| <= |other| && Agree(ShortCount(), other, 0, |ShortCount()|) ::
              PacketRecords(Init().table, ShortCount(), |ShortCount()|)
              != PacketRecords(Init().table, other, |ShortCount()|)
  {
    hide Read16, Read32, ReadFields, RecordLength, FieldsBefore, NextTable, ShortCount, SetBefore,
         PacketRecords, Agree, Init;
    ShortHeaderRead();
    ShortRead();
    ShortRegistered();
    var t := NextTable(Init().table, ShortCount(), 24, 32, 0, 0);
    ShortSetReadsBehind(t);
    assert !WalkBefore(t, ShortCount(), 32, 37, 0, 37);
    assert !WalkBefore(Init().table, ShortCount(), 20, 37, 0, 37);
    RecordsStayInPacket(Init().table, ShortCount(), |ShortCount()|);
  }
}
