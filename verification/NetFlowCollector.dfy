/** The collector as the program runs it: a fixed template table and a fixed record buffer. */
module NetFlowCollector {
  import opened Bytes
  import opened Sequences
  import opened NetFlow
  import opened NetFlowDecode
  import opened NetFlowBounds
  import opened NetFlowLayout

  lemma BufferedStep(buffer: seq<FlowRecord>, done: seq<FlowRecord>, r: FlowRecord)
    ensures Buffered(buffer, done + [r])
            == var b := Buffered(buffer, done); if |b| < MAX_BATCH_SIZE then b + [r] else b
    decreases |done|
  {
    if done == [] {
      assert done + [r] == [r] && [r][1..] == [];
    } else {
      assert (done + [r])[1..] == done[1..] + [r];
      BufferedStep(if |buffer| < MAX_BATCH_SIZE then buffer + [done[0]] else buffer, done[1..], r);
    }
  }

  lemma NoRecords(fields: seq<Field>, mem: seq<byte>, p: nat, end: nat)
    requires RecordLength(fields) > 0 && p + RecordLength(fields) > end
    ensures DecodeRecords(fields, mem, p, end) == []
  {
  }

  class Collector {
    const templates: array<Template>
    var templateCount: nat
    const jsonBuffer: array<FlowRecord>
    var jsonBufferCount: nat
    var produced: seq<FlowRecord>

    ghost predicate Valid()
      reads this
    {
      && templates.Length == MAX_TEMPLATES && templateCount <= MAX_TEMPLATES
      && jsonBuffer.Length == MAX_BATCH_SIZE && jsonBufferCount <= MAX_BATCH_SIZE
    }

    ghost function St(): State
      reads this, templates, jsonBuffer
      requires Valid()
    {
      State(templates[..templateCount], jsonBuffer[..jsonBufferCount])
    }

    constructor ()
      ensures Valid() && fresh(templates) && fresh(jsonBuffer)
      ensures St() == Init() && produced == []
    {
      templates := new Template[MAX_TEMPLATES](_ => Template(0, 0, []));
      jsonBuffer := new FlowRecord[MAX_BATCH_SIZE](_ => ZERO);
      templateCount, jsonBufferCount, produced := 0, 0, [];
      new;
      var overrun := InitializeStaticTemplate();
    }

    /** initialize_static_template: it looks for room for one template, and adds two. overrun: the
        second one falls outside the table. */
    method InitializeStaticTemplate() returns (overrun: bool)
      requires Valid()
      modifies this`templateCount, templates
      ensures Valid()
      ensures overrun <==> old(templateCount) == MAX_TEMPLATES - 1
      ensures var t, both := old(templates[..templateCount]), Init().table;
              templates[..templateCount]
              == if |t| >= MAX_TEMPLATES then t else if overrun then t + both[..1] else t + both
    {
      overrun := false;
      if templateCount >= MAX_TEMPLATES {
        return;
      }
      templates[templateCount] := Template(STATIC_TEMPLATE_ID, STATIC_SOURCES[0], STATIC_FIELDS);
      templateCount := templateCount + 1;
      if templateCount >= MAX_TEMPLATES {
        return true;
      }
      templates[templateCount] := Template(STATIC_TEMPLATE_ID, STATIC_SOURCES[1], STATIC_FIELDS);
      templateCount := templateCount + 1;
    }

    method GetTemplate(id: u16, source: u32) returns (i: nat)
      requires Valid()
      ensures i == FindTemplate(templates[..templateCount], id, source)
    {
      i := 0;
      while i < templateCount
        invariant i <= templateCount
        invariant forall k | 0 <= k < i :: !(templates[k].id == id && templates[k].source == source)
      {
        if templates[i].id == id && templates[i].source == source {
          return;
        }
        i := i + 1;
      }
    }

    method RegisterTemplate(id: u16, source: u32, fields: seq<Field>)
      requires Valid()
      modifies this`templateCount, templates
      ensures Valid()
      ensures templates[..templateCount] == Register(old(templates[..templateCount]), id, source, fields)
    {
      ghost var t := templates[..templateCount];
      var i := GetTemplate(id, source);
      if i < templateCount {
        templates[i] := templates[i].(fields := fields);
        assert templates[..templateCount] == t[i := templates[i]];
      } else if templateCount < MAX_TEMPLATES {
        templates[templateCount] := Template(id, source, fields);
        templateCount := templateCount + 1;
        assert templates[..templateCount] == t + [Template(id, source, fields)];
      }
    }

    method ParseTemplateFlowset(mem: seq<byte>, start: nat, end: nat, source: u32)
      requires Valid() && start <= end
      modifies this`templateCount, templates
      ensures Valid()
      ensures templates[..templateCount] == ParseTemplates(old(templates[..templateCount]), mem, start, end, source)
    {
      hide Register, Read16;
      var ptr := start;
      while ptr + 4 <= end
        invariant start <= ptr <= end && Valid()
        invariant ParseTemplates(templates[..templateCount], mem, ptr, end, source)
               == ParseTemplates(old(templates[..templateCount]), mem, start, end, source)
      {
        var id := Read16(mem, ptr);
        var fieldCount: nat := Read16(mem, ptr + 2);
        ptr := ptr + 4;
        if ptr + fieldCount * 4 > end {
          break;
        }
        var fields := [];
        ghost var first := ptr;
        for i := 0 to fieldCount
          invariant ptr == first + 4 * i && fields == ReadFields(mem, first, i)
        {
          fields := fields + [Field(Read16(mem, ptr), Read16(mem, ptr + 2))];
          ptr := ptr + 4;
        }
        RegisterTemplate(id, source, fields);
      }
    }

    method ParseDataFlowset(mem: seq<byte>, start: nat, end: nat, id: u16, source: u32)
      requires Valid() && start <= end
      modifies this`jsonBufferCount, jsonBuffer
      ensures Valid()
      ensures jsonBuffer[..jsonBufferCount]
              == Buffered(old(jsonBuffer[..jsonBufferCount]),
                          DataRecords(templates[..templateCount], mem, start, end, id, source))
    {
      hide DecodeRecords, FindTemplate;
      var t := GetTemplate(id, source);
      if t == templateCount {
        return;
      }
      var fields := templates[t].fields;
      var recordLen := LengthOf(fields);
      if recordLen == 0 {
        return;
      }
      if end - start < recordLen {
        NoRecords(fields, mem, start, end);
        return;
      }
      BufferRecords(fields, recordLen, mem, start, end);
    }

    /** The record loop of parse_data_flowset. */
    method BufferRecords(fields: seq<Field>, recordLen: nat, mem: seq<byte>, start: nat, end: nat)
      requires Valid() && start <= end && recordLen == RecordLength(fields) > 0
      modifies this`jsonBufferCount, jsonBuffer
      ensures Valid()
      ensures jsonBuffer[..jsonBufferCount]
              == Buffered(old(jsonBuffer[..jsonBufferCount]), DecodeRecords(fields, mem, start, end))
    {
      hide DecodeRecord, RecordLength, Buffered;
      ghost var before := jsonBuffer[..jsonBufferCount];
      ghost var done: seq<FlowRecord> := [];
      ghost var all := DecodeRecords(fields, mem, start, end);
      var ptr := start;
      NothingBuffered(before);
      while ptr + recordLen <= end
        invariant start <= ptr <= end && Valid()
        invariant all == done + DecodeRecords(fields, mem, ptr, end)
        invariant jsonBuffer[..jsonBufferCount] == Buffered(before, done)
      {
        var rec := DecodeOne(fields, mem, ptr);
        BufferedStep(before, done, rec);
        Assoc(done, [rec], DecodeRecords(fields, mem, ptr + recordLen, end));
        done := done + [rec];
        BufferRecord(rec);
        ptr := ptr + recordLen;
      }
      assert done + [] == done;
    }

    /** The bulk buffer takes the record if it has room. */
    method BufferRecord(rec: FlowRecord)
      requires Valid()
      modifies this`jsonBufferCount, jsonBuffer
      ensures Valid()
      ensures var b := old(jsonBuffer[..jsonBufferCount]);
              jsonBuffer[..jsonBufferCount] == if |b| < MAX_BATCH_SIZE then b + [rec] else b
    {
      if jsonBufferCount < MAX_BATCH_SIZE {
        jsonBuffer[jsonBufferCount] := rec;
        jsonBufferCount := jsonBufferCount + 1;
      }
    }

    /** process_netflow_v9. Whatever lies behind the packet, the table is the same; and so is the whole
        state when no record reads behind it. */
    method ProcessNetflowV9(mem: seq<byte>, len: nat) returns (ok: bool)
      requires Valid()
      modifies this`templateCount, this`jsonBufferCount, templates, jsonBuffer
      ensures Valid() && (ok, St()) == Process(old(St()), mem, len)
      ensures forall other | Agree(mem, other, 0, len) :: St().table == Process(old(St()), other, len).1.table
      ensures PacketBefore(old(St()).table, mem, len) ==>
                forall other | Agree(mem, other, 0, len) :: St() == Process(old(St()), other, len).1
    {
      hide Process, PacketBefore, Agree;
      ghost var st := St();
      ok := WalkPacket(mem, len);
      forall other | Agree(mem, other, 0, len)
        ensures St().table == Process(st, other, len).1.table
        ensures PacketBefore(st.table, mem, len) ==> St() == Process(st, other, len).1
      {
        TableStaysInPacket(st, mem, other, len);
        StateStaysInPacket(st, mem, other, len);
      }
    }

    /** The header check and the FlowSet loop. */
    method WalkPacket(mem: seq<byte>, len: nat) returns (ok: bool)
      requires Valid()
      modifies this`templateCount, this`jsonBufferCount, templates, jsonBuffer
      ensures Valid() && (ok, St()) == Process(old(St()), mem, len)
    {
      hide Read16, ParseTemplates, DataRecords, Buffered;
      if len < HEADER_SIZE {
        return false;
      }
      var source := Read32(mem, 16);
      var ptr := HEADER_SIZE;
      while ptr + 4 <= len
        invariant HEADER_SIZE <= ptr <= len && Valid()
        invariant Walk(St(), mem, ptr, len, source) == Walk(old(St()), mem, HEADER_SIZE, len, source)
      {
        var id := Read16(mem, ptr);
        var length := Read16(mem, ptr + 2);
        if length < 4 || ptr + length > len {
          break;
        }
        VisitFlowset(mem, ptr + 4, ptr + length, id, source);
        ptr := ptr + length;
      }
      return true;
    }

    method VisitFlowset(mem: seq<byte>, start: nat, end: nat, id: u16, source: u32)
      requires Valid() && start <= end
      modifies this`templateCount, this`jsonBufferCount, templates, jsonBuffer
      ensures Valid() && St() == Visit(old(St()), mem, start, end, id, source)
    {
      hide ParseTemplates, DataRecords, Buffered;
      if id == 0 {
        ParseTemplateFlowset(mem, start, end, source);
        assert jsonBuffer[..jsonBufferCount] == old(jsonBuffer[..jsonBufferCount]);
      } else if id > 255 {
        ParseDataFlowset(mem, start, end, id, source);
        assert templates[..templateCount] == old(templates[..templateCount]);
      }
    }

    /** The body of main's loop, after recvfrom. */
    method ReceivePacket(r: Received)
      requires Valid()
      modifies this`templateCount, this`jsonBufferCount, this`produced, templates, jsonBuffer
      ensures Valid()
      ensures var (next, out) := Receive(old(St()), r); St() == next && produced == old(produced) + out
    {
      hide Read16, Process;
      if Read16(r.mem, 0) != VERSION {
        return;
      }
      var ok := WalkPacket(r.mem, r.len);
      if !ok {
        ShortIsRefused(old(St()), r.mem, r.len);
        return;
      }
      if jsonBufferCount >= MAX_BATCH_SIZE || r.due {
        FlushKafkaBulk();
      }
    }

    /** flush_kafka_bulk: everything buffered goes out, in order. */
    method FlushKafkaBulk()
      requires Valid()
      modifies this`jsonBufferCount, this`produced
      ensures Valid() && produced == old(produced + St().buffer) && St() == old(St()).(buffer := [])
    {
      var i := 0;
      while i < jsonBufferCount
        invariant 0 <= i <= jsonBufferCount && Valid()
        invariant templates[..templateCount] == old(templates[..templateCount])
        invariant jsonBuffer[..jsonBufferCount] == old(jsonBuffer[..jsonBufferCount])
        invariant produced == old(produced) + jsonBuffer[..i]
      {
        assert jsonBuffer[..i + 1] == jsonBuffer[..i] + [jsonBuffer[i]];
        produced := produced + [jsonBuffer[i]];
        i := i + 1;
      }
      jsonBufferCount := 0;
      assert jsonBuffer[..jsonBufferCount] == [];
    }
  }

  method LengthOf(fields: seq<Field>) returns (n: nat)
    ensures n == RecordLength(fields)
  {
    n := 0;
    var i := 0;
    while i < |fields|
      invariant 0 <= i <= |fields|
      invariant n + RecordLength(fields[i..]) == RecordLength(fields)
    {
      assert fields[i..][1..] == fields[i + 1..];
      n := n + fields[i].length;
      i := i + 1;
    }
    assert fields[i..] == [];
  }

  /** The field loop over one record. */
  method DecodeOne(fields: seq<Field>, mem: seq<byte>, ptr: nat) returns (rec: FlowRecord)
    ensures rec == DecodeRecord(fields, mem, ptr)
  {
    hide Read16, Read32, ByteAt, SetField;
    rec := ZERO;
    var recPtr: nat := ptr;
    var i := 0;
    while i < |fields|
      invariant 0 <= i <= |fields|
      invariant DecodeFields(rec, fields[i..], mem, recPtr) == DecodeRecord(fields, mem, ptr)
    {
      assert fields[i..][1..] == fields[i + 1..] && fields[i..][0] == fields[i];
      rec := SetField(rec, fields[i].kind, mem, recPtr);
      recPtr := recPtr + fields[i].length;
      i := i + 1;
    }
    assert fields[i..] == [];
  }
}
