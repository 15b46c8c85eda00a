/** The decoder as the program runs it: a cursor over each nested block, one read after another. */
module SFlowReader {
  import opened Options
  import opened Bytes
  import opened Sequences
  import opened SFlowPacket
  import opened SFlow

  class Reader {
    const data: seq<byte>
    var pos: nat

    ghost predicate Valid()
      reads this
    {
      pos <= |data|
    }

    ghost function Rest(): seq<byte>
      reads this
      requires Valid()
    {
      data[pos..]
    }

    constructor (data: seq<byte>)
      ensures Valid() && this.data == data && pos == 0 && Rest() == data
    {
      this.data := data;
      pos := 0;
    }

    method Remaining() returns (n: nat)
      requires Valid()
      ensures n == |Rest()|
    {
      n := |data| - pos;
    }

    /** A failed read leaves the cursor where it was. */
    method ReadUint32() returns (r: Result<u32>)
      requires Valid()
      modifies this`pos
      ensures Valid()
      ensures old(pos) + 4 > |data| ==> r == Err(Truncated) && pos == old(pos)
      ensures old(pos) + 4 <= |data| ==> r == Ok(WordAt(data, old(pos))) && pos == old(pos) + 4
    {
      var n := Remaining();
      if n < 4 {
        return Err(Truncated);
      }
      r := Ok(Be32(data[pos], data[pos + 1], data[pos + 2], data[pos + 3]));
      pos := pos + 4;
    }

    method ReadBytes(length: int) returns (r: Result<seq<byte>>)
      requires Valid()
      modifies this`pos
      ensures Valid()
      ensures length < 0 ==> r == Err(NegativeLength) && pos == old(pos)
      ensures length >= 0 && old(pos) + length > |data| ==> r == Err(Truncated) && pos == old(pos)
      ensures length >= 0 && old(pos) + length <= |data|
              ==> r == Ok(data[old(pos)..old(pos) + length]) && pos == old(pos) + length
    {
      if length < 0 {
        return Err(NegativeLength);
      }
      var n := Remaining();
      if n < length {
        return Err(Truncated);
      }
      r := Ok(data[pos..pos + length]);
      pos := pos + length;
    }
  }

  method DecodeRawPacket(data: seq<byte>) returns (res: Result<RawPacket>)
    ensures res == ParseRawPacket(data)
  {
    hide WordAt;
    var r := new Reader(data);
    var protocol :- r.ReadUint32();
    var frameLength :- r.ReadUint32();
    var stripped :- r.ReadUint32();
    var headerLength :- r.ReadUint32();
    var header :- r.ReadBytes(headerLength);
    return Ok(RawPacket(protocol, frameLength, stripped, headerLength, header));
  }

  /** The word, length and bytes every record and sample starts with. */
  method ReadBlock(r: Reader) returns (res: Result<(u32, seq<byte>)>)
    requires r.Valid()
    modifies r`pos
    ensures r.Valid()
    ensures match ParseBlock(old(r.Rest()))
            case Ok((block, rest)) => res == Ok(block) && r.Rest() == rest
            case Err(e) => res == Err(e)
    ensures res.Ok? ==> |res.value.1| < 0x1_0000_0000
  {
    ghost var s := r.Rest();
    ghost var p := r.pos;
    var word :- r.ReadUint32();
    var length :- r.ReadUint32();
    assert WordAt(s, 0) == word && WordAt(s, 4) == length;
    var body :- r.ReadBytes(length);
    assert body == s[8..8 + |body|] && r.data[r.pos..] == s[8 + |body|..];
    return Ok((word, body));
  }

  /** One flow record, and the flow it yields if any. */
  method DecodeFlowRecord(r: Reader, c: Context) returns (res: Result<(FlowRecord, Option<Flow>)>)
    requires r.Valid()
    modifies r`pos
    ensures r.Valid()
    ensures match ParseFlowRecord(old(r.Rest()))
            case Ok((record, rest)) =>
              && res.Ok? && res.value.0 == record && r.Rest() == rest
              && RecordFlows(record, c) == (match res.value.1 case Some(f) => [f] case None => [])
            case Err(e) => res == Err(e)
  {
    hide ParseBlock, ParseRawPacket, ParseFrame;
    var block :- ReadBlock(r);
    var (word, recordData) := block;
    var enterprise, format := word / 0x1000, word % 0x1000;
    var record := FlowRecord(enterprise, format, |recordData|, None, recordData);
    if enterprise != 0 || format != FLOW_RECORD_RAW_PACKET {
      return Ok((record, None));
    }
    var rawPacket :- DecodeRawPacket(recordData);
    record := record.(rawPacket := Some(rawPacket));
    var network := ParseNetworkPacket(rawPacket.header);
    if network.None? {
      return Ok((record, None));
    }
    var flow := Flow(c.agentIp, c.agentIp, network.value, c.input, c.output, rawPacket.frameLength, 1,
                     c.samplingRate, c.uptime, c.receivedAt);
    return Ok((record, Some(flow)));
  }

  // ---- Lists ----

  /** What a loop has already found, before what is still to be parsed. */
  ghost function After<T>(done: seq<T>, more: Parsed<seq<T>>): Parsed<seq<T>> {
    match more
    case Ok((xs, end)) => Ok((done + xs, end))
    case Err(e) => Err(e)
  }

  lemma AfterNone<T>(more: Parsed<seq<T>>)
    ensures After([], more) == more
  {
    if more.Ok? {
      assert [] + more.value.0 == more.value.0;
    }
  }

  lemma ManyStep<T>(parse: seq<byte> -> Parsed<T>, s: seq<byte>, n: nat, done: seq<T>)
    requires n > 0
    ensures match parse(s)
            case Ok((x, rest)) => After(done, Many(parse, s, n)) == After(done + [x], Many(parse, rest, n - 1))
            case Err(e) => After(done, Many(parse, s, n)) == Err(e)
  {
    if parse(s).Ok? && Many(parse, parse(s).value.1, n - 1).Ok? {
      Assoc(done, [parse(s).value.0], Many(parse, parse(s).value.1, n - 1).value.0);
    }
  }

  lemma ManyDone<T>(parse: seq<byte> -> Parsed<T>, s: seq<byte>, done: seq<T>)
    ensures After(done, Many(parse, s, 0)) == Ok((done, s))
  {
    assert done + [] == done;
  }

  lemma OneMoreRecord(rs: seq<FlowRecord>, x: FlowRecord, c: Context)
    ensures RecordsFlows(rs + [x], c) == RecordsFlows(rs, c) + RecordFlows(x, c)
  {
    hide RecordFlows;
    assert (rs + [x])[..|rs|] == rs;
  }

  lemma OneMoreSample(xs: seq<Sample>, x: Sample, agentIp: seq<byte>, uptime: u32, receivedAt: int)
    ensures SamplesFlows(xs + [x], agentIp, uptime, receivedAt)
            == SamplesFlows(xs, agentIp, uptime, receivedAt) + SampleFlows(x, agentIp, uptime, receivedAt)
  {
    hide SampleFlows;
    assert (xs + [x])[..|xs|] == xs;
  }

  lemma OneFlow(flows: seq<Flow>, more: Option<Flow>)
    ensures (match more case Some(f) => flows + [f] case None => flows)
            == flows + (match more case Some(f) => [f] case None => [])
  {
    assert flows + [] == flows;
  }

  /** The record loop of both flow samples. */
  method DecodeFlowRecords(r: Reader, recordCount: nat, c: Context) returns (res: Result<(seq<FlowRecord>, seq<Flow>)>)
    requires r.Valid()
    modifies r`pos
    ensures r.Valid()
    ensures match Many(ParseFlowRecord, old(r.Rest()), recordCount)
            case Ok((records, _)) => res == Ok((records, RecordsFlows(records, c)))
            case Err(e) => res == Err(e)
  {
    hide ParseFlowRecord, RecordFlows, RecordsFlows, Many, After;
    ghost var all := Many(ParseFlowRecord, r.Rest(), recordCount);
    var records, normalized: seq<Flow> := [], [];
    AfterNone(all);
    assert RecordsFlows(records, c) == [] by { NoRecordsNoFlows(c); }
    for i := 0 to recordCount
      invariant r.Valid() && After(records, Many(ParseFlowRecord, r.Rest(), recordCount - i)) == all
      invariant normalized == RecordsFlows(records, c)
    {
      ManyStep(ParseFlowRecord, r.Rest(), recordCount - i, records);
      var found :- DecodeFlowRecord(r, c);
      var (record, normalizedRecord) := found;
      OneMoreRecord(records, record, c);
      OneFlow(normalized, normalizedRecord);
      records := records + [record];
      match normalizedRecord {
        case Some(f) => normalized := normalized + [f];
        case None =>
      }
    }
    ManyDone(ParseFlowRecord, r.Rest(), records);
    return Ok((records, normalized));
  }

  lemma NoRecordsNoFlows(c: Context)
    ensures RecordsFlows([], c) == []
  {
  }

  /** decodeFlowSample: the sample, and the flows of its records in order. */
  method DecodeFlowSample(data: seq<byte>, agentIp: seq<byte>, uptime: u32, receivedAt: int)
    returns (res: Result<(FlowSample, seq<Flow>)>)
    ensures match ParseFlowSample(data)
            case Ok(f) => res == Ok((f, FlowsOf(f, agentIp, uptime, receivedAt)))
            case Err(e) => res == Err(e)
  {
    hide WordAt, Many, RecordsFlows;
    var r := new Reader(data);
    var sequenceNumber :- r.ReadUint32();
    var sourceId :- r.ReadUint32();
    var samplingRate :- r.ReadUint32();
    var samplePool :- r.ReadUint32();
    var drops :- r.ReadUint32();
    var input :- r.ReadUint32();
    var output :- r.ReadUint32();
    var recordCount :- r.ReadUint32();
    var found :- DecodeFlowRecords(r, recordCount, Context(agentIp, uptime, samplingRate, input, output, receivedAt));
    var (records, normalized) := found;
    return Ok((FlowSample(sequenceNumber, sourceId / 0x100_0000, sourceId % 0x100_0000, samplingRate, samplePool,
                          drops, input, output, records), normalized));
  }

  /** decodeExpandedFlowSample: type and index of the source are words of their own. */
  method DecodeExpandedFlowSample(data: seq<byte>, agentIp: seq<byte>, uptime: u32, receivedAt: int)
    returns (res: Result<(FlowSample, seq<Flow>)>)
    ensures match ParseExpandedFlowSample(data)
            case Ok(f) => res == Ok((f, FlowsOf(f, agentIp, uptime, receivedAt)))
            case Err(e) => res == Err(e)
  {
    hide WordAt, Many, RecordsFlows;
    var r := new Reader(data);
    var sequenceNumber :- r.ReadUint32();
    var sourceIdType :- r.ReadUint32();
    var sourceIdIndex :- r.ReadUint32();
    var samplingRate :- r.ReadUint32();
    var samplePool :- r.ReadUint32();
    var drops :- r.ReadUint32();
    var input :- r.ReadUint32();
    var output :- r.ReadUint32();
    var recordCount :- r.ReadUint32();
    var found :- DecodeFlowRecords(r, recordCount, Context(agentIp, uptime, samplingRate, input, output, receivedAt));
    var (records, normalized) := found;
    return Ok((FlowSample(sequenceNumber, sourceIdType, sourceIdIndex, samplingRate, samplePool, drops, input, output,
                          records), normalized));
  }

  method DecodeCounterRecord(r: Reader) returns (res: Result<CounterRecord>)
    requires r.Valid()
    modifies r`pos
    ensures r.Valid()
    ensures match ParseCounterRecord(old(r.Rest()))
            case Ok((record, rest)) => res == Ok(record) && r.Rest() == rest
            case Err(e) => res == Err(e)
  {
    hide ParseBlock;
    var block :- ReadBlock(r);
    var (word, data) := block;
    return Ok(CounterRecord(word / 0x1000, word % 0x1000, |data|, data));
  }

  /** The record loop of both counter samples. */
  method DecodeCounterRecords(r: Reader, recordCount: nat) returns (res: Result<seq<CounterRecord>>)
    requires r.Valid()
    modifies r`pos
    ensures r.Valid()
    ensures match Many(ParseCounterRecord, old(r.Rest()), recordCount)
            case Ok((records, _)) => res == Ok(records)
            case Err(e) => res == Err(e)
  {
    hide ParseCounterRecord, Many, After;
    ghost var all := Many(ParseCounterRecord, r.Rest(), recordCount);
    var records: seq<CounterRecord> := [];
    AfterNone(all);
    for i := 0 to recordCount
      invariant r.Valid() && After(records, Many(ParseCounterRecord, r.Rest(), recordCount - i)) == all
    {
      ManyStep(ParseCounterRecord, r.Rest(), recordCount - i, records);
      var record :- DecodeCounterRecord(r);
      records := records + [record];
    }
    ManyDone(ParseCounterRecord, r.Rest(), records);
    return Ok(records);
  }

  method DecodeCounterSample(data: seq<byte>) returns (res: Result<CounterSample>)
    ensures res == ParseCounterSample(data)
  {
    hide WordAt, Many;
    var r := new Reader(data);
    var sequenceNumber :- r.ReadUint32();
    var sourceId :- r.ReadUint32();
    var recordCount :- r.ReadUint32();
    assert r.Rest() == data[12..] && Words(data, 3) == [sequenceNumber, sourceId, recordCount];
    var records :- DecodeCounterRecords(r, recordCount);
    return Ok(CounterSample(sequenceNumber, sourceId / 0x100_0000, sourceId % 0x100_0000, records));
  }

  method DecodeExpandedCounterSample(data: seq<byte>) returns (res: Result<CounterSample>)
    ensures res == ParseExpandedCounterSample(data)
  {
    hide WordAt, Many;
    var r := new Reader(data);
    var sequenceNumber :- r.ReadUint32();
    var sourceIdType :- r.ReadUint32();
    var sourceIdIndex :- r.ReadUint32();
    var recordCount :- r.ReadUint32();
    assert r.Rest() == data[16..] && Words(data, 4) == [sequenceNumber, sourceIdType, sourceIdIndex, recordCount];
    var records :- DecodeCounterRecords(r, recordCount);
    return Ok(CounterSample(sequenceNumber, sourceIdType, sourceIdIndex, records));
  }

  /** The switch on the sample type. */
  method DecodeSample(kind: u32, data: seq<byte>, agentIp: seq<byte>, uptime: u32, receivedAt: int)
    returns (res: Result<(Sample, seq<Flow>)>)
    ensures match ToSample(kind, data)
            case Ok(x) => res == Ok((x, SampleFlows(x, agentIp, uptime, receivedAt)))
            case Err(e) => res == Err(e)
  {
    hide ParseFlowSample, ParseExpandedFlowSample, ParseCounterSample, ParseExpandedCounterSample, FlowsOf;
    var sample := Sample(kind, None, None, None);
    match kind {
      case 1 =>
        var found :- DecodeFlowSample(data, agentIp, uptime, receivedAt);
        return Ok((sample.(flow := Some(found.0)), found.1));
      case 3 =>
        var found :- DecodeExpandedFlowSample(data, agentIp, uptime, receivedAt);
        return Ok((sample.(expandedFlow := Some(found.0)), found.1));
      case 2 =>
        var counter :- DecodeCounterSample(data);
        return Ok((sample.(counter := Some(counter)), []));
      case 4 =>
        var counter :- DecodeExpandedCounterSample(data);
        return Ok((sample.(counter := Some(counter)), []));
      case _ =>
        return Ok((sample, []));
    }
  }

  /** The sample loop: a failure anywhere in it leaves no partial result. */
  method DecodeSamples(r: Reader, sampleCount: nat, agentIp: seq<byte>, uptime: u32, receivedAt: int)
    returns (res: Result<(seq<Sample>, seq<Flow>)>)
    requires r.Valid()
    modifies r`pos
    ensures r.Valid()
    ensures match Many(ParseSample, old(r.Rest()), sampleCount)
            case Ok((xs, _)) => res == Ok((xs, SamplesFlows(xs, agentIp, uptime, receivedAt)))
            case Err(e) => res == Err(e)
  {
    hide ParseBlock, ToSample, SampleFlows, Many, After;
    ghost var all := Many(ParseSample, r.Rest(), sampleCount);
    var samples, flowRecords: seq<Flow> := [], [];
    AfterNone(all);
    for i := 0 to sampleCount
      invariant r.Valid() && After(samples, Many(ParseSample, r.Rest(), sampleCount - i)) == all
      invariant flowRecords == SamplesFlows(samples, agentIp, uptime, receivedAt)
    {
      ManyStep(ParseSample, r.Rest(), sampleCount - i, samples);
      var block :- ReadBlock(r);
      var found :- DecodeSample(block.0, block.1, agentIp, uptime, receivedAt);
      OneMoreSample(samples, found.0, agentIp, uptime, receivedAt);
      samples := samples + [found.0];
      flowRecords := flowRecords + found.1;
    }
    ManyDone(ParseSample, r.Rest(), samples);
    return Ok((samples, flowRecords));
  }

  /** decodeSFlowDatagram: for every input, what ParseDatagram says, and the flows of all its samples
      in order; or the error, and nothing else. */
  method DecodeSFlowDatagram(data: seq<byte>, receivedAt: int) returns (res: Result<(Datagram, seq<Flow>)>)
    ensures match ParseDatagram(data)
            case Ok(d) => res == Ok((d, DatagramFlows(d, receivedAt)))
            case Err(e) => res == Err(e)
  {
    hide Many, SamplesFlows;
    var r := new Reader(data);
    var version :- r.ReadUint32();
    if version != SFLOW_VERSION_5 {
      return Err(UnsupportedVersion(version));
    }
    var addressType :- r.ReadUint32();
    if addressType != 1 {
      return Err(UnsupportedAddressType(addressType));
    }
    var agentIp :- r.ReadBytes(4);
    var subAgent :- r.ReadUint32();
    var sequenceNumber :- r.ReadUint32();
    var uptime :- r.ReadUint32();
    var sampleCount :- r.ReadUint32();
    var found :- DecodeSamples(r, sampleCount, agentIp, uptime, receivedAt);
    return Ok((Datagram(version, agentIp, subAgent, sequenceNumber, uptime, found.0), found.1));
  }
}
