/**
  sFlow version 5 datagrams (sFlow Version 5, section 5), in the layout the decoder reads: what a
  datagram means, by the place of each word in it. Its expanded flow sample has one word for each
  interface.
 */
module SFlow {
  import opened Options
  import opened Bytes
  import opened SFlowPacket

  const SFLOW_VERSION_5: u32 := 5
  const SAMPLE_FLOW: u32 := 1
  const SAMPLE_COUNTER: u32 := 2
  const SAMPLE_EXPANDED_FLOW: u32 := 3
  const SAMPLE_EXPANDED_COUNTER: u32 := 4
  const FLOW_RECORD_RAW_PACKET: u32 := 1

  datatype Error = Truncated | NegativeLength | UnsupportedVersion(version: u32) | UnsupportedAddressType(kind: u32)

  datatype Result<+T> = Ok(value: T) | Err(error: Error) {
    predicate IsFailure() {
      Err?
    }

    function PropagateFailure<U>(): Result<U>
      requires Err?
    {
      Err(error)
    }

    function Extract(): T
      requires Ok?
    {
      value
    }
  }

  // ---- Decoded values ----

  datatype RawPacket = RawPacket(protocol: u32, frameLength: u32, stripped: u32, headerLength: u32, header: seq<byte>)

  datatype FlowRecord = FlowRecord(
    enterprise: u32,
    format: u32,
    length: u32,
    rawPacket: Option<RawPacket>,
    rawData: seq<byte>)

  datatype FlowSample = FlowSample(
    sequenceNumber: u32,
    sourceIdType: u32,
    sourceIdIndex: u32,
    samplingRate: u32,
    samplePool: u32,
    drops: u32,
    inputInterface: u32,
    outputInterface: u32,
    records: seq<FlowRecord>)

  datatype CounterRecord = CounterRecord(enterprise: u32, format: u32, length: u32, data: seq<byte>)

  datatype CounterSample = CounterSample(sequenceNumber: u32, sourceIdType: u32, sourceIdIndex: u32,
    records: seq<CounterRecord>)

  datatype Sample = Sample(
    kind: u32,
    flow: Option<FlowSample>,
    counter: Option<CounterSample>,
    expandedFlow: Option<FlowSample>)

  datatype Datagram = Datagram(
    version: u32,
    agentIp: seq<byte>,
    subAgent: u32,
    sequenceNumber: u32,
    uptime: u32,
    samples: seq<Sample>)

  /** The normalized record the producer publishes. */
  datatype Flow = Flow(
    agentIp: seq<byte>,
    device: seq<byte>,
    network: Network,
    inputInterface: u32,
    outputInterface: u32,
    bytes: nat,
    packets: nat,
    samplingRate: u32,
    agentUptime: u32,
    timestamp: int)

  // ---- Words ----

  function WordAt(s: seq<byte>, p: nat): u32
    requires p + 4 <= |s|
  {
    Be32(s[p], s[p + 1], s[p + 2], s[p + 3])
  }

  /** The first k words. */
  function Words(s: seq<byte>, k: nat): (ws: seq<u32>)
    requires 4 * k <= |s|
    ensures |ws| == k
  {
    seq(k, i requires 0 <= i < k => WordAt(s, 4 * i))
  }

  // ---- Parsing ----

  /** What a parser finds at the front of a byte string, and the rest of it. */
  type Parsed<T> = Result<(T, seq<byte>)>

  /** n values one after the other. */
  function Many<T>(parse: seq<byte> -> Parsed<T>, s: seq<byte>, n: nat): Parsed<seq<T>>
    decreases n
  {
    if n == 0 then Ok(([], s))
    else
      var (x, rest) :- parse(s);
      var (xs, end) :- Many(parse, rest, n - 1);
      Ok(([x] + xs, end))
  }

  function ParseRawPacket(s: seq<byte>): Result<RawPacket> {
    if |s| < 16 then Err(Truncated)
    else
      var w := Words(s, 4);
      var n: nat := w[3];
      if |s| < 16 + n then Err(Truncated)
      else Ok(RawPacket(w[0], w[1], w[2], w[3], s[16..16 + n]))
  }

  /** A length-framed block: a word, a length, and that many bytes. */
  function ParseBlock(s: seq<byte>): Parsed<(u32, seq<byte>)> {
    if |s| < 8 then Err(Truncated)
    else
      var w := Words(s, 2);
      var n: nat := w[1];
      if |s| < 8 + n then Err(Truncated)
      else Ok(((w[0], s[8..8 + n]), s[8 + n..]))
  }

  predicate IsRawPacket(enterprise: u32, format: u32) {
    enterprise == 0 && format == FLOW_RECORD_RAW_PACKET
  }

  /** The upper 20 bits of the word are the enterprise, the lower 12 the format. */
  function ToFlowRecord(word: u32, body: seq<byte>): Result<FlowRecord>
    requires |body| < 0x1_0000_0000
  {
    var enterprise, format := word / 0x1000, word % 0x1000;
    if IsRawPacket(enterprise, format) then
      var p :- ParseRawPacket(body);
      Ok(FlowRecord(enterprise, format, |body|, Some(p), body))
    else Ok(FlowRecord(enterprise, format, |body|, None, body))
  }

  function ParseFlowRecord(s: seq<byte>): Parsed<FlowRecord> {
    var ((word, body), rest) :- ParseBlock(s);
    var record :- ToFlowRecord(word, body);
    Ok((record, rest))
  }

  function ParseCounterRecord(s: seq<byte>): Parsed<CounterRecord> {
    var ((word, body), rest) :- ParseBlock(s);
    Ok((CounterRecord(word / 0x1000, word % 0x1000, |body|, body), rest))
  }

  /** A flow sample whose source id is one word: the upper 8 bits the type, the lower 24 the index. */
  function ParseFlowSample(s: seq<byte>): Result<FlowSample> {
    if |s| < 32 then Err(Truncated)
    else
      var w := Words(s, 8);
      var (records, _) :- Many(ParseFlowRecord, s[32..], w[7]);
      Ok(FlowSample(w[0], w[1] / 0x100_0000, w[1] % 0x100_0000, w[2], w[3], w[4], w[5], w[6], records))
  }

  function ParseExpandedFlowSample(s: seq<byte>): Result<FlowSample> {
    if |s| < 36 then Err(Truncated)
    else
      var w := Words(s, 9);
      var (records, _) :- Many(ParseFlowRecord, s[36..], w[8]);
      Ok(FlowSample(w[0], w[1], w[2], w[3], w[4], w[5], w[6], w[7], records))
  }

  function ParseCounterSample(s: seq<byte>): Result<CounterSample> {
    if |s| < 12 then Err(Truncated)
    else
      var w := Words(s, 3);
      var (records, _) :- Many(ParseCounterRecord, s[12..], w[2]);
      Ok(CounterSample(w[0], w[1] / 0x100_0000, w[1] % 0x100_0000, records))
  }

  function ParseExpandedCounterSample(s: seq<byte>): Result<CounterSample> {
    if |s| < 16 then Err(Truncated)
    else
      var w := Words(s, 4);
      var (records, _) :- Many(ParseCounterRecord, s[16..], w[3]);
      Ok(CounterSample(w[0], w[1], w[2], records))
  }

  /** A sample by its type; one of unknown type is kept without its content. */
  function ToSample(kind: u32, body: seq<byte>): Result<Sample> {
    if kind == SAMPLE_FLOW then
      var f :- ParseFlowSample(body);
      Ok(Sample(kind, Some(f), None, None))
    else if kind == SAMPLE_EXPANDED_FLOW then
      var f :- ParseExpandedFlowSample(body);
      Ok(Sample(kind, None, None, Some(f)))
    else if kind == SAMPLE_COUNTER then
      var c :- ParseCounterSample(body);
      Ok(Sample(kind, None, Some(c), None))
    else if kind == SAMPLE_EXPANDED_COUNTER then
      var c :- ParseExpandedCounterSample(body);
      Ok(Sample(kind, None, Some(c), None))
    else Ok(Sample(kind, None, None, None))
  }

  function ParseSample(s: seq<byte>): Parsed<Sample> {
    var ((kind, body), rest) :- ParseBlock(s);
    var sample :- ToSample(kind, body);
    Ok((sample, rest))
  }

  /** The header is checked word by word: the version before the address type, both before the rest. */
  function ParseDatagram(s: seq<byte>): Result<Datagram> {
    if |s| < 4 then Err(Truncated)
    else if WordAt(s, 0) != SFLOW_VERSION_5 then Err(UnsupportedVersion(WordAt(s, 0)))
    else if |s| < 8 then Err(Truncated)
    else if WordAt(s, 4) != 1 then Err(UnsupportedAddressType(WordAt(s, 4)))
    else if |s| < 28 then Err(Truncated)
    else
      var (samples, _) :- Many(ParseSample, s[28..], WordAt(s, 24));
      Ok(Datagram(SFLOW_VERSION_5, s[8..12], WordAt(s, 12), WordAt(s, 16), WordAt(s, 20), samples))
  }

  // ---- Normalized flows ----

  /** What a record's flow takes from the sample and the datagram around it. */
  datatype Context = Context(agentIp: seq<byte>, uptime: u32, samplingRate: u32, input: u32, output: u32,
    receivedAt: int)

  /** What a record yields: one flow for a raw packet the decoder can follow, otherwise none. */
  function RecordFlows(r: FlowRecord, c: Context): seq<Flow> {
    match r.rawPacket
    case None => []
    case Some(p) =>
      match ParseFrame(p.header)
      case None => []
      case Some(n) =>
        [Flow(c.agentIp, c.agentIp, n, c.input, c.output, p.frameLength, 1, c.samplingRate, c.uptime, c.receivedAt)]
  }

  /** The flows of a list of records, in order. */
  function RecordsFlows(rs: seq<FlowRecord>, c: Context): seq<Flow> {
    if rs == [] then [] else RecordsFlows(rs[..|rs| - 1], c) + RecordFlows(rs[|rs| - 1], c)
  }

  function FlowsOf(f: FlowSample, agentIp: seq<byte>, uptime: u32, receivedAt: int): seq<Flow> {
    RecordsFlows(f.records, Context(agentIp, uptime, f.samplingRate, f.inputInterface, f.outputInterface, receivedAt))
  }

  function SampleFlows(x: Sample, agentIp: seq<byte>, uptime: u32, receivedAt: int): seq<Flow> {
    if x.flow.Some? then FlowsOf(x.flow.value, agentIp, uptime, receivedAt)
    else if x.expandedFlow.Some? then FlowsOf(x.expandedFlow.value, agentIp, uptime, receivedAt)
    else []
  }

  /** The flows of a list of samples, in order. */
  function SamplesFlows(xs: seq<Sample>, agentIp: seq<byte>, uptime: u32, receivedAt: int): seq<Flow> {
    if xs == [] then []
    else
      SamplesFlows(xs[..|xs| - 1], agentIp, uptime, receivedAt)
      + SampleFlows(xs[|xs| - 1], agentIp, uptime, receivedAt)
  }

  function DatagramFlows(d: Datagram, receivedAt: int): seq<Flow> {
    SamplesFlows(d.samples, d.agentIp, d.uptime, receivedAt)
  }
}
