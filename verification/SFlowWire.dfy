/** Whole sFlow samples and datagrams, written and read back. */
module SFlowWire {
  import opened Bytes
  import opened SFlow
  import opened SFlowSamples
  import opened SFlowRoundTrip

  // ---- Words followed by counted records ----

  function EncCounted<T>(ws: seq<u32>, write: T -> seq<byte>, xs: seq<T>): seq<byte> {
    if |xs| < 0x1_0000_0000 then EncWords(ws + [|xs|]) + WriteAll(write, xs) else []
  }

  lemma CountedReadsBack<T(!new)>(ws: seq<u32>, parse: seq<byte> -> Parsed<T>, write: T -> seq<byte>, good: T -> bool,
                                  xs: seq<T>, slack: seq<byte>)
    requires ReadsBack(parse, write, good) && All(good, xs) && |xs| < 0x1_0000_0000
    ensures var s, k := EncCounted(ws, write, xs) + slack, 4 * |ws| + 4;
            |s| >= k && Words(s, |ws| + 1) == ws + [|xs|] && Many(parse, s[k..], |xs|) == Ok((xs, slack))
  {
    hide ReadsBack, All, Words, EncWords, WriteAll, Many;
    var body := WriteAll(write, xs) + slack;
    assert EncCounted(ws, write, xs) + slack == EncWords(ws + [|xs|]) + body;
    WordsReadBack(ws + [|xs|], body);
    ManyReadsBack(parse, write, good, xs, slack);
  }

  lemma CountedOnlyWritten<T(!new)>(s: seq<byte>, k: nat, parse: seq<byte> -> Parsed<T>, write: T -> seq<byte>,
                                    good: T -> bool)
    requires OnlyWritten(parse, write, good) && |s| >= 4 * k + 4
    requires Many(parse, s[4 * k + 4..], Words(s, k + 1)[k]).Ok?
    ensures var (xs, t) := Many(parse, s[4 * k + 4..], Words(s, k + 1)[k]).value;
            |xs| < 0x1_0000_0000 && All(good, xs) && s == EncCounted(Words(s, k + 1)[..k], write, xs) + t
  {
    hide OnlyWritten, All, EncWords, WriteAll, Many;
    var w := Words(s, k + 1);
    ManyOnlyWritten(parse, write, good, s[4 * k + 4..], w[k]);
    OnlyWords(s, k + 1);
    var (xs, t) := Many(parse, s[4 * k + 4..], w[k]).value;
    assert w[..k] + [|xs|] == w;
    assert s == EncWords(w) + (WriteAll(write, xs) + t) == EncWords(w) + WriteAll(write, xs) + t;
  }

  // ---- Samples ----

  predicate GoodFlows(f: FlowSample) {
    |f.records| < 0x1_0000_0000 && All(GoodFlowRecord, f.records)
  }

  predicate GoodCounters(c: CounterSample) {
    |c.records| < 0x1_0000_0000 && All(GoodCounterRecord, c.records)
  }

  function WriteFlowSample(f: FlowSample): seq<byte> {
    var id := f.sourceIdType * 0x100_0000 + f.sourceIdIndex;
    if id >= 0x1_0000_0000 then []
    else
      EncCounted([f.sequenceNumber, id, f.samplingRate, f.samplePool, f.drops, f.inputInterface, f.outputInterface],
                 WriteFlowRecord, f.records)
  }

  function WriteExpandedFlowSample(f: FlowSample): seq<byte> {
    EncCounted([f.sequenceNumber, f.sourceIdType, f.sourceIdIndex, f.samplingRate, f.samplePool, f.drops,
                f.inputInterface, f.outputInterface],
               WriteFlowRecord, f.records)
  }

  function WriteCounterSample(c: CounterSample): seq<byte> {
    var id := c.sourceIdType * 0x100_0000 + c.sourceIdIndex;
    if id >= 0x1_0000_0000 then [] else EncCounted([c.sequenceNumber, id], WriteCounterRecord, c.records)
  }

  function WriteExpandedCounterSample(c: CounterSample): seq<byte> {
    EncCounted([c.sequenceNumber, c.sourceIdType, c.sourceIdIndex], WriteCounterRecord, c.records)
  }

  lemma FlowSampleReadsBack(f: FlowSample, slack: seq<byte>)
    requires GoodFlows(f) && Packable(f.sourceIdType, f.sourceIdIndex, 0x100_0000)
    ensures ParseFlowSample(WriteFlowSample(f) + slack) == Ok(f)
  {
    hide EncCounted, Words, Many, All, ReadsBack, OnlyWritten;
    PackingIsLossless(f.sourceIdType, f.sourceIdIndex, 0x100_0000);
    FlowRecords();
    CountedReadsBack([f.sequenceNumber, f.sourceIdType * 0x100_0000 + f.sourceIdIndex, f.samplingRate, f.samplePool,
                      f.drops, f.inputInterface, f.outputInterface],
                     ParseFlowRecord, WriteFlowRecord, GoodFlowRecord, f.records, slack);
  }

  lemma ExpandedFlowSampleReadsBack(f: FlowSample, slack: seq<byte>)
    requires GoodFlows(f)
    ensures ParseExpandedFlowSample(WriteExpandedFlowSample(f) + slack) == Ok(f)
  {
    hide EncCounted, Words, Many, All, ReadsBack, OnlyWritten;
    FlowRecords();
    CountedReadsBack([f.sequenceNumber, f.sourceIdType, f.sourceIdIndex, f.samplingRate, f.samplePool,
                      f.drops, f.inputInterface, f.outputInterface],
                     ParseFlowRecord, WriteFlowRecord, GoodFlowRecord, f.records, slack);
  }

  lemma CounterSampleReadsBack(c: CounterSample, slack: seq<byte>)
    requires GoodCounters(c) && Packable(c.sourceIdType, c.sourceIdIndex, 0x100_0000)
    ensures ParseCounterSample(WriteCounterSample(c) + slack) == Ok(c)
  {
    hide EncCounted, Words, Many, All, ReadsBack, OnlyWritten;
    PackingIsLossless(c.sourceIdType, c.sourceIdIndex, 0x100_0000);
    CounterRecords();
    CountedReadsBack([c.sequenceNumber, c.sourceIdType * 0x100_0000 + c.sourceIdIndex],
                     ParseCounterRecord, WriteCounterRecord, GoodCounterRecord, c.records, slack);
  }

  lemma ExpandedCounterSampleReadsBack(c: CounterSample, slack: seq<byte>)
    requires GoodCounters(c)
    ensures ParseExpandedCounterSample(WriteExpandedCounterSample(c) + slack) == Ok(c)
  {
    hide EncCounted, Words, Many, All, ReadsBack, OnlyWritten;
    CounterRecords();
    CountedReadsBack([c.sequenceNumber, c.sourceIdType, c.sourceIdIndex],
                     ParseCounterRecord, WriteCounterRecord, GoodCounterRecord, c.records, slack);
  }

  lemma FlowSampleOnlyWritten(s: seq<byte>)
    requires ParseFlowSample(s).Ok?
    ensures var f := ParseFlowSample(s).value;
            GoodFlows(f) && Packable(f.sourceIdType, f.sourceIdIndex, 0x100_0000) && WriteFlowSample(f) <= s
  {
    hide EncCounted, Words, Packable, Many, All, ReadsBack, OnlyWritten;
    FlowRecords();
    CountedOnlyWritten(s, 7, ParseFlowRecord, WriteFlowRecord, GoodFlowRecord);
    var w := Words(s, 8);
    UnpackedIsPackable(w[1], 0x100_0000);
    assert w[..7] == [w[0], w[1], w[2], w[3], w[4], w[5], w[6]];
  }

  lemma ExpandedFlowSampleOnlyWritten(s: seq<byte>)
    requires ParseExpandedFlowSample(s).Ok?
    ensures var f := ParseExpandedFlowSample(s).value; GoodFlows(f) && WriteExpandedFlowSample(f) <= s
  {
    hide EncCounted, Words, Many, All, ReadsBack, OnlyWritten;
    FlowRecords();
    CountedOnlyWritten(s, 8, ParseFlowRecord, WriteFlowRecord, GoodFlowRecord);
    var w := Words(s, 9);
    assert w[..8] == [w[0], w[1], w[2], w[3], w[4], w[5], w[6], w[7]];
  }

  lemma CounterSampleOnlyWritten(s: seq<byte>)
    requires ParseCounterSample(s).Ok?
    ensures var c := ParseCounterSample(s).value;
            GoodCounters(c) && Packable(c.sourceIdType, c.sourceIdIndex, 0x100_0000) && WriteCounterSample(c) <= s
  {
    hide EncCounted, Words, Many, All, ReadsBack, OnlyWritten;
    CounterRecords();
    CountedOnlyWritten(s, 2, ParseCounterRecord, WriteCounterRecord, GoodCounterRecord);
    var w := Words(s, 3);
    UnpackedIsPackable(w[1], 0x100_0000);
    assert w[..2] == [w[0], w[1]];
  }

  lemma ExpandedCounterSampleOnlyWritten(s: seq<byte>)
    requires ParseExpandedCounterSample(s).Ok?
    ensures var c := ParseExpandedCounterSample(s).value; GoodCounters(c) && WriteExpandedCounterSample(c) <= s
  {
    hide EncCounted, Words, Many, All, ReadsBack, OnlyWritten;
    CounterRecords();
    CountedOnlyWritten(s, 3, ParseCounterRecord, WriteCounterRecord, GoodCounterRecord);
    var w := Words(s, 4);
    assert w[..3] == [w[0], w[1], w[2]];
  }

  /** A sample as its type says it is filled. */
  predicate GoodSample(x: Sample) {
    if x.kind == 1 then
      && x.flow.Some? && x.counter.None? && x.expandedFlow.None? && GoodFlows(x.flow.value)
      && Packable(x.flow.value.sourceIdType, x.flow.value.sourceIdIndex, 0x100_0000)
    else if x.kind == 3 then
      x.flow.None? && x.counter.None? && x.expandedFlow.Some? && GoodFlows(x.expandedFlow.value)
    else if x.kind == 2 then
      && x.flow.None? && x.counter.Some? && x.expandedFlow.None? && GoodCounters(x.counter.value)
      && Packable(x.counter.value.sourceIdType, x.counter.value.sourceIdIndex, 0x100_0000)
    else if x.kind == 4 then
      x.flow.None? && x.counter.Some? && x.expandedFlow.None? && GoodCounters(x.counter.value)
    else x.flow.None? && x.counter.None? && x.expandedFlow.None?
  }

  function Body(x: Sample): seq<byte> {
    if x.kind == 1 && x.flow.Some? then WriteFlowSample(x.flow.value)
    else if x.kind == 3 && x.expandedFlow.Some? then WriteExpandedFlowSample(x.expandedFlow.value)
    else if x.kind == 2 && x.counter.Some? then WriteCounterSample(x.counter.value)
    else if x.kind == 4 && x.counter.Some? then WriteExpandedCounterSample(x.counter.value)
    else []
  }

  lemma BodyReadsBack(x: Sample, slack: seq<byte>)
    requires GoodSample(x)
    ensures ToSample(x.kind, Body(x) + slack) == Ok(x)
  {
    hide WriteFlowSample, WriteExpandedFlowSample, WriteCounterSample, WriteExpandedCounterSample, GoodFlows,
         GoodCounters,
         ParseFlowSample, ParseExpandedFlowSample, ParseCounterSample, ParseExpandedCounterSample, Packable;
    if x.kind == 1 {
      FlowSampleReadsBack(x.flow.value, slack);
    } else if x.kind == 3 {
      ExpandedFlowSampleReadsBack(x.expandedFlow.value, slack);
    } else if x.kind == 2 {
      CounterSampleReadsBack(x.counter.value, slack);
    } else if x.kind == 4 {
      ExpandedCounterSampleReadsBack(x.counter.value, slack);
    }
  }

  lemma BodyOnlyWritten(kind: u32, body: seq<byte>)
    requires ToSample(kind, body).Ok?
    ensures var x := ToSample(kind, body).value; x.kind == kind && GoodSample(x) && Body(x) <= body
  {
    hide WriteFlowSample, WriteExpandedFlowSample, WriteCounterSample, WriteExpandedCounterSample, GoodFlows,
         GoodCounters,
         ParseFlowSample, ParseExpandedFlowSample, ParseCounterSample, ParseExpandedCounterSample, Packable;
    if kind == 1 {
      FlowSampleOnlyWritten(body);
    } else if kind == 3 {
      ExpandedFlowSampleOnlyWritten(body);
    } else if kind == 2 {
      CounterSampleOnlyWritten(body);
    } else if kind == 4 {
      ExpandedCounterSampleOnlyWritten(body);
    }
  }

  // ---- Samples on the wire ----

  /** A sample, and what its block holds after the part that is read. */
  datatype Wire = Wire(sample: Sample, slack: seq<byte>)

  predicate GoodWire(w: Wire) {
    GoodSample(w.sample) && |Body(w.sample) + w.slack| < 0x1_0000_0000
  }

  function WriteWire(w: Wire): seq<byte> {
    WriteBlock(w.sample.kind, Body(w.sample) + w.slack)
  }

  /** ParseSample, keeping the bytes it does not read. */
  function ParseWire(s: seq<byte>): Parsed<Wire> {
    var ((kind, body), rest) :- ParseBlock(s);
    var x :- ToSample(kind, body);
    Ok((Wire(x, if |Body(x)| <= |body| then body[|Body(x)|..] else []), rest))
  }

  lemma WireReadsBack(w: Wire, t: seq<byte>)
    requires GoodWire(w)
    ensures ParseWire(WriteWire(w) + t) == Ok((w, t))
  {
    hide ParseBlock, EncBlock, Body, ToSample, GoodSample;
    var body := Body(w.sample) + w.slack;
    BlockReadsBack(w.sample.kind, body, t);
    BodyReadsBack(w.sample, w.slack);
    assert body[|Body(w.sample)|..] == w.slack;
  }

  lemma WireOnlyWritten(s: seq<byte>)
    requires ParseWire(s).Ok?
    ensures GoodWire(ParseWire(s).value.0) && s == WriteWire(ParseWire(s).value.0) + ParseWire(s).value.1
  {
    hide ParseBlock, WriteBlock, Body, ToSample, GoodSample;
    BlockOnlyWritten(s);
    var ((kind, body), t) := ParseBlock(s).value;
    BodyOnlyWritten(kind, body);
    var x := ToSample(kind, body).value;
    assert Body(x) + body[|Body(x)|..] == body;
  }

  lemma Wires()
    ensures ReadsBack(ParseWire, WriteWire, GoodWire) && OnlyWritten(ParseWire, WriteWire, GoodWire)
  {
    hide ParseWire, WriteWire, GoodWire;
    forall w: Wire, t: seq<byte> | GoodWire(w) ensures ParseWire(WriteWire(w) + t) == Ok((w, t)) {
      WireReadsBack(w, t);
    }
    forall s: seq<byte> | ParseWire(s).Ok?
      ensures GoodWire(ParseWire(s).value.0) && s == WriteWire(ParseWire(s).value.0) + ParseWire(s).value.1
    {
      WireOnlyWritten(s);
    }
  }

  function SamplesOf(ws: seq<Wire>): seq<Sample> {
    seq(|ws|, i requires 0 <= i < |ws| => ws[i].sample)
  }

  lemma {:induction false} WiresAreSamples(s: seq<byte>, n: nat)
    ensures match Many(ParseWire, s, n)
            case Err(e) => Many(ParseSample, s, n) == Err(e)
            case Ok((ws, t)) => Many(ParseSample, s, n) == Ok((SamplesOf(ws), t))
    decreases n
  {
    hide ParseBlock, ToSample, Body;
    if n == 0 {
      assert SamplesOf([]) == [];
    } else if ParseWire(s).Ok? {
      var (w, rest) := ParseWire(s).value;
      WiresAreSamples(rest, n - 1);
      if Many(ParseWire, rest, n - 1).Ok? {
        var ws := Many(ParseWire, rest, n - 1).value.0;
        assert SamplesOf([w] + ws) == [w.sample] + SamplesOf(ws);
      }
    }
  }

  // ---- Datagrams ----

  function HeaderOf(d: Datagram): Header {
    Header(d.agentIp, d.subAgent, d.sequenceNumber, d.uptime)
  }

  /** data is a wire form of d: its header, its samples with whatever their blocks hold beyond what is
      read, and anything at the end. */
  ghost predicate Writes(data: seq<byte>, d: Datagram, ws: seq<Wire>, t: seq<byte>) {
    && d.version == 5 && |d.agentIp| == 4 && |d.samples| < 0x1_0000_0000
    && SamplesOf(ws) == d.samples && All(GoodWire, ws)
    && data == EncHeader(HeaderOf(d), |d.samples|) + (WriteAll(WriteWire, ws) + t)
  }

  lemma DecodeUndoesWrite(data: seq<byte>, d: Datagram, ws: seq<Wire>, t: seq<byte>)
    requires Writes(data, d, ws, t)
    ensures ParseDatagram(data) == Ok(d)
  {
    hide EncHeader, ParseDatagram, Many, WriteAll, ParseWire, ParseSample, GoodWire, WriteWire, ReadsBack, OnlyWritten;
    DatagramIsSamples(HeaderOf(d), |d.samples|, WriteAll(WriteWire, ws) + t);
    Wires();
    ManyReadsBack(ParseWire, WriteWire, GoodWire, ws, t);
    WiresAreSamples(WriteAll(WriteWire, ws) + t, |ws|);
  }

  lemma HeaderOnlyWritten(data: seq<byte>)
    requires ParseDatagram(data).Ok?
    ensures var d := ParseDatagram(data).value;
            && d.version == 5 && |d.agentIp| == 4 && |data| >= 28
            && data == EncHeader(HeaderOf(d), WordAt(data, 24)) + data[28..]
            && Many(ParseSample, data[28..], WordAt(data, 24)).Ok?
            && d.samples == Many(ParseSample, data[28..], WordAt(data, 24)).value.0
  {
    hide Enc32, WordAt, Many;
    OneWord(data, 0);
    OneWord(data, 4);
    assert data == data[0..] && data[8..] == data[8..12] + data[12..];
    OneWord(data, 12);
    OneWord(data, 16);
    OneWord(data, 20);
    OneWord(data, 24);
  }

  lemma OnlyWrittenDecodes(data: seq<byte>) returns (ws: seq<Wire>, t: seq<byte>)
    requires ParseDatagram(data).Ok?
    ensures Writes(data, ParseDatagram(data).value, ws, t)
  {
    hide EncHeader, ParseDatagram, Many, WriteAll, ParseWire, ParseSample, GoodWire, WriteWire, ReadsBack, OnlyWritten;
    var d := ParseDatagram(data).value;
    HeaderOnlyWritten(data);
    var n: nat := WordAt(data, 24);
    WiresAreSamples(data[28..], n);
    Wires();
    ManyOnlyWritten(ParseWire, WriteWire, GoodWire, data[28..], n);
    ws, t := Many(ParseWire, data[28..], n).value.0, Many(ParseWire, data[28..], n).value.1;
  }

  /** The decoder accepts exactly the wire forms of well-formed datagrams, with any counts at every
      level, and finds the datagram that was written. */
  lemma DecodesExactlyWhatIsWritten(data: seq<byte>, d: Datagram)
    ensures ParseDatagram(data) == Ok(d) <==> exists ws, t :: Writes(data, d, ws, t)
  {
    hide ParseDatagram, Writes;
    if ParseDatagram(data) == Ok(d) {
      var ws, t := OnlyWrittenDecodes(data);
    }
    if ws, t :| Writes(data, d, ws, t) {
      DecodeUndoesWrite(data, d, ws, t);
    }
  }
}
