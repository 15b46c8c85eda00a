/** The flows published for a datagram, one by one: which record each comes from, and what it holds. */
module SFlowFlows {
  import opened Options
  import opened Bytes
  import opened SFlowPacket
  import opened SFlow
  import opened SFlowSamples
  import opened SFlowRoundTrip
  import opened SFlowWire

  /** A record's place: its sample in the datagram, and its own place in the sample. */
  datatype Site = Site(sample: nat, record: nat)

  predicate Precedes(a: Site, b: Site) {
    a.sample < b.sample || (a.sample == b.sample && a.record < b.record)
  }

  /** Samples of type 1 and 3 carry flow records. */
  function FlowSampleOf(x: Sample): Option<FlowSample> {
    if x.kind == 1 then x.flow else if x.kind == 3 then x.expandedFlow else None
  }

  /** The record at the site is a raw packet, enterprise 0 and format 1, and its frame can be read. */
  predicate IsRead(r: FlowRecord) {
    r.enterprise == 0 && r.format == 1 && r.rawPacket.Some? && ParseFrame(r.rawPacket.value.header).Some?
  }

  predicate Yields(d: Datagram, s: Site) {
    && s.sample < |d.samples| && FlowSampleOf(d.samples[s.sample]).Some?
    && s.record < |FlowSampleOf(d.samples[s.sample]).value.records|
    && IsRead(FlowSampleOf(d.samples[s.sample]).value.records[s.record])
  }

  /** The flow is that of this record of this sample: agent, device and uptime are the datagram's,
      interfaces and sampling rate the sample's, its bytes are the frame's length, its one packet holds
      what the frame says. */
  predicate IsFlow(fl: Flow, agentIp: seq<byte>, uptime: u32, f: FlowSample, r: FlowRecord, receivedAt: int) {
    && r.rawPacket.Some?
    && fl.agentIp == agentIp && fl.device == agentIp && fl.agentUptime == uptime
    && fl.inputInterface == f.inputInterface && fl.outputInterface == f.outputInterface
    && fl.samplingRate == f.samplingRate
    && fl.bytes == r.rawPacket.value.frameLength && fl.packets == 1
    && ParseFrame(r.rawPacket.value.header) == Some(fl.network)
    && fl.timestamp == receivedAt
  }

  // ---- One sample ----

  /** The places of the records read among the first n of a sample. */
  function RecordSites(f: FlowSample, sample: nat, n: nat): seq<Site>
    requires n <= |f.records|
  {
    if n == 0 then []
    else RecordSites(f, sample, n - 1) + if IsRead(f.records[n - 1]) then [Site(sample, n - 1)] else []
  }

  ghost predicate SitesOf(ss: seq<Site>, f: FlowSample, sample: nat, n: nat)
    requires n <= |f.records|
  {
    && (forall k | 0 <= k < |ss| :: ss[k].sample == sample && ss[k].record < n && IsRead(f.records[ss[k].record]))
    && (forall j: nat | j < n && IsRead(f.records[j]) :: Site(sample, j) in ss)
    && (forall k, l | 0 <= k < l < |ss| :: Precedes(ss[k], ss[l]))
  }

  ghost predicate FlowsOfSites(fs: seq<Flow>, ss: seq<Site>, agentIp: seq<byte>, uptime: u32, f: FlowSample, at: int) {
    && |fs| == |ss|
    && forall k | 0 <= k < |fs| ::
         ss[k].record < |f.records| && IsFlow(fs[k], agentIp, uptime, f, f.records[ss[k].record], at)
  }

  /** Raw packets are records of enterprise 0 and format 1, and no others. */
  predicate RawWhereSaid(f: FlowSample) {
    forall j | 0 <= j < |f.records| ::
      f.records[j].rawPacket.Some? <==> f.records[j].enterprise == 0 && f.records[j].format == 1
  }

  lemma OneRecord(r: FlowRecord, f: FlowSample, agentIp: seq<byte>, uptime: u32, at: int)
    requires r.rawPacket.Some? <==> r.enterprise == 0 && r.format == 1
    ensures var c := Context(agentIp, uptime, f.samplingRate, f.inputInterface, f.outputInterface, at);
      if IsRead(r) then |RecordFlows(r, c)| == 1 && IsFlow(RecordFlows(r, c)[0], agentIp, uptime, f, r, at)
      else RecordFlows(r, c) == []
  {
    hide ParseFrame;
  }

  lemma {:induction false} SampleSites(f: FlowSample, sample: nat, n: nat)
    requires n <= |f.records|
    ensures SitesOf(RecordSites(f, sample, n), f, sample, n)
  {
    hide IsRead;
    if n > 0 {
      SampleSites(f, sample, n - 1);
      var before := RecordSites(f, sample, n - 1);
      if IsRead(f.records[n - 1]) {
        assert (before + [Site(sample, n - 1)])[|before|] == Site(sample, n - 1);
        assert forall k | 0 <= k < |before| :: (before + [Site(sample, n - 1)])[k] == before[k];
      }
    }
  }

  lemma {:induction false} SampleFlowsBySite(f: FlowSample, sample: nat, agentIp: seq<byte>, uptime: u32, at: int,
                                             n: nat)
    requires n <= |f.records| && RawWhereSaid(f)
    ensures var c := Context(agentIp, uptime, f.samplingRate, f.inputInterface, f.outputInterface, at);
            FlowsOfSites(RecordsFlows(f.records[..n], c), RecordSites(f, sample, n), agentIp, uptime, f, at)
  {
    hide IsRead, IsFlow, RecordFlows;
    var c := Context(agentIp, uptime, f.samplingRate, f.inputInterface, f.outputInterface, at);
    if n > 0 {
      SampleFlowsBySite(f, sample, agentIp, uptime, at, n - 1);
      OneRecord(f.records[n - 1], f, agentIp, uptime, at);
      assert f.records[..n][..n - 1] == f.records[..n - 1];
      var fs, ss := RecordsFlows(f.records[..n - 1], c), RecordSites(f, sample, n - 1);
      var one := RecordFlows(f.records[n - 1], c);
      assert forall k | 0 <= k < |fs| :: (fs + one)[k] == fs[k];
    }
  }

  // ---- All samples ----

  /** The places of the records read in the first m samples, in order. */
  function Sites(d: Datagram, m: nat): seq<Site>
    requires m <= |d.samples|
  {
    if m == 0 then []
    else
      Sites(d, m - 1)
      + match FlowSampleOf(d.samples[m - 1])
        case None => []
        case Some(f) => RecordSites(f, m - 1, |f.records|)
  }

  ghost predicate SitesAre(ss: seq<Site>, d: Datagram, m: nat) {
    && (forall k | 0 <= k < |ss| :: ss[k].sample < m && Yields(d, ss[k]))
    && (forall s: Site | s.sample < m && Yields(d, s) :: s in ss)
    && (forall k, l | 0 <= k < l < |ss| :: Precedes(ss[k], ss[l]))
  }

  ghost predicate FlowsAre(fs: seq<Flow>, ss: seq<Site>, d: Datagram, at: int) {
    && |fs| == |ss|
    && forall k | 0 <= k < |fs| ::
         && Yields(d, ss[k])
         && var f := FlowSampleOf(d.samples[ss[k].sample]).value;
            IsFlow(fs[k], d.agentIp, d.uptime, f, f.records[ss[k].record], at)
  }

  /** As the decoder fills samples: by their type, raw packets where the records say so. */
  ghost predicate Filled(x: Sample) {
    && (x.kind == 1 <==> x.flow.Some?) && (x.kind == 3 <==> x.expandedFlow.Some?)
    && (FlowSampleOf(x).Some? ==> RawWhereSaid(FlowSampleOf(x).value))
  }

  lemma SitesJoin(d: Datagram, m: nat, before: seq<Site>, more: seq<Site>, f: FlowSample)
    requires 0 < m <= |d.samples| && FlowSampleOf(d.samples[m - 1]) == Some(f)
    requires SitesAre(before, d, m - 1) && SitesOf(more, f, m - 1, |f.records|)
    ensures SitesAre(before + more, d, m)
  {
    hide IsRead, FlowSampleOf;
    var all := before + more;
    forall k | 0 <= k < |all| ensures all[k].sample < m && Yields(d, all[k]) {
      if k >= |before| { assert all[k] == more[k - |before|]; }
    }
    forall s: Site | s.sample < m && Yields(d, s) ensures s in all {
      if s.sample == m - 1 { assert s == Site(m - 1, s.record) && s in more; } else { assert s in before; }
    }
    forall k, l | 0 <= k < l < |all| ensures Precedes(all[k], all[l]) {
      if k >= |before| { assert all[k] == more[k - |before|]; }
      if l >= |before| { assert all[l] == more[l - |before|]; }
    }
  }

  lemma {:induction false} SitesRight(d: Datagram, m: nat)
    requires m <= |d.samples|
    ensures SitesAre(Sites(d, m), d, m)
  {
    hide IsRead, FlowSampleOf, RecordSites, SitesOf;
    if m > 0 {
      SitesRight(d, m - 1);
      match FlowSampleOf(d.samples[m - 1])
      case None => assert Sites(d, m) == Sites(d, m - 1);
      case Some(f) =>
        SampleSites(f, m - 1, |f.records|);
        SitesJoin(d, m, Sites(d, m - 1), RecordSites(f, m - 1, |f.records|), f);
    }
  }

  lemma OneSample(d: Datagram, m: nat, at: int)
    requires 0 < m <= |d.samples| && Filled(d.samples[m - 1])
    ensures var x := d.samples[m - 1];
      match FlowSampleOf(x)
      case None => SampleFlows(x, d.agentIp, d.uptime, at) == []
      case Some(f) =>
        FlowsOfSites(SampleFlows(x, d.agentIp, d.uptime, at), RecordSites(f, m - 1, |f.records|),
                     d.agentIp, d.uptime, f, at)
  {
    hide RecordsFlows, RecordSites, FlowsOfSites, RawWhereSaid;
    var x := d.samples[m - 1];
    if FlowSampleOf(x).Some? {
      var f := FlowSampleOf(x).value;
      assert f.records[..|f.records|] == f.records;
      SampleFlowsBySite(f, m - 1, d.agentIp, d.uptime, at, |f.records|);
    }
  }

  lemma FlowsJoin(d: Datagram, m: nat, fs: seq<Flow>, ss: seq<Site>, more: seq<Flow>, sites: seq<Site>, f: FlowSample,
                  at: int)
    requires 0 < m <= |d.samples| && FlowSampleOf(d.samples[m - 1]) == Some(f)
    requires FlowsAre(fs, ss, d, at) && FlowsOfSites(more, sites, d.agentIp, d.uptime, f, at)
    requires SitesOf(sites, f, m - 1, |f.records|)
    ensures FlowsAre(fs + more, ss + sites, d, at)
  {
    hide IsRead, IsFlow, FlowSampleOf;
    var all, places := fs + more, ss + sites;
    forall k | 0 <= k < |all|
      ensures Yields(d, places[k])
      ensures var g := FlowSampleOf(d.samples[places[k].sample]).value;
              IsFlow(all[k], d.agentIp, d.uptime, g, g.records[places[k].record], at)
    {
      if k >= |fs| {
        assert all[k] == more[k - |fs|] && places[k] == sites[k - |fs|];
      } else {
        assert all[k] == fs[k] && places[k] == ss[k];
      }
    }
  }

  lemma {:induction false} FlowsRight(d: Datagram, m: nat, at: int)
    requires m <= |d.samples| && forall i | 0 <= i < m :: Filled(d.samples[i])
    ensures FlowsAre(SamplesFlows(d.samples[..m], d.agentIp, d.uptime, at), Sites(d, m), d, at)
  {
    hide IsRead, IsFlow, FlowSampleOf, RecordSites, SitesOf, SampleFlows, FlowsOfSites, Filled;
    if m > 0 {
      FlowsRight(d, m - 1, at);
      OneSample(d, m, at);
      assert d.samples[..m][..m - 1] == d.samples[..m - 1];
      var fs := SamplesFlows(d.samples[..m - 1], d.agentIp, d.uptime, at);
      match FlowSampleOf(d.samples[m - 1])
      case None =>
        assert fs + [] == fs && Sites(d, m - 1) + [] == Sites(d, m - 1);
      case Some(f) =>
        SampleSites(f, m - 1, |f.records|);
        FlowsJoin(d, m, fs, Sites(d, m - 1), SampleFlows(d.samples[m - 1], d.agentIp, d.uptime, at),
                  RecordSites(f, m - 1, |f.records|), f, at);
    }
  }

  // ---- Decoded datagrams ----

  lemma GoodIsFilled(x: Sample)
    requires GoodSample(x)
    ensures Filled(x)
  {
    hide Packable, GoodCounters, EncRawPacket;
  }

  lemma DecodedIsFilled(data: seq<byte>, d: Datagram)
    requires ParseDatagram(data) == Ok(d)
    ensures forall i | 0 <= i < |d.samples| :: Filled(d.samples[i])
  {
    hide ParseDatagram, GoodSample, Filled, Body, WriteWire;
    var ws, t := OnlyWrittenDecodes(data);
    forall i | 0 <= i < |d.samples| ensures Filled(d.samples[i]) {
      assert GoodWire(ws[i]) && d.samples[i] == ws[i].sample;
      GoodIsFilled(d.samples[i]);
    }
  }

  /** For every datagram the decoder accepts: the flows published stand for exactly the raw packet
      records whose frame can be read, one flow for each, in the order of samples and records; and each
      holds the values of its record, its sample and the datagram. */
  lemma FlowsByRecord(data: seq<byte>, d: Datagram, receivedAt: int)
    requires ParseDatagram(data) == Ok(d)
    ensures var flows, sites := DatagramFlows(d, receivedAt), Sites(d, |d.samples|);
      && |flows| == |sites|
      && (forall s: Site :: s in sites <==> Yields(d, s))
      && (forall k, l | 0 <= k < l < |sites| :: Precedes(sites[k], sites[l]))
      && forall k | 0 <= k < |flows| ::
           && Yields(d, sites[k])
           && var f := FlowSampleOf(d.samples[sites[k].sample]).value;
              IsFlow(flows[k], d.agentIp, d.uptime, f, f.records[sites[k].record], receivedAt)
  {
    hide IsFlow, Sites, SamplesFlows, ParseDatagram, Filled, FlowSampleOf, IsRead;
    DecodedIsFilled(data, d);
    assert d.samples[..|d.samples|] == d.samples;
    FlowsRight(d, |d.samples|, receivedAt);
    SitesRight(d, |d.samples|);
  }
}
