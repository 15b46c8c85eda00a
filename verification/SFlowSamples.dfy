/** What nesting by length gives the sFlow decoder: counts, order, and skipping what it does not know. */
module SFlowSamples {
  import opened Options
  import opened Bytes
  import opened Sequences
  import opened SFlow

  // ---- Lists of anything ----

  /** Parsing a + b values is parsing a values, then b more. */
  lemma {:induction false} ManySplit<T>(parse: seq<byte> -> Parsed<T>, s: seq<byte>, a: nat, b: nat)
    ensures Many(parse, s, a + b)
            == match Many(parse, s, a)
               case Err(e) => Err(e)
               case Ok((xs, rest)) =>
                 match Many(parse, rest, b)
                 case Err(e) => Err(e)
                 case Ok((ys, end)) => Ok((xs + ys, end))
    decreases a
  {
    if a == 0 {
      NothingBefore(Many(parse, s, b));
    } else {
      match parse(s)
      case Err(e) =>
      case Ok((x, rest)) =>
        ManySplit(parse, rest, a - 1, b);
        match Many(parse, rest, a - 1)
        case Err(e) =>
        case Ok((xs, rest')) =>
          match Many(parse, rest', b)
          case Err(e) =>
          case Ok((ys, end)) => Assoc([x], xs, ys);
    }
  }

  lemma NothingBefore<T>(more: Parsed<seq<T>>)
    ensures more.Ok? ==> more == Ok(([] + more.value.0, more.value.1))
  {
    if more.Ok? {
      assert [] + more.value.0 == more.value.0;
    }
  }

  /** On success there are exactly as many values as the count said, and each is what the parser found
      where the values before it end. */
  lemma {:induction false} ManyFindsAll<T>(parse: seq<byte> -> Parsed<T>, s: seq<byte>, n: nat)
    requires Many(parse, s, n).Ok?
    ensures |Many(parse, s, n).value.0| == n
    ensures forall i: nat | i < n ::
              && Many(parse, s, i).Ok? && Many(parse, s, i).value.0 == Many(parse, s, n).value.0[..i]
              && parse(Many(parse, s, i).value.1).Ok?
              && parse(Many(parse, s, i).value.1).value.0 == Many(parse, s, n).value.0[i]
    decreases n
  {
    if n > 0 {
      ManySplit(parse, s, n - 1, 1);
      var front := Many(parse, s, n - 1);
      var last := parse(front.value.1);
      assert Many(parse, front.value.1, 1).value.0 == [last.value.0];
      ManyFindsAll(parse, s, n - 1);
      Extended(front.value.0, last.value.0);
    }
  }

  lemma Extended<T>(xs: seq<T>, x: T)
    ensures (xs + [x])[|xs|] == x
    ensures forall i | 0 <= i <= |xs| :: (xs + [x])[..i] == xs[..i]
    ensures forall i | 0 <= i < |xs| :: (xs + [x])[i] == xs[i]
    ensures xs[..|xs|] == xs
  {
  }

  /** The first value that cannot be parsed fails the whole list. */
  lemma FirstErrorWins<T>(parse: seq<byte> -> Parsed<T>, s: seq<byte>, i: nat, n: nat)
    requires i < n && Many(parse, s, i).Ok? && parse(Many(parse, s, i).value.1).Err?
    ensures Many(parse, s, n) == Err(parse(Many(parse, s, i).value.1).error)
  {
    ManySplit(parse, s, i, n - i);
  }

  // ---- Blocks ----

  function EncBlock(word: u32, body: seq<byte>): seq<byte>
    requires |body| < 0x1_0000_0000
  {
    Enc32(word) + Enc32(|body|) + body
  }

  lemma BlockReadsBack(word: u32, body: seq<byte>, t: seq<byte>)
    requires |body| < 0x1_0000_0000
    ensures ParseBlock(EncBlock(word, body) + t) == Ok(((word, body), t))
  {
    hide Enc32;
    var s := EncBlock(word, body) + t;
    assert WordAt(s, 0) == word && WordAt(s, 4) == |body|;
    assert s[8..8 + |body|] == body && s[8 + |body|..] == t;
  }

  /** A block does not depend on what follows it. */
  lemma BlockIsLocal(s: seq<byte>, t: seq<byte>)
    requires ParseBlock(s).Ok?
    ensures ParseBlock(s + t) == Ok((ParseBlock(s).value.0, ParseBlock(s).value.1 + t))
  {
    var n: nat := WordAt(s, 4);
    Front(s, t, 8, 8 + n);
    assert Words(s + t, 2)[0] == Words(s, 2)[0] && Words(s + t, 2)[1] == Words(s, 2)[1] == n;
  }

  lemma Front(s: seq<byte>, t: seq<byte>, i: nat, j: nat)
    requires i <= j <= |s|
    ensures (s + t)[i..j] == s[i..j] && (s + t)[j..] == s[j..] + t
  {
  }

  lemma SampleIsLocal(s: seq<byte>, t: seq<byte>)
    requires ParseSample(s).Ok?
    ensures ParseSample(s + t) == Ok((ParseSample(s).value.0, ParseSample(s).value.1 + t))
  {
    hide ParseBlock, ToSample;
    BlockIsLocal(s, t);
  }

  lemma {:induction false} SamplesAreLocal(s: seq<byte>, t: seq<byte>, n: nat)
    requires Many(ParseSample, s, n).Ok?
    ensures Many(ParseSample, s + t, n) == Ok((Many(ParseSample, s, n).value.0, Many(ParseSample, s, n).value.1 + t))
    decreases n
  {
    hide ParseSample;
    if n > 0 {
      SampleIsLocal(s, t);
      SamplesAreLocal(ParseSample(s).value.1, t, n - 1);
    }
  }

  // ---- Flows in order ----

  lemma {:induction false} FlowsSplit(xs: seq<Sample>, ys: seq<Sample>, agentIp: seq<byte>, uptime: u32,
                                      receivedAt: int)
    ensures SamplesFlows(xs + ys, agentIp, uptime, receivedAt)
            == SamplesFlows(xs, agentIp, uptime, receivedAt) + SamplesFlows(ys, agentIp, uptime, receivedAt)
    decreases |ys|
  {
    hide SampleFlows;
    if ys == [] {
      assert xs + ys == xs;
    } else {
      var front := ys[..|ys| - 1];
      assert (xs + ys)[..|xs + ys| - 1] == xs + front;
      FlowsSplit(xs, front, agentIp, uptime, receivedAt);
    }
  }

  // ---- Datagrams ----

  datatype Header = Header(agentIp: seq<byte>, subAgent: u32, sequenceNumber: u32, uptime: u32)

  function EncHeader(h: Header, sampleCount: u32): seq<byte>
    requires |h.agentIp| == 4
  {
    Enc32(5) + Enc32(1) + h.agentIp + Enc32(h.subAgent) + Enc32(h.sequenceNumber) + Enc32(h.uptime)
    + Enc32(sampleCount)
  }

  lemma WordIs(s: seq<byte>, p: nat, w: u32)
    requires p + 4 <= |s| && s[p..p + 4] == Enc32(w)
    ensures WordAt(s, p) == w
  {
    hide Enc32;
    var e := s[p..p + 4];
    assert e[0] == s[p] && e[1] == s[p + 1] && e[2] == s[p + 2] && e[3] == s[p + 3];
  }

  /** A block of four bytes, found where it stands. */
  lemma Standing(a: seq<byte>, b: seq<byte>, c: seq<byte>)
    ensures (a + b + c)[|a|..|a| + |b|] == b && (a + b + c)[|a| + |b|..] == c
  {
  }

  lemma HeaderReads(h: Header, n: u32, body: seq<byte>)
    requires |h.agentIp| == 4
    ensures var s := EncHeader(h, n) + body;
      && |s| >= 28 && WordAt(s, 0) == 5 && WordAt(s, 4) == 1 && s[8..12] == h.agentIp
      && WordAt(s, 12) == h.subAgent && WordAt(s, 16) == h.sequenceNumber && WordAt(s, 20) == h.uptime
      && WordAt(s, 24) == n && s[28..] == body
  {
    hide Enc32, WordAt;
    var s := EncHeader(h, n) + body;
    var p2 := Enc32(5) + Enc32(1);
    var p3 := p2 + h.agentIp;
    var p4 := p3 + Enc32(h.subAgent);
    var p5 := p4 + Enc32(h.sequenceNumber);
    var p6 := p5 + Enc32(h.uptime);
    Standing(p6, Enc32(n), body);
    Slice(p6, Enc32(n), s);
    Slice(p5, Enc32(h.uptime), s);
    Slice(p4, Enc32(h.sequenceNumber), s);
    Slice(p3, Enc32(h.subAgent), s);
    Slice(p2, h.agentIp, s);
    Slice(Enc32(5), Enc32(1), s);
    assert s[0..4] == Enc32(5);
    WordIs(s, 0, 5);
    WordIs(s, 4, 1);
    WordIs(s, 12, h.subAgent);
    WordIs(s, 16, h.sequenceNumber);
    WordIs(s, 20, h.uptime);
    WordIs(s, 24, n);
  }

  /** What stands behind a prefix of s, when prefix and block are one. */
  lemma Slice(p: seq<byte>, b: seq<byte>, s: seq<byte>)
    requires p + b <= s
    ensures s[|p|..|p| + |b|] == b && p <= s
  {
    assert (p + b)[|p|..] == b && (p + b)[..|p|] == p;
  }

  /** A datagram with a good header is its samples, as many as the header says, or their error. */
  lemma DatagramIsSamples(h: Header, n: u32, body: seq<byte>)
    requires |h.agentIp| == 4
    ensures ParseDatagram(EncHeader(h, n) + body)
            == match Many(ParseSample, body, n)
               case Err(e) => Err(e)
               case Ok((xs, _)) =>
                 Ok(Datagram(5, h.agentIp, h.subAgent, h.sequenceNumber, h.uptime, xs))
  {
    hide EncHeader, WordAt, Many;
    HeaderReads(h, n, body);
  }

  /** Exactly sampleCount samples on success; and the first sample that does not decode leaves nothing
      but its error. */
  lemma AllSamplesOrNone(h: Header, n: u32, body: seq<byte>)
    requires |h.agentIp| == 4
    ensures var d := ParseDatagram(EncHeader(h, n) + body);
            if d.Ok? then |d.value.samples| == n
            else exists i: nat :: i < n && Many(ParseSample, body, i).Ok?
                   && ParseSample(Many(ParseSample, body, i).value.1) == Err(d.error)
  {
    hide ParseSample, EncHeader, ParseDatagram, Many;
    DatagramIsSamples(h, n, body);
    if Many(ParseSample, body, n).Ok? {
      ManyFindsAll(ParseSample, body, n);
    } else {
      var i := FirstError(ParseSample, body, n);
    }
  }

  lemma {:induction false} FirstError<T>(parse: seq<byte> -> Parsed<T>, s: seq<byte>, n: nat) returns (i: nat)
    requires Many(parse, s, n).Err?
    ensures i < n && Many(parse, s, i).Ok? && parse(Many(parse, s, i).value.1) == Err(Many(parse, s, n).error)
    decreases n
  {
    if Many(parse, s, n - 1).Err? {
      i := FirstError(parse, s, n - 1);
      FirstErrorWins(parse, s, i, n);
    } else {
      i := n - 1;
      ManySplit(parse, s, n - 1, 1);
    }
  }

  // ---- Errors ----

  lemma {:induction false} ManyTruncated<T>(parse: seq<byte> -> Parsed<T>, s: seq<byte>, n: nat)
    requires forall r :: parse(r).Err? ==> parse(r) == Err(Truncated)
    ensures Many(parse, s, n).Err? ==> Many(parse, s, n) == Err(Truncated)
    decreases n
  {
    if n > 0 && parse(s).Ok? {
      ManyTruncated(parse, parse(s).value.1, n - 1);
    }
  }

  lemma RecordsTruncated()
    ensures forall s :: ParseFlowRecord(s).Err? ==> ParseFlowRecord(s) == Err(Truncated)
    ensures forall s :: ParseCounterRecord(s).Err? ==> ParseCounterRecord(s) == Err(Truncated)
  {
  }

  lemma SampleTruncated(s: seq<byte>)
    ensures ParseSample(s).Err? ==> ParseSample(s) == Err(Truncated)
  {
    hide ParseFlowRecord, ParseCounterRecord, Many;
    RecordsTruncated();
    if ParseBlock(s).Ok? {
      BodyTruncated(ParseBlock(s).value.0.0, ParseBlock(s).value.0.1);
    }
  }

  lemma BodyTruncated(kind: u32, body: seq<byte>)
    ensures ToSample(kind, body).Err? ==> ToSample(kind, body) == Err(Truncated)
  {
    hide ParseFlowRecord, ParseCounterRecord, Many, Words;
    RecordsTruncated();
    if |body| >= 32 { ManyTruncated(ParseFlowRecord, body[32..], Words(body, 8)[7]); }
    if |body| >= 36 { ManyTruncated(ParseFlowRecord, body[36..], Words(body, 9)[8]); }
    if |body| >= 12 { ManyTruncated(ParseCounterRecord, body[12..], Words(body, 3)[2]); }
    if |body| >= 16 { ManyTruncated(ParseCounterRecord, body[16..], Words(body, 4)[3]); }
  }

  /** The error of a datagram: another version than 5 first, then another address type than 1, each with
      the word found; anything else that fails has been cut short. */
  lemma ErrorsInOrder(s: seq<byte>)
    ensures |s| >= 4 && WordAt(s, 0) != 5 ==> ParseDatagram(s) == Err(UnsupportedVersion(WordAt(s, 0)))
    ensures |s| >= 8 && WordAt(s, 0) == 5 && WordAt(s, 4) != 1
            ==> ParseDatagram(s) == Err(UnsupportedAddressType(WordAt(s, 4)))
    ensures |s| < 4 || (WordAt(s, 0) == 5 && (|s| < 8 || (WordAt(s, 4) == 1 && |s| < 28)))
            ==> ParseDatagram(s) == Err(Truncated)
    ensures |s| >= 28 && WordAt(s, 0) == 5 && WordAt(s, 4) == 1 && ParseDatagram(s).Err?
            ==> ParseDatagram(s) == Err(Truncated)
  {
    hide ParseSample, Many, WordAt;
    if |s| >= 28 {
      forall r ensures ParseSample(r).Err? ==> ParseSample(r) == Err(Truncated) {
        SampleTruncated(r);
      }
      ManyTruncated(ParseSample, s[28..], WordAt(s, 24));
    }
  }

  predicate UnknownKind(kind: u32) {
    kind !in {1, 2, 3, 4}
  }

  lemma UnknownSampleParses(kind: u32, body: seq<byte>, t: seq<byte>)
    requires UnknownKind(kind) && |body| < 0x1_0000_0000
    ensures ParseSample(EncBlock(kind, body) + t) == Ok((Sample(kind, None, None, None), t))
  {
    hide ParseBlock, EncBlock;
    BlockReadsBack(kind, body, t);
  }

  /** A sample of unknown type put between any a samples and anything that follows them, with the count
      raised by one, is kept as an empty sample in its place, and changes neither the flows nor the
      error. */
  lemma UnknownSampleIsSkipped(h: Header, before: seq<byte>, a: nat, kind: u32, body: seq<byte>, after: seq<byte>,
                               b: nat, receivedAt: int)
    requires |h.agentIp| == 4 && a + b + 1 < 0x1_0000_0000
    requires Many(ParseSample, before, a).Ok? && Many(ParseSample, before, a).value.1 == []
    requires UnknownKind(kind) && |body| < 0x1_0000_0000
    ensures var without := ParseDatagram(EncHeader(h, a + b) + (before + after));
            var with := ParseDatagram(EncHeader(h, a + b + 1) + (before + (EncBlock(kind, body) + after)));
            if without.Err? then with == without
            else
              && with.Ok? && |without.value.samples| >= a
              && with.value == without.value.(samples := without.value.samples[..a] + [Sample(kind, None, None, None)]
                                                        + without.value.samples[a..])
              && DatagramFlows(with.value, receivedAt) == DatagramFlows(without.value, receivedAt)
  {
    hide ParseSample, EncBlock, EncHeader, ParseDatagram, Many, SamplesFlows;
    var xs, unknown := Many(ParseSample, before, a).value.0, Sample(kind, None, None, None);
    var more := EncBlock(kind, body) + after;
    DatagramIsSamples(h, a + b, before + after);
    DatagramIsSamples(h, a + b + 1, before + more);
    SamplesFollowed(before, after, a, b);
    SamplesFollowed(before, more, a, b + 1);
    UnknownFirst(kind, body, after, b);
    ManyFindsAll(ParseSample, before, a);
    if Many(ParseSample, after, b).Ok? {
      var ys := Many(ParseSample, after, b).value.0;
      Inserted(xs, unknown, ys);
      EmptySampleAddsNothing(xs, unknown, ys, h.agentIp, h.uptime, receivedAt);
    }
  }

  lemma SamplesFollowed(before: seq<byte>, after: seq<byte>, a: nat, b: nat)
    requires Many(ParseSample, before, a).Ok? && Many(ParseSample, before, a).value.1 == []
    ensures Many(ParseSample, before + after, a + b)
            == match Many(ParseSample, after, b)
               case Err(e) => Err(e)
               case Ok((ys, end)) => Ok((Many(ParseSample, before, a).value.0 + ys, end))
  {
    hide ParseSample, Many;
    SamplesAreLocal(before, after, a);
    assert [] + after == after;
    ManySplit(ParseSample, before + after, a, b);
  }

  lemma UnknownFirst(kind: u32, body: seq<byte>, after: seq<byte>, b: nat)
    requires UnknownKind(kind) && |body| < 0x1_0000_0000
    ensures Many(ParseSample, EncBlock(kind, body) + after, b + 1)
            == match Many(ParseSample, after, b)
               case Err(e) => Err(e)
               case Ok((ys, end)) => Ok(([Sample(kind, None, None, None)] + ys, end))
  {
    hide ParseSample, EncBlock;
    UnknownSampleParses(kind, body, after);
  }

  lemma Inserted(xs: seq<Sample>, x: Sample, ys: seq<Sample>)
    ensures (xs + ys)[..|xs|] + [x] + (xs + ys)[|xs|..] == xs + ([x] + ys)
  {
  }

  lemma EmptySampleAddsNothing(xs: seq<Sample>, x: Sample, ys: seq<Sample>, agentIp: seq<byte>, uptime: u32,
                               receivedAt: int)
    requires x.flow.None? && x.expandedFlow.None?
    ensures SamplesFlows(xs + ([x] + ys), agentIp, uptime, receivedAt)
            == SamplesFlows(xs + ys, agentIp, uptime, receivedAt)
  {
    FlowsSplit(xs, [x] + ys, agentIp, uptime, receivedAt);
    FlowsSplit([x], ys, agentIp, uptime, receivedAt);
    FlowsSplit(xs, ys, agentIp, uptime, receivedAt);
    assert SamplesFlows([x], agentIp, uptime, receivedAt) == [] by {
      assert [x][..0] == [];
    }
    assert [] + SamplesFlows(ys, agentIp, uptime, receivedAt) == SamplesFlows(ys, agentIp, uptime, receivedAt);
  }

  // ---- Standard and expanded samples ----

  /** The source id of a standard sample written out as an expanded one does; what is too short to
      have a source id stays as it is. */
  function Expanded(s: seq<byte>): seq<byte> {
    if |s| < 8 then s
    else s[..4] + Enc32(WordAt(s, 4) / 0x100_0000) + Enc32(WordAt(s, 4) % 0x100_0000) + s[8..]
  }

  lemma SameWord(s: seq<byte>, p: nat, t: seq<byte>, q: nat)
    requires p + 4 <= |s| && q + 4 <= |t| && s[p..p + 4] == t[q..q + 4]
    ensures WordAt(s, p) == WordAt(t, q)
  {
    var e, f := s[p..p + 4], t[q..q + 4];
    assert e[0] == s[p] && e[1] == s[p + 1] && e[2] == s[p + 2] && e[3] == s[p + 3];
    assert f[0] == t[q] && f[1] == t[q + 1] && f[2] == t[q + 2] && f[3] == t[q + 3];
  }

  lemma ExpandedSlices(s: seq<byte>)
    requires |s| >= 8
    ensures var t, id := Expanded(s), WordAt(s, 4);
      && |t| == |s| + 4 && t[..4] == s[..4]
      && t[4..8] == Enc32(id / 0x100_0000) && t[8..12] == Enc32(id % 0x100_0000) && t[12..] == s[8..]
  {
    hide Enc32, WordAt;
  }

  lemma SameTail(s: seq<byte>, t: seq<byte>, k: nat)
    requires |t| == |s| + 4 && |s| >= 8 && t[12..] == s[8..] && 8 <= k <= |s|
    ensures t[k + 4..] == s[k..]
    ensures k + 4 <= |s| ==> t[k + 4..k + 8] == s[k..k + 4]
  {
    assert t[12..][k - 8..] == t[k + 4..] && s[8..][k - 8..] == s[k..];
    assert k + 4 <= |s| ==> t[k + 4..][..4] == t[k + 4..k + 8] && s[k..][..4] == s[k..k + 4];
  }

  lemma ExpandedWordAt(s: seq<byte>, i: nat)
    requires |s| >= 8 && 4 * i <= |s|
    ensures var t, id := Expanded(s), WordAt(s, 4);
      && |t| == |s| + 4
      && WordAt(t, 4 * i) == if i == 0 then WordAt(s, 0) else if i == 1 then id / 0x100_0000
                             else if i == 2 then id % 0x100_0000 else WordAt(s, 4 * (i - 1))
  {
    hide Enc32, WordAt, Expanded;
    var t := Expanded(s);
    ExpandedSlices(s);
    if i == 0 {
      assert t[0..4] == s[0..4];
      SameWord(s, 0, t, 0);
    } else if i == 1 {
      WordIs(t, 4, WordAt(s, 4) / 0x100_0000);
    } else if i == 2 {
      WordIs(t, 8, WordAt(s, 4) % 0x100_0000);
    } else {
      SameTail(s, t, 4 * (i - 1));
      SameWord(s, 4 * (i - 1), t, 4 * i);
    }
  }

  /** The words of the expanded form: one more, the second one split in two. */
  lemma ExpandedWords(s: seq<byte>, k: nat)
    requires k >= 2 && |s| >= 4 * k
    ensures var t, w := Expanded(s), Words(s, k);
      && |t| == |s| + 4 && t[4 * k + 4..] == s[4 * k..]
      && Words(t, k + 1) == [w[0], w[1] / 0x100_0000, w[1] % 0x100_0000] + w[2..]
  {
    hide WordAt, Words, Expanded;
    var t, w := Expanded(s), Words(s, k);
    ExpandedSlices(s);
    SameTail(s, t, 4 * k);
    var e := [w[0], w[1] / 0x100_0000, w[1] % 0x100_0000] + w[2..];
    forall i | 0 <= i < k + 1 ensures Words(t, k + 1)[i] == e[i] {
      WordOf(t, k + 1, i);
      ExpandedWordAt(s, i);
      WordOf(s, k, 0);
      WordOf(s, k, 1);
      if i >= 3 { WordOf(s, k, i - 1); }
    }
  }

  lemma WordOf(s: seq<byte>, k: nat, i: nat)
    requires 4 * k <= |s| && i < k
    ensures Words(s, k)[i] == WordAt(s, 4 * i)
  {
  }

  lemma FlowStandardIsExpanded(s: seq<byte>)
    ensures ParseFlowSample(s) == ParseExpandedFlowSample(Expanded(s))
  {
    hide Many, Expanded, Words;
    ExpandedLength(s);
    if |s| >= 32 {
      ExpandedWords(s, 8);
    }
  }

  lemma CounterStandardIsExpanded(s: seq<byte>)
    ensures ParseCounterSample(s) == ParseExpandedCounterSample(Expanded(s))
  {
    hide Many, Expanded, Words;
    ExpandedLength(s);
    if |s| >= 12 {
      ExpandedWords(s, 3);
    }
  }

  lemma ExpandedLength(s: seq<byte>)
    ensures |Expanded(s)| == if |s| < 8 then |s| else |s| + 4
  {
  }

  /** The standard and the expanded form of one sample decode to the same value, or fail alike,
      whatever the bytes are. */
  lemma StandardIsExpanded(s: seq<byte>)
    ensures ParseFlowSample(s) == ParseExpandedFlowSample(Expanded(s))
    ensures ParseCounterSample(s) == ParseExpandedCounterSample(Expanded(s))
  {
    hide ParseFlowSample, ParseExpandedFlowSample, ParseCounterSample, ParseExpandedCounterSample, Expanded;
    FlowStandardIsExpanded(s);
    CounterStandardIsExpanded(s);
  }
}
