/** Writing sFlow datagrams in the layout the decoder reads, and reading them back: the decoder accepts
    exactly what can be written, and finds what was written. */
module SFlowRoundTrip {
  import opened Bytes
  import opened SFlow
  import opened SFlowSamples

  // ---- Lists of anything ----

  function WriteAll<T>(write: T -> seq<byte>, xs: seq<T>): seq<byte> {
    if xs == [] then [] else write(xs[0]) + WriteAll(write, xs[1..])
  }

  /** What is written is read back, whatever follows. */
  ghost predicate ReadsBack<T(!new)>(parse: seq<byte> -> Parsed<T>, write: T -> seq<byte>, good: T -> bool) {
    forall x: T, t: seq<byte> | good(x) :: parse(write(x) + t) == Ok((x, t))
  }

  /** Only what can be written is accepted. */
  ghost predicate OnlyWritten<T>(parse: seq<byte> -> Parsed<T>, write: T -> seq<byte>, good: T -> bool) {
    forall s: seq<byte> | parse(s).Ok? :: good(parse(s).value.0) && s == write(parse(s).value.0) + parse(s).value.1
  }

  predicate All<T>(good: T -> bool, xs: seq<T>) {
    forall i | 0 <= i < |xs| :: good(xs[i])
  }

  lemma {:induction false} ManyReadsBack<T(!new)>(parse: seq<byte> -> Parsed<T>, write: T -> seq<byte>, good: T -> bool,
                                                  xs: seq<T>, t: seq<byte>)
    requires ReadsBack(parse, write, good) && All(good, xs)
    ensures Many(parse, WriteAll(write, xs) + t, |xs|) == Ok((xs, t))
    decreases |xs|
  {
    if xs == [] {
      assert WriteAll(write, xs) + t == t;
    } else {
      var rest := WriteAll(write, xs[1..]) + t;
      assert WriteAll(write, xs) + t == write(xs[0]) + rest;
      assert good(xs[0]) && parse(write(xs[0]) + rest) == Ok((xs[0], rest));
      ManyReadsBack(parse, write, good, xs[1..], t);
      assert [xs[0]] + xs[1..] == xs;
    }
  }

  lemma {:induction false} ManyOnlyWritten<T(!new)>(parse: seq<byte> -> Parsed<T>, write: T -> seq<byte>,
                                                    good: T -> bool, s: seq<byte>, n: nat)
    requires OnlyWritten(parse, write, good) && Many(parse, s, n).Ok?
    ensures var (xs, t) := Many(parse, s, n).value;
            |xs| == n && All(good, xs) && s == WriteAll(write, xs) + t
    decreases n
  {
    if n == 0 {
      assert [] + s == s;
    } else {
      var (x, rest) := parse(s).value;
      ManyOnlyWritten(parse, write, good, rest, n - 1);
      var (xs, t) := Many(parse, rest, n - 1).value;
      assert ([x] + xs)[1..] == xs;
      assert s == write(x) + (WriteAll(write, xs) + t) == WriteAll(write, [x] + xs) + t;
    }
  }

  // ---- Words ----

  function EncWords(ws: seq<u32>): (s: seq<byte>)
    ensures |s| == 4 * |ws|
  {
    if ws == [] then [] else EncWords(ws[..|ws| - 1]) + Enc32(ws[|ws| - 1])
  }

  lemma {:induction false} WordsReadBack(ws: seq<u32>, t: seq<byte>)
    ensures Words(EncWords(ws) + t, |ws|) == ws && (EncWords(ws) + t)[4 * |ws|..] == t
    decreases |ws|
  {
    if ws != [] {
      var front, last := ws[..|ws| - 1], ws[|ws| - 1];
      var t' := Enc32(last) + t;
      assert EncWords(ws) + t == EncWords(front) + t';
      WordsReadBack(front, t');
      LastWord(EncWords(front), last, t);
      assert Words(EncWords(ws) + t, |ws|) == Words(EncWords(front) + t', |front|) + [last];
    }
  }

  lemma LastWord(a: seq<byte>, w: u32, t: seq<byte>)
    ensures WordAt(a + (Enc32(w) + t), |a|) == w
  {
    hide Enc32;
  }

  lemma SplitWord(a: byte, b: byte, c: byte, d: byte)
    ensures Enc32(Be32(a, b, c, d)) == [a, b, c, d]
  {
    var x := Be32(a, b, c, d);
    assert x / 0x1_0000 == a * 0x100 + b && x % 0x1_0000 == c * 0x100 + d;
  }

  lemma {:induction false} OnlyWords(s: seq<byte>, k: nat)
    requires 4 * k <= |s|
    ensures EncWords(Words(s, k)) + s[4 * k..] == s
  {
    hide Enc32, WordAt;
    if k == 0 {
      assert [] + s == s;
    } else {
      OnlyWords(s, k - 1);
      assert Words(s, k)[..k - 1] == Words(s, k - 1) && Words(s, k)[k - 1] == WordAt(s, 4 * (k - 1));
      OneWord(s, 4 * (k - 1));
    }
  }

  lemma OneWord(s: seq<byte>, p: nat)
    requires p + 4 <= |s|
    ensures s[p..] == Enc32(WordAt(s, p)) + s[p + 4..]
  {
    SplitWord(s[p], s[p + 1], s[p + 2], s[p + 3]);
    assert Enc32(WordAt(s, p)) == s[p..p + 4];
  }

  // ---- Records ----

  /** A block, when it has a wire form. */
  function WriteBlock(word: nat, body: seq<byte>): seq<byte> {
    if word < 0x1_0000_0000 && |body| < 0x1_0000_0000 then EncBlock(word, body) else []
  }

  lemma BlockOnlyWritten(s: seq<byte>)
    requires ParseBlock(s).Ok?
    ensures var ((word, body), t) := ParseBlock(s).value;
            |body| < 0x1_0000_0000 && s == WriteBlock(word, body) + t
  {
    hide Enc32;
    var n: nat := WordAt(s, 4);
    OneWord(s, 0);
    OneWord(s, 4);
    assert s == s[0..] && s[8..] == s[8..8 + n] + s[8 + n..];
  }

  function EncRawPacket(p: RawPacket): seq<byte> {
    EncWords([p.protocol, p.frameLength, p.stripped, p.headerLength]) + p.header
  }

  lemma RawPacketReadsBack(p: RawPacket, slack: seq<byte>)
    requires p.headerLength == |p.header|
    ensures ParseRawPacket(EncRawPacket(p) + slack) == Ok(p)
  {
    hide EncWords;
    var ws := [p.protocol, p.frameLength, p.stripped, p.headerLength];
    var s := EncRawPacket(p) + slack;
    assert s == EncWords(ws) + (p.header + slack);
    WordsReadBack(ws, p.header + slack);
    assert s[16..16 + |p.header|] == s[16..][..|p.header|] == p.header;
  }

  lemma RawPacketOnlyWritten(s: seq<byte>)
    requires ParseRawPacket(s).Ok?
    ensures var p := ParseRawPacket(s).value;
            p.headerLength == |p.header| && EncRawPacket(p) <= s
  {
    hide EncWords;
    var p := ParseRawPacket(s).value;
    OnlyWords(s, 4);
    assert Words(s, 4) == [p.protocol, p.frameLength, p.stripped, p.headerLength];
    assert s[16..] == p.header + s[16 + |p.header|..];
  }

  predicate Packable(hi: nat, lo: nat, unit: nat) {
    lo < unit && hi * unit < 0x1_0000_0000 && unit in {0x1000, 0x100_0000}
  }

  /** Two numbers of fixed width share one word without loss. */
  lemma PackingIsLossless(hi: nat, lo: nat, unit: nat)
    requires Packable(hi, lo, unit)
    ensures hi * unit + lo < 0x1_0000_0000 && (hi * unit + lo) / unit == hi && (hi * unit + lo) % unit == lo
  {
    if unit == 0x1000 {
      assert (hi * 0x1000 + lo) / 0x1000 == hi;
    } else {
      assert (hi * 0x100_0000 + lo) / 0x100_0000 == hi;
    }
  }

  lemma UnpackedIsPackable(word: u32, unit: nat)
    requires unit in {0x1000, 0x100_0000}
    ensures Packable(word / unit, word % unit, unit) && word / unit * unit + word % unit == word
  {
  }

  function WriteFlowRecord(r: FlowRecord): seq<byte> {
    WriteBlock(r.enterprise * 0x1000 + r.format, r.rawData)
  }

  predicate GoodFlowRecord(r: FlowRecord) {
    && Packable(r.enterprise, r.format, 0x1000) && r.length == |r.rawData|
    && match r.rawPacket
       case None => !IsRawPacket(r.enterprise, r.format)
       case Some(p) =>
         IsRawPacket(r.enterprise, r.format) && p.headerLength == |p.header| && EncRawPacket(p) <= r.rawData
  }

  lemma FlowRecordReadsBack(r: FlowRecord, t: seq<byte>)
    requires GoodFlowRecord(r)
    ensures ParseFlowRecord(WriteFlowRecord(r) + t) == Ok((r, t))
  {
    hide ParseBlock, EncBlock, EncRawPacket, ParseRawPacket;
    PackingIsLossless(r.enterprise, r.format, 0x1000);
    BlockReadsBack(r.enterprise * 0x1000 + r.format, r.rawData, t);
    if r.rawPacket.Some? {
      var p := r.rawPacket.value;
      RawPacketReadsBack(p, r.rawData[|EncRawPacket(p)|..]);
      assert EncRawPacket(p) + r.rawData[|EncRawPacket(p)|..] == r.rawData;
    }
  }

  lemma FlowRecordOnlyWritten(s: seq<byte>)
    requires ParseFlowRecord(s).Ok?
    ensures GoodFlowRecord(ParseFlowRecord(s).value.0)
    ensures s == WriteFlowRecord(ParseFlowRecord(s).value.0) + ParseFlowRecord(s).value.1
  {
    hide ParseBlock, WriteBlock, EncRawPacket, ParseRawPacket;
    BlockOnlyWritten(s);
    var ((word, body), t) := ParseBlock(s).value;
    UnpackedIsPackable(word, 0x1000);
    if IsRawPacket(word / 0x1000, word % 0x1000) {
      RawPacketOnlyWritten(body);
    }
  }

  function WriteCounterRecord(r: CounterRecord): seq<byte> {
    WriteBlock(r.enterprise * 0x1000 + r.format, r.data)
  }

  predicate GoodCounterRecord(r: CounterRecord) {
    Packable(r.enterprise, r.format, 0x1000) && r.length == |r.data|
  }

  lemma CounterRecordReadsBack(r: CounterRecord, t: seq<byte>)
    requires GoodCounterRecord(r)
    ensures ParseCounterRecord(WriteCounterRecord(r) + t) == Ok((r, t))
  {
    hide ParseBlock, EncBlock;
    PackingIsLossless(r.enterprise, r.format, 0x1000);
    BlockReadsBack(r.enterprise * 0x1000 + r.format, r.data, t);
  }

  lemma CounterRecordOnlyWritten(s: seq<byte>)
    requires ParseCounterRecord(s).Ok?
    ensures GoodCounterRecord(ParseCounterRecord(s).value.0)
    ensures s == WriteCounterRecord(ParseCounterRecord(s).value.0) + ParseCounterRecord(s).value.1
  {
    hide ParseBlock, WriteBlock;
    BlockOnlyWritten(s);
    UnpackedIsPackable(ParseBlock(s).value.0.0, 0x1000);
  }

  lemma FlowRecords()
    ensures ReadsBack(ParseFlowRecord, WriteFlowRecord, GoodFlowRecord)
    ensures OnlyWritten(ParseFlowRecord, WriteFlowRecord, GoodFlowRecord)
  {
    hide ParseFlowRecord, WriteFlowRecord, GoodFlowRecord;
    forall r: FlowRecord, t: seq<byte> | GoodFlowRecord(r)
      ensures ParseFlowRecord(WriteFlowRecord(r) + t) == Ok((r, t))
    {
      FlowRecordReadsBack(r, t);
    }
    forall s: seq<byte> | ParseFlowRecord(s).Ok?
      ensures GoodFlowRecord(ParseFlowRecord(s).value.0)
      ensures s == WriteFlowRecord(ParseFlowRecord(s).value.0) + ParseFlowRecord(s).value.1
    {
      FlowRecordOnlyWritten(s);
    }
  }

  lemma CounterRecords()
    ensures ReadsBack(ParseCounterRecord, WriteCounterRecord, GoodCounterRecord)
    ensures OnlyWritten(ParseCounterRecord, WriteCounterRecord, GoodCounterRecord)
  {
    hide ParseCounterRecord, WriteCounterRecord, GoodCounterRecord;
    forall r: CounterRecord, t: seq<byte> | GoodCounterRecord(r)
      ensures ParseCounterRecord(WriteCounterRecord(r) + t) == Ok((r, t))
    {
      CounterRecordReadsBack(r, t);
    }
    forall s: seq<byte> | ParseCounterRecord(s).Ok?
      ensures GoodCounterRecord(ParseCounterRecord(s).value.0)
      ensures s == WriteCounterRecord(ParseCounterRecord(s).value.0) + ParseCounterRecord(s).value.1
    {
      CounterRecordOnlyWritten(s);
    }
  }
}
