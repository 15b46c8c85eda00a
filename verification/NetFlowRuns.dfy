/** The collector over any packets received: what it produces, and exactly when it loses nothing. */
module NetFlowRuns {
  import opened Bytes
  import opened Sequences
  import opened NetFlow
  import opened NetFlowBounds
  import opened NetFlowRoundTrip

  /** The state, and everything produced so far. */
  datatype Log = Log(st: State, produced: seq<FlowRecord>)

  function Run(rs: seq<Received>): Log {
    if rs == [] then Log(Init(), [])
    else
      var before := Run(rs[..|rs| - 1]);
      var (next, out) := Receive(before.st, rs[|rs| - 1]);
      Log(next, before.produced + out)
  }

  /** Every record that has come out of the decoder and is not lost. */
  function Kept(l: Log): seq<FlowRecord> {
    l.produced + l.st.buffer
  }

  /** The records one packet yields. */
  function Yield(st: State, r: Received): seq<FlowRecord> {
    if Read16(r.mem, 0) != VERSION then [] else PacketRecords(st.table, r.mem, r.len)
  }

  /** The records all packets yield, in order. */
  function Yielded(rs: seq<Received>): seq<FlowRecord> {
    if rs == [] then []
    else Yielded(rs[..|rs| - 1]) + Yield(Run(rs[..|rs| - 1]).st, rs[|rs| - 1])
  }

  /** No packet yields more than there is room for when it comes. */
  ghost predicate AllFit(rs: seq<Received>) {
    rs == []
    || (AllFit(rs[..|rs| - 1])
        && var before := Run(rs[..|rs| - 1]);
           |before.st.buffer| + |Yield(before.st, rs[|rs| - 1])| <= MAX_BATCH_SIZE)
  }

  /** One packet: what is kept grows by the first records it yields, as far as there is room, and the
      buffer is never left full. */
  lemma ReceiveKeeps(st: State, r: Received)
    requires |st.buffer| < MAX_BATCH_SIZE
    ensures var (next, out) := Receive(st, r);
      && |next.buffer| < MAX_BATCH_SIZE
      && out + next.buffer == Buffered(st.buffer, Yield(st, r))
  {
    hide Process, PacketRecords, Buffered, Read16;
    NothingBuffered(st.buffer);
    if Read16(r.mem, 0) == VERSION {
      PacketBuffers(st, r.mem, r.len);
      ShortYieldsNothing(st, r.mem, r.len);
      BufferedSize(st.buffer, PacketRecords(st.table, r.mem, r.len));
      Sides(Process(st, r.mem, r.len).1.buffer);
    }
    Sides(st.buffer);
  }

  lemma Sides(s: seq<FlowRecord>)
    ensures [] + s == s == s + []
  {
  }

  lemma ShortYieldsNothing(st: State, mem: seq<byte>, len: nat)
    ensures !Process(st, mem, len).0 ==> PacketRecords(st.table, mem, len) == []
  {
    hide Walk, WalkRecords, Read32;
  }

  lemma BufferedSize(buffer: seq<FlowRecord>, records: seq<FlowRecord>)
    requires |buffer| < MAX_BATCH_SIZE
    ensures |Buffered(buffer, records)| <= MAX_BATCH_SIZE
  {
    hide Buffered;
    BufferedIsPrefix(buffer, records);
  }

  lemma RunStep(rs: seq<Received>)
    requires rs != [] && |Run(rs[..|rs| - 1]).st.buffer| < MAX_BATCH_SIZE
    ensures var before, r := Run(rs[..|rs| - 1]), rs[|rs| - 1];
      && |Run(rs).st.buffer| < MAX_BATCH_SIZE
      && Kept(Run(rs)) == before.produced + Buffered(before.st.buffer, Yield(before.st, r))
  {
    hide Receive, Yield, Buffered;
    var before, r := Run(rs[..|rs| - 1]), rs[|rs| - 1];
    ReceiveKeeps(before.st, r);
    var (next, out) := Receive(before.st, r);
    Assoc(before.produced, out, next.buffer);
  }

  /** Whatever is received, the buffer has room for the next packet's first record. */
  lemma {:induction false} AlwaysRoom(rs: seq<Received>)
    ensures |Run(rs).st.buffer| < MAX_BATCH_SIZE
  {
    if rs != [] {
      hide Run;
      AlwaysRoom(rs[..|rs| - 1]);
      RunStep(rs);
    } else {
      AtStart();
    }
  }

  lemma AtStart()
    ensures Run([]) == Log(Init(), []) && Init().buffer == []
  {
  }

  /** One packet's step in the comparison of what is kept with what was yielded. */
  lemma StepLoses(kept: seq<FlowRecord>, produced: seq<FlowRecord>, buffer: seq<FlowRecord>, yielded: seq<FlowRecord>,
                  more: seq<FlowRecord>)
    requires kept == produced + buffer && |buffer| < MAX_BATCH_SIZE
    requires |kept| <= |yielded| && (kept == yielded <==> |kept| == |yielded|)
    ensures var next := produced + Buffered(buffer, more);
      && |next| <= |yielded + more| && (next == yielded + more <==> |next| == |yielded + more|)
      && (|next| == |yielded + more| <==> |kept| == |yielded| && |buffer| + |more| <= MAX_BATCH_SIZE)
  {
    hide Buffered;
    BufferedIsPrefix(buffer, more);
    if |buffer| + |more| <= MAX_BATCH_SIZE {
      WholePrefix(Buffered(buffer, more), buffer + more);
      Assoc(produced, buffer, more);
    }
  }

  lemma {:induction false} LossStep(rs: seq<Received>)
    ensures var kept, yielded := Kept(Run(rs)), Yielded(rs);
      && |kept| <= |yielded| && (kept == yielded <==> |kept| == |yielded|)
      && (|kept| == |yielded| <==> AllFit(rs))
    decreases |rs|
  {
    hide Run, Yield, Buffered;
    if rs == [] {
      AtStart();
    } else {
      var front := rs[..|rs| - 1];
      var before := Run(front);
      LossStep(front);
      AlwaysRoom(front);
      RunStep(rs);
      StepLoses(Kept(before), before.produced, before.st.buffer, Yielded(front), Yield(before.st, rs[|rs| - 1]));
    }
  }

  /** Over any packets received: what has been produced and what waits in the buffer are all records
      yielded, in order, exactly when every packet found room for its records; otherwise some are
      missing. */
  lemma NothingIsLostWhenAllFit(rs: seq<Received>)
    ensures Run(rs).produced + Run(rs).st.buffer == Yielded(rs) <==> AllFit(rs)
    ensures !AllFit(rs) ==> |Run(rs).produced| + |Run(rs).st.buffer| < |Yielded(rs)|
  {
    hide Run, Yielded, AllFit;
    LossStep(rs);
  }

  // ---- When the buffer goes out ----

  /** The program takes the packet: version 9, and a whole header. */
  predicate Accepted9(r: Received) {
    ByteAt(r.mem, 0) == 0 && ByteAt(r.mem, 1) == 9 && r.len >= 20
  }

  /** A packet that is not taken changes nothing. One that is taken leaves the table it defines; what is
      then buffered is all produced when the interval has passed or six records wait, and otherwise all
      of it stays. */
  lemma FlushesWhenDue(st: State, r: Received)
    requires |st.buffer| < 6
    ensures var (next, out) := Receive(st, r);
      if !Accepted9(r) then next == st && out == []
      else
        var b := Buffered(st.buffer, PacketRecords(st.table, r.mem, r.len));
        && |b| <= 6 && next.table == Process(st, r.mem, r.len).1.table
        && if r.due || |b| == 6 then out == b && next.buffer == [] else out == [] && next.buffer == b
  {
    hide Walk, PacketRecords, Buffered, ByteAt, Read32;
    VersionWord(r.mem);
    PacketBuffers(st, r.mem, r.len);
    BufferedSize(st.buffer, PacketRecords(st.table, r.mem, r.len));
  }

  lemma VersionWord(mem: seq<byte>)
    ensures Read16(mem, 0) == 9 <==> ByteAt(mem, 0) == 0 && ByteAt(mem, 1) == 9
  {
    hide ByteAt;
  }

  /** After any packets, one more that is taken when the interval has passed: nothing waits, and
      everything kept so far has been produced, that packet's records included. */
  lemma DuePacketEmptiesBuffer(rs: seq<Received>, r: Received)
    requires Accepted9(r) && r.due
    ensures var before, l := Run(rs), Run(rs + [r]);
      && l.st.buffer == []
      && l.produced == before.produced + Buffered(before.st.buffer, PacketRecords(before.st.table, r.mem, r.len))
  {
    hide Receive, Accepted9, Buffered, PacketRecords;
    assert (rs + [r])[..|rs|] == rs;
    AlwaysRoom(rs);
    FlushesWhenDue(Run(rs).st, r);
  }

  /** A packet that is not taken leaves the log as it is. */
  lemma OthersChangeNothing(rs: seq<Received>, r: Received)
    requires !Accepted9(r)
    ensures Run(rs + [r]) == Run(rs)
  {
    hide Receive, Accepted9;
    assert (rs + [r])[..|rs|] == rs;
    AlwaysRoom(rs);
    FlushesWhenDue(Run(rs).st, r);
    assert Run(rs).produced + [] == Run(rs).produced;
  }
}
