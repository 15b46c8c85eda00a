/** The batching loop of the bulk sender, over the messages its pops return before the closing NULL. */
module Batching {
  import opened Fifo

  const BULK_SIZE := 1000

  /** All messages of a list of batches, in order. */
  function Flat(batches: seq<seq<Msg>>): seq<Msg> {
    if batches == [] then [] else Flat(batches[..|batches| - 1]) + batches[|batches| - 1]
  }

  ghost predicate AllFull(batches: seq<seq<Msg>>) {
    forall i | 0 <= i < |batches| :: |batches[i]| == 1000
  }

  /** Every batch is full, except that the last may be shorter, though never empty. */
  ghost predicate WellCut(batches: seq<seq<Msg>>) {
    batches == [] || (AllFull(batches[..|batches| - 1]) && 1 <= |batches[|batches| - 1]| <= 1000)
  }

  lemma FlatAppend(batches: seq<seq<Msg>>, b: seq<Msg>)
    ensures Flat(batches + [b]) == Flat(batches) + b
  {
    assert (batches + [b])[..|batches|] == batches;
  }

  lemma CutAppend(batches: seq<seq<Msg>>, b: seq<Msg>)
    requires AllFull(batches) && 1 <= |b| <= BULK_SIZE
    ensures WellCut(batches + [b])
    ensures |b| == BULK_SIZE ==> AllFull(batches + [b])
  {
    assert (batches + [b])[..|batches|] == batches;
  }

  lemma FullIsWellCut(batches: seq<seq<Msg>>)
    requires AllFull(batches)
    ensures WellCut(batches)
  {
  }

  /** bulk_sender_thread: popped is what queue_pop returns, call by call, before NULL. Everything is
      sent, in order, in full batches but for the rest that the closing leaves. */
  method BulkSender(popped: seq<Msg>) returns (sent: seq<seq<Msg>>)
    ensures Flat(sent) == popped
    ensures WellCut(sent)
  {
    hide Flat, AllFull, WellCut;
    var batch := new Msg[BULK_SIZE];
    var count := 0;
    sent := [];
    Nothing();
    var i := 0;
    while i < |popped|
      invariant 0 <= i <= |popped|
      invariant 0 <= count < BULK_SIZE
      invariant AllFull(sent)
      invariant Flat(sent) + batch[..count] == popped[..i]
    {
      batch[count] := popped[i];
      assert batch[..count + 1] == batch[..count] + [popped[i]];
      assert popped[..i + 1] == popped[..i] + [popped[i]];
      count := count + 1;
      if count >= BULK_SIZE {
        FlatAppend(sent, batch[..count]);
        CutAppend(sent, batch[..count]);
        sent := sent + [batch[..count]];
        count := 0;
      }
      i := i + 1;
    }
    assert popped[..|popped|] == popped;
    if count > 0 {
      FlatAppend(sent, batch[..count]);
      CutAppend(sent, batch[..count]);
      sent := sent + [batch[..count]];
    } else {
      FullIsWellCut(sent);
    }
  }

  lemma Nothing()
    ensures Flat([]) == [] && AllFull([])
  {
  }

  /** The batches are determined by the messages: any well-cut list of the same messages is the same. */
  lemma {:induction false} CutIsUnique(a: seq<seq<Msg>>, b: seq<seq<Msg>>)
    requires WellCut(a) && WellCut(b) && Flat(a) == Flat(b)
    ensures a == b
  {
    CutLength(a);
    CutLength(b);
    if |a| > 0 && |b| > 0 {
      FlatFull(a[..|a| - 1]);
      FlatFull(b[..|b| - 1]);
      assert |a| == |b|;
      var n := |Flat(a[..|a| - 1])|;
      assert Flat(a)[..n] == Flat(a[..|a| - 1]) && Flat(b)[..n] == Flat(b[..|b| - 1]);
      assert Flat(a)[n..] == a[|a| - 1] && Flat(b)[n..] == b[|b| - 1];
      FullIsWellCut(a[..|a| - 1]);
      FullIsWellCut(b[..|b| - 1]);
      CutIsUnique(a[..|a| - 1], b[..|b| - 1]);
      assert a == a[..|a| - 1] + [a[|a| - 1]] && b == b[..|b| - 1] + [b[|b| - 1]];
    }
  }

  lemma {:induction false} FlatFull(a: seq<seq<Msg>>)
    requires AllFull(a)
    ensures |Flat(a)| == BULK_SIZE * |a|
  {
    if a != [] {
      FlatFull(a[..|a| - 1]);
    }
  }

  lemma CutLength(a: seq<seq<Msg>>)
    requires WellCut(a)
    ensures a == [] <==> Flat(a) == []
    ensures a != [] ==> BULK_SIZE * (|a| - 1) < |Flat(a)| <= BULK_SIZE * |a|
  {
    if a != [] {
      FlatFull(a[..|a| - 1]);
    }
  }
}
