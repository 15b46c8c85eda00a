/** What a record decodes to: each field from its last occurrence in the template. */
module NetFlowDecode {
  import opened Options
  import opened Bytes
  import opened NetFlow

  function GetField(rec: FlowRecord, kind: u16): u32 {
    match kind
    case 1 => rec.bytesCount
    case 2 => rec.packetsCount
    case 4 => rec.protocol
    case 7 => rec.sourcePort
    case 8 => rec.sourceAddr
    case 10 => rec.inputSnmp
    case 11 => rec.destPort
    case 12 => rec.destAddr
    case 14 => rec.outputSnmp
    case 21 => rec.lastTimestamp
    case 22 => rec.firstTimestamp
    case _ => 0
  }

  /** The number at position p, at the width its kind is read with. */
  function ReadKind(kind: u16, mem: seq<byte>, p: nat): u32 {
    if Width(kind) == 4 then Read32(mem, p)
    else if Width(kind) == 2 then Read16(mem, p)
    else if Width(kind) == 1 then ByteAt(mem, p)
    else 0
  }

  /** The switch sets the field of its kind and no other. */
  lemma SetThenGet(rec: FlowRecord, kind: u16, mem: seq<byte>, p: nat, k: u16)
    requires Known(k)
    ensures GetField(SetField(rec, kind, mem, p), k) == if k == kind then ReadKind(k, mem, p) else GetField(rec, k)
  {
    hide Read16, Read32, ByteAt;
  }

  lemma SameFields(a: FlowRecord, b: FlowRecord)
    requires forall k: u16 | Known(k) :: GetField(a, k) == GetField(b, k)
    ensures a == b
  {
    assert Known(1) && Known(2) && Known(4) && Known(7) && Known(8) && Known(10);
    assert Known(11) && Known(12) && Known(14) && Known(21) && Known(22);
    assert GetField(a, 1) == GetField(b, 1) && GetField(a, 2) == GetField(b, 2);
    assert GetField(a, 4) == GetField(b, 4) && GetField(a, 7) == GetField(b, 7);
    assert GetField(a, 8) == GetField(b, 8) && GetField(a, 10) == GetField(b, 10);
    assert GetField(a, 11) == GetField(b, 11) && GetField(a, 12) == GetField(b, 12);
    assert GetField(a, 14) == GetField(b, 14) && GetField(a, 21) == GetField(b, 21);
    assert GetField(a, 22) == GetField(b, 22);
  }

  /** Where in the record the last field of this kind starts. */
  function LastOffset(fields: seq<Field>, kind: u16): Option<nat> {
    if fields == [] then None
    else
      match LastOffset(fields[1..], kind)
      case Some(o) => Some(fields[0].length + o)
      case None => if fields[0].kind == kind then Some(0) else None
  }

  /** A decoded record holds, for each kind the template has, the number at the last field of that
      kind, and zero for the others. */
  lemma {:induction false} DecodesLastOccurrence(rec: FlowRecord, fields: seq<Field>, mem: seq<byte>, p: nat, k: u16)
    requires Known(k)
    ensures GetField(DecodeFields(rec, fields, mem, p), k)
            == match LastOffset(fields, k)
               case Some(o) => ReadKind(k, mem, p + o)
               case None => GetField(rec, k)
    decreases |fields|
  {
    hide SetField, GetField, ReadKind, Width;
    if fields != [] {
      DecodesLastOccurrence(SetField(rec, fields[0].kind, mem, p), fields[1..], mem, p + fields[0].length, k);
      SetThenGet(rec, fields[0].kind, mem, p, k);
    }
  }

  // ---- Reading past a record ----

  /** Every field the decoder reads lies inside the record. */
  ghost predicate ReadsInside(fields: seq<Field>) {
    forall k: u16 | Known(k) && LastOffset(fields, k).Some? ::
      LastOffset(fields, k).value + Width(k) <= RecordLength(fields)
  }

  /** The two memories hold the same n bytes at p. */
  ghost predicate Agree(a: seq<byte>, b: seq<byte>, p: nat, n: nat) {
    forall i | p <= i < p + n :: ByteAt(a, i) == ByteAt(b, i)
  }

  lemma SameReads(a: seq<byte>, b: seq<byte>, p: nat, n: nat, k: u16, o: nat)
    requires Agree(a, b, p, n) && o + Width(k) <= n
    ensures ReadKind(k, a, p + o) == ReadKind(k, b, p + o)
  {
    hide ByteAt;
    assert forall i | p + o <= i < p + o + Width(k) :: ByteAt(a, i) == ByteAt(b, i);
  }

  /** Decoding a record that lies in memory depends on its bytes alone exactly when every field it
      reads lies inside the record; a narrower template makes it read the bytes behind. */
  lemma DependsOnRecordOnly(fields: seq<Field>)
    ensures ReadsInside(fields) <==>
              forall a, b, p: nat | Agree(a, b, p, RecordLength(fields))
                                    && p + RecordLength(fields) <= |a| && p + RecordLength(fields) <= |b| ::
                DecodeRecord(fields, a, p) == DecodeRecord(fields, b, p)
  {
    if ReadsInside(fields) {
      forall a, b, p: nat | Agree(a, b, p, RecordLength(fields))
        ensures DecodeRecord(fields, a, p) == DecodeRecord(fields, b, p)
      {
        InsideAgrees(fields, a, b, p);
      }
    } else {
      var k: u16 :| Known(k) && LastOffset(fields, k).Some?
                    && LastOffset(fields, k).value + Width(k) > RecordLength(fields);
      OutsideDiffers(fields, k);
    }
  }

  lemma InsideAgrees(fields: seq<Field>, a: seq<byte>, b: seq<byte>, p: nat)
    requires ReadsInside(fields) && Agree(a, b, p, RecordLength(fields))
    ensures DecodeRecord(fields, a, p) == DecodeRecord(fields, b, p)
  {
    hide GetField, DecodeFields, ReadKind, RecordLength, LastOffset, Width;
    forall k: u16 | Known(k)
      ensures GetField(DecodeRecord(fields, a, p), k) == GetField(DecodeRecord(fields, b, p), k)
    {
      DecodesLastOccurrence(ZERO, fields, a, p, k);
      DecodesLastOccurrence(ZERO, fields, b, p, k);
      if LastOffset(fields, k).Some? {
        SameReads(a, b, p, RecordLength(fields), k, LastOffset(fields, k).value);
      }
    }
    SameFields(DecodeRecord(fields, a, p), DecodeRecord(fields, b, p));
  }

  /** The bytes s, and four more that are all x. */
  function Followed(s: seq<byte>, x: byte): (r: seq<byte>)
    ensures |r| == |s| + 4 && s <= r
    ensures forall i | |s| <= i < |s| + 4 :: r[i] == x
  {
    s + [x, x, x, x]
  }

  lemma FollowedAgree(s: seq<byte>)
    ensures Agree(Followed(s, 0), Followed(s, 1), 0, |s|)
  {
    hide Followed;
  }

  /** A number that reaches past s is larger when ones follow than when zeros do. */
  lemma FollowedShows(k: u16, s: seq<byte>, o: nat)
    requires Known(k) && o <= |s| < o + Width(k)
    ensures ReadKind(k, Followed(s, 0), o) < ReadKind(k, Followed(s, 1), o)
  {
    hide Followed;
    var a, b := Followed(s, 0), Followed(s, 1);
    assert forall i | 0 <= i < |s| :: a[i] == s[i] && b[i] == s[i];
    assert forall i | o <= i < o + Width(k) :: ByteAt(a, i) <= ByteAt(b, i);
    var last := o + Width(k) - 1;
    assert ByteAt(a, last) == 0 && ByteAt(b, last) == 1;
  }

  function Zeros(n: nat): (s: seq<byte>)
    ensures |s| == n && forall i | 0 <= i < n :: s[i] == 0
  {
    seq(n, _ => 0)
  }

  lemma OutsideDiffers(fields: seq<Field>, k: u16)
    requires Known(k) && LastOffset(fields, k).Some?
    requires LastOffset(fields, k).value + Width(k) > RecordLength(fields)
    ensures var n := RecordLength(fields);
            var a, b := Followed(Zeros(n), 0), Followed(Zeros(n), 1);
            && Agree(a, b, 0, n) && n <= |a| && n <= |b|
            && DecodeRecord(fields, a, 0) != DecodeRecord(fields, b, 0)
  {
    hide GetField, DecodeFields, LastOffset, RecordLength, ReadKind, Width, Agree, Zeros;
    var n := RecordLength(fields);
    var a, b := Followed(Zeros(n), 0), Followed(Zeros(n), 1);
    DecodesLastOccurrence(ZERO, fields, a, 0, k);
    DecodesLastOccurrence(ZERO, fields, b, 0, k);
    OffsetInRecord(fields, k);
    FollowedShows(k, Zeros(n), LastOffset(fields, k).value);
    FollowedAgree(Zeros(n));
  }

  lemma {:induction false} OffsetInRecord(fields: seq<Field>, k: u16)
    requires LastOffset(fields, k).Some?
    ensures LastOffset(fields, k).value <= RecordLength(fields)
  {
    if LastOffset(fields[1..], k).Some? {
      OffsetInRecord(fields[1..], k);
    }
  }
}
