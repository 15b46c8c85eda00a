/**
  What the sFlow decoder takes from a sampled Ethernet frame: VLAN tags skipped, then IPv4 or IPv6
  addresses, the protocol and the TCP or UDP ports.
 */
module SFlowPacket {
  import opened Options
  import opened Bytes

  const MAC_BYTES := 12

  /** The network part of a flow record; addresses are byte strings, empty when there are none. */
  datatype Network = Network(source: seq<byte>, destination: seq<byte>, protocol: byte, sourcePort: u16, destPort: u16)

  const NO_NETWORK := Network([], [], 0, 0, 0)

  predicate IsTag(etherType: u16) {
    etherType == 0x8100 || etherType == 0x88a8 || etherType == 0x9100
  }

  /** A frame from its type field on, without VLAN tags: the type and what follows it. */
  function Untagged(s: seq<byte>): Option<(u16, seq<byte>)> {
    if |s| < 2 then None
    else
      var etherType := Be16(s[0], s[1]);
      if !IsTag(etherType) then Some((etherType, s[2..]))
      else if |s| < 6 then None
      else Untagged(s[4..])
  }

  /** TCP and UDP ports stand at the start of the transport header, when it is there. */
  function WithPorts(n: Network, transport: seq<byte>): Network {
    if (n.protocol == 6 || n.protocol == 17) && |transport| >= 4
    then n.(sourcePort := Be16(transport[0], transport[1]), destPort := Be16(transport[2], transport[3]))
    else n
  }

  function ParseIPv4(p: seq<byte>): Option<Network> {
    if |p| < 20 || p[0] / 16 != 4 || |p| < p[0] % 16 * 4 then None
    else Some(WithPorts(Network(p[12..16], p[16..20], p[9], 0, 0), p[p[0] % 16 * 4..]))
  }

  function ParseIPv6(p: seq<byte>): Option<Network> {
    if |p| < 40 || p[0] / 16 != 6 then None
    else Some(WithPorts(Network(p[8..24], p[24..40], p[6], 0, 0), p[40..]))
  }

  function ParsePayload(etherType: u16, p: seq<byte>): Option<Network> {
    if etherType == 0x0800 then ParseIPv4(p)
    else if etherType == 0x86dd then ParseIPv6(p)
    else Some(NO_NETWORK)
  }

  /** The network part of a whole frame; None when the decoder gives up on it. */
  function ParseFrame(h: seq<byte>): Option<Network> {
    if |h| < MAC_BYTES then None
    else
      match Untagged(h[MAC_BYTES..])
      case None => None
      case Some((etherType, p)) => ParsePayload(etherType, p)
  }

  // ---- The program's loop, on offsets into the frame ----

  lemma TagStep(h: seq<byte>, offset: nat)
    requires 2 <= offset && offset + 4 <= |h| && IsTag(Be16(h[offset - 2], h[offset - 1]))
    ensures Untagged(h[offset - 2..]) == Untagged(h[offset + 2..])
  {
    assert h[offset - 2..][4..] == h[offset + 2..];
  }

  /** The tag loop of parseNetworkPacket: the type found, and the offset of what follows it. */
  method SkipTags(h: seq<byte>) returns (r: Option<(u16, nat)>)
    requires |h| >= 14
    ensures r.None? <==> Untagged(h[MAC_BYTES..]).None?
    ensures r.Some? ==> 14 <= r.value.1 <= |h|
                        && Untagged(h[MAC_BYTES..]) == Some((r.value.0, h[r.value.1..]))
  {
    var etherType := Be16(h[12], h[13]);
    var offset: nat := 14;
    while etherType == 0x8100 || etherType == 0x88a8 || etherType == 0x9100
      invariant 14 <= offset <= |h| && etherType == Be16(h[offset - 2], h[offset - 1])
      invariant Untagged(h[MAC_BYTES..]) == Untagged(h[offset - 2..])
      decreases |h| - offset
    {
      if |h| < offset + 4 {
        return None;
      }
      TagStep(h, offset);
      etherType := Be16(h[offset + 2], h[offset + 3]);
      offset := offset + 4;
    }
    return Some((etherType, offset));
  }

  /** parseTransportPorts. */
  method ParseTransportPorts(h: seq<byte>, offset: nat, n: Network) returns (r: Network)
    requires offset <= |h|
    ensures r == WithPorts(n, h[offset..])
  {
    r := n;
    if n.protocol != 6 && n.protocol != 17 {
      return;
    }
    if |h| < offset + 4 {
      return;
    }
    r := r.(sourcePort := Be16(h[offset], h[offset + 1]));
    r := r.(destPort := Be16(h[offset + 2], h[offset + 3]));
  }

  /** The packet part of parseNetworkPacket: no byte outside the frame is looked at. */
  method ParseNetworkPacket(h: seq<byte>) returns (r: Option<Network>)
    ensures r == ParseFrame(h)
  {
    hide Untagged, WithPorts;
    if |h| < 14 {
      ShortFrame(if |h| < 12 then [] else h[MAC_BYTES..]);
      return None;
    }
    var start := SkipTags(h);
    if start.None? {
      return None;
    }
    var (etherType, offset) := start.value;
    ghost var p := h[offset..];
    if etherType == 0x0800 {
      if |h| < offset + 20 {
        return None;
      }
      var version, ihl := h[offset] / 16, h[offset] % 16;
      if version != 4 {
        return None;
      }
      var headerLength: nat := ihl * 4;
      if |h| < offset + headerLength {
        return None;
      }
      assert p[12..16] == h[offset + 12..offset + 16] && p[16..20] == h[offset + 16..offset + 20];
      assert p[headerLength..] == h[offset + headerLength..];
      var n := Network(h[offset + 12..offset + 16], h[offset + 16..offset + 20], h[offset + 9], 0, 0);
      n := ParseTransportPorts(h, offset + headerLength, n);
      return Some(n);
    }
    if etherType == 0x86dd {
      if |h| < offset + 40 {
        return None;
      }
      if h[offset] / 16 != 6 {
        return None;
      }
      assert p[8..24] == h[offset + 8..offset + 24] && p[24..40] == h[offset + 24..offset + 40];
      assert p[40..] == h[offset + 40..];
      var n := Network(h[offset + 8..offset + 24], h[offset + 24..offset + 40], h[offset + 6], 0, 0);
      n := ParseTransportPorts(h, offset + 40, n);
      return Some(n);
    }
    return Some(NO_NETWORK);
  }

  lemma ShortFrame(s: seq<byte>)
    requires |s| < 2
    ensures Untagged(s).None?
  {
  }

  // ---- VLAN tags change nothing ----

  datatype Tag = Tag(etherType: u16, control: u16)

  /** The types of an 802.1Q, an 802.1ad and an old stacked tag. */
  predicate AreTags(tags: seq<Tag>) {
    forall i | 0 <= i < |tags| :: tags[i].etherType in {0x8100, 0x88a8, 0x9100}
  }

  function EncTags(tags: seq<Tag>): seq<byte> {
    if tags == [] then [] else Enc16(tags[0].etherType) + Enc16(tags[0].control) + EncTags(tags[1..])
  }

  lemma {:induction false} TagsVanish(tags: seq<Tag>, s: seq<byte>)
    requires AreTags(tags)
    ensures Untagged(EncTags(tags) + s) == Untagged(s)
  {
    hide Enc16;
    if tags == [] {
      assert EncTags(tags) + s == s;
    } else {
      assert IsTag(tags[0].etherType);
      var more := EncTags(tags[1..]) + s;
      var all := EncTags(tags) + s;
      assert all[4..] == more;
      assert Be16(all[0], all[1]) == tags[0].etherType;
      TagsVanish(tags[1..], s);
    }
  }

  /** Any number of VLAN tags after the MAC addresses leave what is read from a frame unchanged,
      whether it is IPv4 with any header length, IPv6 or something else, whole or cut short. */
  lemma TagsChangeNothing(h: seq<byte>, tags: seq<Tag>)
    requires |h| >= MAC_BYTES && AreTags(tags)
    ensures ParseFrame(h[..MAC_BYTES] + EncTags(tags) + h[MAC_BYTES..]) == ParseFrame(h)
  {
    hide Untagged, ParsePayload, EncTags;
    TagsVanish(tags, h[MAC_BYTES..]);
    AfterMacs(h[..MAC_BYTES], EncTags(tags), h[MAC_BYTES..]);
  }

  lemma AfterMacs(macs: seq<byte>, s: seq<byte>, t: seq<byte>)
    requires |macs| == MAC_BYTES
    ensures (macs + s + t)[MAC_BYTES..] == s + t
  {
  }

  // ---- What is read is what was sent ----

  function EncPorts(n: Network): seq<byte> {
    Enc16(n.sourcePort) + Enc16(n.destPort)
  }

  /** An IPv4 packet: the header fields that are not looked at are a (eight bytes) and b (two), and
      `options` fills the header up to its length in words. */
  function EncIPv4(n: Network, a: seq<byte>, b: seq<byte>, options: seq<byte>, rest: seq<byte>): seq<byte>
    requires |a| == 8 && |b| == 2 && |options| <= 40 && |options| % 4 == 0
    requires |n.source| == 4 && |n.destination| == 4
  {
    [0x45 + |options| / 4] + a + [n.protocol] + b + n.source + n.destination + options + EncPorts(n) + rest
  }

  function EncIPv6(n: Network, a: seq<byte>, b: byte, rest: seq<byte>): seq<byte>
    requires |a| == 5
    requires |n.source| == 16 && |n.destination| == 16
  {
    [0x60] + a + [n.protocol] + [b] + n.source + n.destination + EncPorts(n) + rest
  }

  lemma PortsReadBack(n: Network, rest: seq<byte>)
    requires n.protocol == 6 || n.protocol == 17
    ensures WithPorts(n.(sourcePort := 0, destPort := 0), EncPorts(n) + rest) == n
  {
    hide Enc16;
    var t := EncPorts(n) + rest;
    assert t[..2] == Enc16(n.sourcePort) && t[2..4] == Enc16(n.destPort);
  }

  lemma IPv4ReadsBack(n: Network, a: seq<byte>, b: seq<byte>, options: seq<byte>, rest: seq<byte>)
    requires |a| == 8 && |b| == 2 && |options| <= 40 && |options| % 4 == 0
    requires |n.source| == 4 && |n.destination| == 4 && (n.protocol == 6 || n.protocol == 17)
    ensures ParseIPv4(EncIPv4(n, a, b, options, rest)) == Some(n)
  {
    hide EncPorts, WithPorts;
    var p := EncIPv4(n, a, b, options, rest);
    PortsReadBack(n, rest);
    assert p[12..16] == n.source && p[16..20] == n.destination && p[9] == n.protocol;
    assert p[20 + |options|..] == EncPorts(n) + rest;
  }

  lemma IPv6ReadsBack(n: Network, a: seq<byte>, b: byte, rest: seq<byte>)
    requires |a| == 5
    requires |n.source| == 16 && |n.destination| == 16 && (n.protocol == 6 || n.protocol == 17)
    ensures ParseIPv6(EncIPv6(n, a, b, rest)) == Some(n)
  {
    hide EncPorts, WithPorts;
    var p := EncIPv6(n, a, b, rest);
    PortsReadBack(n, rest);
    assert p[8..24] == n.source && p[24..40] == n.destination && p[6] == n.protocol;
    assert p[40..] == EncPorts(n) + rest;
  }

  /** A TCP or UDP packet over IPv4, behind any MAC addresses and any VLAN tags and with any header
      length, is read as it was sent. */
  lemma IPv4FrameReadsBack(macs: seq<byte>, tags: seq<Tag>, n: Network, a: seq<byte>, b: seq<byte>,
                           options: seq<byte>, rest: seq<byte>)
    requires |macs| == MAC_BYTES && AreTags(tags)
    requires |a| == 8 && |b| == 2 && |options| <= 40 && |options| % 4 == 0
    requires |n.source| == 4 && |n.destination| == 4 && (n.protocol == 6 || n.protocol == 17)
    ensures ParseFrame(macs + EncTags(tags) + Enc16(0x0800) + EncIPv4(n, a, b, options, rest)) == Some(n)
  {
    hide ParseFrame, Untagged, EncIPv4, ParseIPv4, EncTags, Enc16;
    IPv4ReadsBack(n, a, b, options, rest);
    FrameHolds(macs, tags, 0x0800, EncIPv4(n, a, b, options, rest));
  }

  /** The same over IPv6. */
  lemma IPv6FrameReadsBack(macs: seq<byte>, tags: seq<Tag>, n: Network, a: seq<byte>, b: byte, rest: seq<byte>)
    requires |macs| == MAC_BYTES && AreTags(tags)
    requires |a| == 5
    requires |n.source| == 16 && |n.destination| == 16 && (n.protocol == 6 || n.protocol == 17)
    ensures ParseFrame(macs + EncTags(tags) + Enc16(0x86dd) + EncIPv6(n, a, b, rest)) == Some(n)
  {
    hide ParseFrame, Untagged, EncIPv6, ParseIPv6, EncTags, Enc16;
    IPv6ReadsBack(n, a, b, rest);
    FrameHolds(macs, tags, 0x86dd, EncIPv6(n, a, b, rest));
  }

  lemma FrameHolds(macs: seq<byte>, tags: seq<Tag>, etherType: u16, p: seq<byte>)
    requires |macs| == MAC_BYTES && AreTags(tags)
    requires etherType !in {0x8100, 0x88a8, 0x9100}
    ensures ParseFrame(macs + EncTags(tags) + Enc16(etherType) + p) == ParsePayload(etherType, p)
  {
    hide Enc16, EncTags, ParsePayload;
    var s := Enc16(etherType) + p;
    TagsVanish(tags, s);
    AfterMacs(macs, EncTags(tags), s);
    assert macs + EncTags(tags) + Enc16(etherType) + p == macs + EncTags(tags) + s;
    assert s[2..] == p && s[0] == Enc16(etherType)[0] && s[1] == Enc16(etherType)[1];
  }

  // ---- Exactly what is read ----

  /** Ports are those of TCP and UDP, when four bytes of the transport header are there; else zero. */
  predicate PortsAre(n: Network, p: seq<byte>, t: nat) {
    if (n.protocol == 6 || n.protocol == 17) && |p| >= t + 4 then
      n.sourcePort == Be16(p[t], p[t + 1]) && n.destPort == Be16(p[t + 2], p[t + 3])
    else n.sourcePort == 0 && n.destPort == 0
  }

  /** IPv4 is read exactly when its fixed header is there, it says version 4, and the header length it
      gives is there too. */
  lemma IPv4Exactly(p: seq<byte>)
    ensures ParseIPv4(p).Some? <==> |p| >= 20 && 0x40 <= p[0] <= 0x4F && |p| >= 4 * (p[0] as int - 0x40)
    ensures ParseIPv4(p).Some? ==>
              var n := ParseIPv4(p).value;
              && n.source == p[12..16] && n.destination == p[16..20] && n.protocol == p[9]
              && PortsAre(n, p, 4 * (p[0] - 0x40))
  {
  }

  lemma IPv6Exactly(p: seq<byte>)
    ensures ParseIPv6(p).Some? <==> |p| >= 40 && 0x60 <= p[0] <= 0x6F
    ensures ParseIPv6(p).Some? ==>
              var n := ParseIPv6(p).value;
              && n.source == p[8..24] && n.destination == p[24..40] && n.protocol == p[6] && PortsAre(n, p, 40)
  {
  }

  /** Behind any tags: IPv4 and IPv6 are read as such, another type leaves a record without addresses;
      a frame cut short in a type or a tag is given up. */
  lemma FrameExactly(macs: seq<byte>, tags: seq<Tag>, etherType: u16, p: seq<byte>)
    requires |macs| == 12 && AreTags(tags) && etherType !in {0x8100, 0x88a8, 0x9100}
    ensures ParseFrame(macs + EncTags(tags) + Enc16(etherType) + p)
            == if etherType == 0x0800 then ParseIPv4(p)
               else if etherType == 0x86dd then ParseIPv6(p)
               else Some(Network([], [], 0, 0, 0))
  {
    hide ParseFrame, EncTags, Enc16, ParseIPv4, ParseIPv6;
    FrameHolds(macs, tags, etherType, p);
  }

  lemma CutFrame(macs: seq<byte>, tags: seq<Tag>, cut: seq<byte>)
    requires |macs| == 12 && AreTags(tags) && |cut| < 2
    ensures ParseFrame(macs + EncTags(tags) + cut).None?
    ensures forall h: seq<byte> | |h| < 14 :: ParseFrame(h).None?
  {
    hide EncTags, ParsePayload;
    TagsVanish(tags, cut);
    AfterMacs(macs, EncTags(tags), cut);
  }
}
