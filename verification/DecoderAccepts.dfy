/** Exactly which packets are accepted, stated on their bytes: lengths, fields, checksums in the sense
    of RFC 1071, options, extension chains and link-layer tags. */
module DecoderAccepts {
  import opened Prelude
  import opened Checksum
  import opened DecoderSpec
  import opened DecoderMeaning

  /** Two bytes in network byte order. */
  function Field(p: seq<Byte>, at: nat): nat
    requires at + 2 <= |p|
  {
    var high: int := p[at];
    256 * high + p[at + 1]
  }

  lemma FieldIsNet16(p: seq<Byte>, at: nat)
    requires at + 2 <= |p|
    ensures Net16(p, at) == Field(p, at)
  {
  }

  ghost predicate Verifies(e: Endian, s: seq<Byte>, ignore: bool) {
    ignore || Reference(e, s) == 0
  }

  // ----- transport headers -----

  /** The network header in front of a transport header. */
  datatype Network = V4(at: nat) | V6(at: nat)

  ghost predicate Inside(net: Network, p: seq<Byte>) {
    net.at + (if net.V4? then 20 else 40) <= |p|
  }

  /** Section 3.1 of RFC 9293 and section 8.1 of RFC 8200: source and destination address, and the
      protocol and length of the segment. */
  ghost function PseudoHeader(p: seq<Byte>, net: Network, proto: Byte, n: Word): seq<Byte>
    requires Inside(net, p)
  {
    match net
    case V4(at) => p[at + 12..at + 16] + p[at + 16..at + 20] + [0, proto, n / 256, n % 256]
    case V6(at) => p[at + 8..at + 24] + p[at + 24..at + 40] + [0, 0, n / 256, n % 256, 0, 0, 0, proto]
  }

  /** Pseudo-header and segment `p[at..end]` together. */
  ghost predicate SegmentVerifies(e: Endian, p: seq<Byte>, at: nat, end: nat, net: Network, proto: Byte, ignore: bool)
    requires at <= end <= |p| <= MAX_PACKET && Inside(net, p)
  {
    Verifies(e, PseudoHeader(p, net, proto, end - at) + p[at..end], ignore)
  }

  ghost predicate GoodTcp(e: Endian, p: seq<Byte>, at: nat, end: nat, net: Network, ignore: bool)
    requires at <= end <= |p| <= MAX_PACKET && Inside(net, p)
  {
    && at + 20 <= end
    && var header := 4 * (p[at + 12] / 16);
    && 20 <= header <= end - at
    && SegmentVerifies(e, p, at, end, net, 6, ignore)
    && Complete(p, at + 20, at + header)
  }

  /** The options are a chain of well-formed ones up to their end or an end-of-options byte. */
  ghost predicate Complete(p: seq<Byte>, start: nat, end: nat) {
    exists hops :: AllOptions(p, start, end, hops)
  }

  ghost predicate GoodUdp(e: Endian, p: seq<Byte>, at: nat, end: nat, net: Network, ignore: bool)
    requires at <= end <= |p| <= MAX_PACKET && Inside(net, p)
  {
    at + 8 <= end && Field(p, at + 4) == end - at && SegmentVerifies(e, p, at, end, net, 17, ignore)
  }

  ghost predicate GoodIcmp(e: Endian, p: seq<Byte>, at: nat, end: nat, ignore: bool)
    requires at <= end <= |p|
  {
    at + 8 <= end && Verifies(e, p[at..end], ignore)
  }

  ghost predicate GoodIcmp6(e: Endian, p: seq<Byte>, at: nat, end: nat, net: Network, ignore: bool)
    requires at <= end <= |p| <= MAX_PACKET && Inside(net, p)
  {
    at + 8 <= end && SegmentVerifies(e, p, at, end, net, 58, ignore)
  }

  ghost function NetworkOf(dd: Decoded): Network
    requires dd.hdr.ip.Some? || dd.hdr.ip6.Some?
  {
    if dd.hdr.ip.Some? then V4(dd.hdr.ip.value) else V6(dd.hdr.ip6.value)
  }

  lemma PseudoIs(p: seq<Byte>, dd: Decoded, len: Word, proto: Byte)
    requires HasNetworkHeader(p, dd)
    ensures Inside(NetworkOf(dd), p) && Pseudo(p, dd, len, proto) == PseudoHeader(p, NetworkOf(dd), proto, len)
  {
    if dd.hdr.ip.Some? {
      var at := dd.hdr.ip.value;
      assert p[at + 12..at + 20] == p[at + 12..at + 16] + p[at + 16..at + 20];
    } else {
      PseudoV6Is(p, dd.hdr.ip6.value, len, proto);
    }
  }

  lemma PseudoV6Is(p: seq<Byte>, at: nat, len: Word, proto: Byte)
    requires at + 40 <= |p|
    ensures PseudoV6(p, at, len, proto) == PseudoHeader(p, V6(at), proto, len)
  {
    assert p[at + 8..at + 40] == p[at + 8..at + 24] + p[at + 24..at + 40];
  }

  lemma SegmentSum(e: Endian, p: seq<Byte>, cur: nat, len: nat, dd: Decoded, proto: Byte, ignore: bool)
    requires Fits(p, cur, len) && HasNetworkHeader(p, dd)
    ensures HasNetworkHeader(p, Enter4(cur, dd)) && Inside(NetworkOf(dd), p)
    ensures ignore || TransportSum(e, p, cur, len, Enter4(cur, dd), proto) == 0
       <==> SegmentVerifies(e, p, cur, cur + len, NetworkOf(dd), proto, ignore)
  {
    EnterSame(p, cur, dd);
    PseudoIs(p, dd, len, proto);
    hide Pseudo, PseudoHeader, Reference, TransportSum, HasNetworkHeader, Enter4;
    TransportSumIsReference(e, p, cur, len, Enter4(cur, dd), proto);
  }

  /** A TCP segment is accepted exactly when its header fits, its checksum verifies or is ignored, and
      its options are a complete chain. */
  lemma TcpExactly(e: Endian, p: seq<Byte>, cur: nat, len: nat, dd: Decoded)
    requires Fits(p, cur, len) && HasNetworkHeader(p, dd)
    ensures Inside(NetworkOf(dd), p)
    ensures DecodeTcp(e, p, cur, len, dd).ok <==> GoodTcp(e, p, cur, cur + len, NetworkOf(dd), dd.ignoreChecksums)
  {
    SegmentSum(e, p, cur, len, dd, TCP, dd.ignoreChecksums);
    hide TransportSum, HasNetworkHeader, Enter4, NetworkOf, DecodeTcp, SegmentVerifies, Complete;
    TcpOk(e, p, cur, len, dd);
  }

  lemma TcpOk(e: Endian, p: seq<Byte>, cur: nat, len: nat, dd: Decoded)
    requires Fits(p, cur, len) && HasNetworkHeader(p, dd) && HasNetworkHeader(p, Enter4(cur, dd))
    ensures DecodeTcp(e, p, cur, len, dd).ok <==>
      && 20 <= len
      && var header := 4 * (p[cur + 12] / 16);
      && 20 <= header <= len
      && (dd.ignoreChecksums || TransportSum(e, p, cur, len, Enter4(cur, dd), TCP) == 0)
      && Complete(p, cur + 20, cur + header)
  {
    hide TransportSum, HasNetworkHeader, Enter4, MarkL4, NoteSeen, NoteTcp, Advance, DecodeTcpOpts, Complete;
    if len >= 20 {
      var hlen := High(p[cur + 12]) * 4;
      if 20 <= hlen <= len {
        var bad := TransportSum(e, p, cur, len, Enter4(cur, dd), TCP) != 0;
        CompleteIs(p, cur + 20, cur + hlen, MarkL4(Enter4(cur, dd), bad).flags.tcpOpts);
      }
    }
  }

  lemma CompleteIs(p: seq<Byte>, start: nat, end: nat, seen: TcpOpts)
    requires start <= end <= |p|
    ensures DecodeTcpOpts(p, start, end - start, seen).ok <==> Complete(p, start, end)
  {
    hide DecodeTcpOpts, AllOptions;
    OptionsAccepted(p, start, end, seen);
  }

  lemma UdpExactly(e: Endian, p: seq<Byte>, cur: nat, len: nat, dd: Decoded)
    requires Fits(p, cur, len) && HasNetworkHeader(p, dd)
    ensures Inside(NetworkOf(dd), p)
    ensures DecodeUdp(e, p, cur, len, dd).ok <==> GoodUdp(e, p, cur, cur + len, NetworkOf(dd), dd.ignoreChecksums)
  {
    SegmentSum(e, p, cur, len, dd, UDP, dd.ignoreChecksums);
    if len >= 8 {
      FieldIsNet16(p, cur + 4);
    }
    hide TransportSum, HasNetworkHeader, Enter4, NetworkOf, SegmentVerifies, Net16, Field;
  }

  lemma IcmpExactly(e: Endian, p: seq<Byte>, cur: nat, len: nat, dd: Decoded)
    requires Fits(p, cur, len)
    ensures DecodeIcmp(e, p, cur, len, dd).ok <==> GoodIcmp(e, p, cur, cur + len, dd.ignoreChecksums)
  {
    hide CksumVec, Reference;
    OnePiece(e, p[cur..cur + len]);
  }

  lemma Icmp6Exactly(e: Endian, p: seq<Byte>, cur: nat, len: nat, dd: Decoded)
    requires Fits(p, cur, len) && dd.hdr.ip6.Some? && dd.hdr.ip6.value + 40 <= |p|
    ensures DecodeIcmp6(e, p, cur, len, dd).ok
       <==> GoodIcmp6(e, p, cur, cur + len, V6(dd.hdr.ip6.value), dd.ignoreChecksums)
  {
    hide CksumVec, Reference;
    PseudoV6Is(p, dd.hdr.ip6.value, len, ICMPV6);
    TwoPieces(e, PseudoV6(p, dd.hdr.ip6.value, len, ICMPV6), p[cur..cur + len]);
    hide PseudoV6, PseudoHeader;
  }

  // ----- IPv4 -----

  /** An IPv4 packet in `p[at..end]`; bytes behind its total length are ignored. */
  ghost predicate GoodIp4(e: Endian, p: seq<Byte>, at: nat, end: nat, ignore: bool)
    requires at <= end <= |p| <= MAX_PACKET
  {
    && at + 20 <= end && p[at] / 16 == 4
    && var header, total := 4 * (p[at] % 16), Field(p, at + 2);
    && 20 <= header <= total <= end - at
    && Verifies(e, p[at..at + header], ignore)
    && (p[at + 9] == 6 ==> GoodTcp(e, p, at + header, at + total, V4(at), ignore))
    && (p[at + 9] == 17 ==> GoodUdp(e, p, at + header, at + total, V4(at), ignore))
    && (p[at + 9] == 1 ==> GoodIcmp(e, p, at + header, at + total, ignore))
  }

  lemma Ip4PayloadExactly(e: Endian, p: seq<Byte>, cur: nat, len: nat, proto: Byte, d: Decoded, at: nat)
    requires Fits(p, cur, len) && d.hdr.ip == Some(at) && at + 20 <= |p|
    ensures DecodeIpPayload(e, p, cur, len, proto, d).ok <==>
      && (proto == 6 ==> GoodTcp(e, p, cur, cur + len, V4(at), d.ignoreChecksums))
      && (proto == 17 ==> GoodUdp(e, p, cur, cur + len, V4(at), d.ignoreChecksums))
      && (proto == 1 ==> GoodIcmp(e, p, cur, cur + len, d.ignoreChecksums))
  {
    hide DecodeTcp, DecodeUdp, DecodeIcmp, GoodTcp, GoodUdp, GoodIcmp;
    if proto == TCP {
      TcpExactly(e, p, cur, len, d);
    } else if proto == UDP {
      UdpExactly(e, p, cur, len, d);
    } else if proto == ICMP {
      IcmpExactly(e, p, cur, len, d);
    }
  }

  lemma Ip4Exactly(e: Endian, p: seq<Byte>, cur: nat, len: nat, dd: Decoded)
    requires Fits(p, cur, len)
    ensures DecodeIp(e, p, cur, len, dd).ok <==> GoodIp4(e, p, cur, cur + len, dd.ignoreChecksums)
  {
    hide CksumVec, Reference, DecodeIpPayload, GoodTcp, GoodUdp, GoodIcmp, Net16, Field;
    if len >= 20 {
      var hlen := Low(p[cur]) * 4;
      FieldIsNet16(p, cur + 2);
      var total := Net16(p, cur + 2);
      if 20 <= hlen <= total <= len {
        OnePiece(e, p[cur..cur + hlen]);
        var bad := CksumVec(e, [p[cur..cur + hlen]]) != 0;
        Ip4PayloadExactly(e, p, cur + hlen, total - hlen, p[cur + 9], NoteIp(cur, Enter3(cur, dd), bad), cur);
      }
    }
  }

  // ----- IPv6 -----

  /** What an extension chain ends with: a good transport header, or the end of the packet. */
  ghost predicate GoodEnd(e: Endian, p: seq<Byte>, at: nat, len: nat, last: Hop, ip6: nat, ignore: bool)
    requires at + len <= |p| <= MAX_PACKET && ip6 + 40 <= |p|
  {
    last.offset < len ==>
      && last.next in {6, 17, 58}
      && (last.next == 6 ==> GoodTcp(e, p, at + last.offset, at + len, V6(ip6), ignore))
      && (last.next == 17 ==> GoodUdp(e, p, at + last.offset, at + len, V6(ip6), ignore))
      && (last.next == 58 ==> GoodIcmp6(e, p, at + last.offset, at + len, V6(ip6), ignore))
  }

  /** A chain of extension headers from `first` on that ends well. */
  ghost predicate GoodChain(e: Endian, p: seq<Byte>, at: nat, len: nat, first: Hop, hops: seq<Hop>, ip6: nat, ignore: bool)
    requires at + len <= |p| <= MAX_PACKET && ip6 + 40 <= |p|
  {
    IsChain(p, at, len, hops) && hops[0] == first && GoodEnd(e, p, at, len, hops[|hops| - 1], ip6, ignore)
  }

  ghost predicate HasGoodChain(e: Endian, p: seq<Byte>, at: nat, len: nat, first: Hop, ip6: nat, ignore: bool)
    requires at + len <= |p| <= MAX_PACKET && ip6 + 40 <= |p|
  {
    exists hops :: GoodChain(e, p, at, len, first, hops, ip6, ignore)
  }

  ghost predicate ChainStart(p: seq<Byte>, cur: nat, len: nat, offset: nat, dd: Decoded) {
    && Fits(p, cur, len) && cur + offset < INVALID
    && dd.hdr.ip6.Some? && dd.hdr.ip6.value + 40 <= |p| && dd.hdr.ip.None?
  }

  lemma EndExactly(e: Endian, p: seq<Byte>, cur: nat, len: nat, offset: nat, next: Byte, dd: Decoded)
    requires ChainStart(p, cur, len, offset, dd) && (offset >= len || next !in {0, 43, 44, 60, 135})
    ensures DecodeIp6Chain(e, p, cur, len, offset, next, dd).ok
       <==> GoodEnd(e, p, cur, len, Hop(offset, next), dd.hdr.ip6.value, dd.ignoreChecksums)
  {
    hide DecodeTcp, DecodeUdp, DecodeIcmp6, GoodTcp, GoodUdp, GoodIcmp6;
    if offset < len {
      if next == TCP {
        TcpExactly(e, p, cur + offset, len - offset, dd);
      } else if next == UDP {
        UdpExactly(e, p, cur + offset, len - offset, dd);
      } else if next == ICMPV6 {
        Icmp6Exactly(e, p, cur + offset, len - offset, dd);
      }
    }
  }

  /** Where the walk stands after an extension header. */
  ghost function NextHop(p: seq<Byte>, cur: nat, len: nat, h: Hop): Hop
    requires cur + len <= |p| && h.offset + 2 <= len
  {
    var units: int := p[cur + h.offset + 1];
    Hop(if h.next == 44 then h.offset + 8 else h.offset + 8 * (units + 1), p[cur + h.offset])
  }

  lemma HopExactly(e: Endian, p: seq<Byte>, cur: nat, len: nat, offset: nat, next: Byte, dd: Decoded)
    requires ChainStart(p, cur, len, offset, dd) && offset < len && next in {0, 43, 44, 60, 135}
    ensures
      var fits := offset + (if next == 44 then 8 else 2) <= len;
      && (!fits ==> !DecodeIp6Chain(e, p, cur, len, offset, next, dd).ok)
      && (fits ==>
            var h := NextHop(p, cur, len, Hop(offset, next));
            && h.offset > offset && ChainStart(p, cur, len, h.offset, dd)
            && DecodeIp6Chain(e, p, cur, len, offset, next, dd) == DecodeIp6Chain(e, p, cur, len, h.offset, h.next, dd))
      && forall h' :: Follows(p, cur, len, Hop(offset, next), h') <==> fits && h' == NextHop(p, cur, len, Hop(offset, next))
  {
    hide DecodeTcp, DecodeUdp, DecodeIcmp6;
  }

  lemma {:induction false} ChainFound(e: Endian, p: seq<Byte>, cur: nat, len: nat, offset: nat, next: Byte, dd: Decoded)
      returns (hops: seq<Hop>)
    requires ChainStart(p, cur, len, offset, dd) && DecodeIp6Chain(e, p, cur, len, offset, next, dd).ok
    ensures GoodChain(e, p, cur, len, Hop(offset, next), hops, dd.hdr.ip6.value, dd.ignoreChecksums)
    decreases if offset < len then len - offset else 0
  {
    hide DecodeIp6Chain, GoodEnd, Follows;
    hops := [Hop(offset, next)];
    if offset < len && next in {0, 43, 44, 60, 135} {
      HopExactly(e, p, cur, len, offset, next, dd);
      var h := NextHop(p, cur, len, Hop(offset, next));
      var rest := ChainFound(e, p, cur, len, h.offset, h.next, dd);
      assert Follows(p, cur, len, hops[0], rest[0]);
      hops := hops + rest;
    } else {
      EndExactly(e, p, cur, len, offset, next, dd);
    }
  }

  lemma {:induction false} ChainDecodes(e: Endian, p: seq<Byte>, cur: nat, len: nat, offset: nat, next: Byte, dd: Decoded, hops: seq<Hop>)
    requires ChainStart(p, cur, len, offset, dd)
    requires GoodChain(e, p, cur, len, Hop(offset, next), hops, dd.hdr.ip6.value, dd.ignoreChecksums)
    ensures DecodeIp6Chain(e, p, cur, len, offset, next, dd).ok
    decreases |hops|
  {
    if |hops| > 1 {
      assert Follows(p, cur, len, hops[0], hops[1]);
      hide DecodeIp6Chain, GoodEnd;
      HopExactly(e, p, cur, len, offset, next, dd);
      hide Follows;
      var rest := hops[1..];
      assert forall i :: 0 < i < |rest| ==> rest[i] == hops[i + 1] && rest[i - 1] == hops[i];
      assert IsChain(p, cur, len, rest);
      ChainDecodes(e, p, cur, len, hops[1].offset, hops[1].next, dd, rest);
    } else {
      assert GoodEnd(e, p, cur, len, Hop(offset, next), dd.hdr.ip6.value, dd.ignoreChecksums);
      hide DecodeIp6Chain;
      EndExactly(e, p, cur, len, offset, next, dd);
    }
  }

  /** An IPv6 packet in `p[at..end]`; bytes behind its payload length are ignored. */
  ghost predicate GoodIp6(e: Endian, p: seq<Byte>, at: nat, end: nat, ignore: bool)
    requires at <= end <= |p| <= MAX_PACKET
  {
    && at + 40 <= end && p[at] / 16 == 6
    && var announced := 40 + Field(p, at + 4);
    && var len := if announced < end - at then announced else end - at;
    && HasGoodChain(e, p, at, len, Hop(40, p[at + 6]), at, ignore)
  }

  lemma Ip6Exactly(e: Endian, p: seq<Byte>, cur: nat, len: nat, dd: Decoded)
    requires Fits(p, cur, len) && dd.hdr.ip.None?
    ensures DecodeIp6(e, p, cur, len, dd).ok <==> GoodIp6(e, p, cur, cur + len, dd.ignoreChecksums)
  {
    hide DecodeIp6Chain, GoodChain, Net16, Field;
    if len >= 40 {
      FieldIsNet16(p, cur + 4);
      var plen := Net16(p, cur + 4);
      var n := if len > 40 + plen then 40 + plen else len;
      var first, d := p[cur + 6], NoteIp6(cur, Enter3(cur, dd));
      if DecodeIp6Chain(e, p, cur, n, 40, first, d).ok {
        var hops := ChainFound(e, p, cur, n, 40, first, d);
        assert HasGoodChain(e, p, cur, n, Hop(40, first), cur, dd.ignoreChecksums);
      }
      if hops :| GoodChain(e, p, cur, n, Hop(40, first), hops, cur, dd.ignoreChecksums) {
        ChainDecodes(e, p, cur, n, 40, first, d, hops);
      }
    }
  }

  /** Every raw packet: accepted exactly when it is a good packet of one of the two IP versions. */
  lemma RawExactly(e: Endian, p: seq<Byte>, ignore: bool)
    requires |p| <= MAX_PACKET
    ensures DecodeRaw(e, p, 0, |p|, Init(ignore)).ok <==> GoodIp4(e, p, 0, |p|, ignore) || GoodIp6(e, p, 0, |p|, ignore)
  {
    Ip4Exactly(e, p, 0, |p|, Init(ignore));
    Ip6Exactly(e, p, 0, |p|, Init(ignore));
    hide DecodeIp, DecodeIp6, GoodTcp, GoodUdp, GoodIcmp, HasGoodChain, Field, Verifies;
  }
}
