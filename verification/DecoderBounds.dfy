/** How far the payload offset of an accepted packet reaches. */
module DecoderBounds {
  import opened Prelude
  import opened Checksum
  import opened DecoderSpec

  // ----- transport layers stay inside their bytes -----

  lemma TcpPayload(e: Endian, p: seq<Byte>, cur: nat, len: nat, dd: Decoded)
    requires Fits(p, cur, len) && HasNetworkHeader(p, dd) && DecodeTcp(e, p, cur, len, dd).ok
    ensures cur < DecodeTcp(e, p, cur, len, dd).dd.off.payload <= cur + len
  {
    hide TransportSum, DecodeTcpOpts, High, NoteTcp, NoteSeen, MarkL4, Enter4;
  }

  lemma UdpPayload(e: Endian, p: seq<Byte>, cur: nat, len: nat, dd: Decoded)
    requires Fits(p, cur, len) && HasNetworkHeader(p, dd) && DecodeUdp(e, p, cur, len, dd).ok
    ensures cur < DecodeUdp(e, p, cur, len, dd).dd.off.payload <= cur + len
  {
    hide TransportSum, Net16, NoteUdp, MarkL4, Enter4;
  }

  lemma IcmpPayload(e: Endian, p: seq<Byte>, cur: nat, len: nat, dd: Decoded)
    requires Fits(p, cur, len) && DecodeIcmp(e, p, cur, len, dd).ok
    ensures cur < DecodeIcmp(e, p, cur, len, dd).dd.off.payload <= cur + len
  {
    hide CksumVec, NoteIcmp, MarkL4, Enter4;
  }

  lemma Icmp6Payload(e: Endian, p: seq<Byte>, cur: nat, len: nat, dd: Decoded)
    requires Fits(p, cur, len) && dd.hdr.ip6.Some? && dd.hdr.ip6.value + 40 <= |p| && DecodeIcmp6(e, p, cur, len, dd).ok
    ensures cur < DecodeIcmp6(e, p, cur, len, dd).dd.off.payload <= cur + len
  {
    hide CksumVec, PseudoV6, NoteIcmp6, MarkL4, Enter4;
  }

  // ----- extension headers -----

  /** No extension header met on the walk over the first `len` bytes ends behind `limit`. */
  predicate ChainFits(p: seq<Byte>, cur: nat, len: nat, limit: nat, offset: nat, next: Byte)
    requires cur + len <= |p|
    decreases if offset < len then len - offset else 0
  {
    if offset >= len then true
    else if next == FRAGMENT then
      offset + 8 <= len && ChainFits(p, cur, len, limit, offset + 8, p[cur + offset])
    else if IsExtension(next) then
      && offset + 2 <= len
      && var units: int := p[cur + offset + 1];
      && offset + 8 * (units + 1) <= limit
      && ChainFits(p, cur, len, limit, offset + 8 * (units + 1), p[cur + offset])
    else true
  }

  /** An accepted chain ends at or before `limit` if and only if all its extension headers do. */
  lemma {:induction false} ChainPayload(
      e: Endian, p: seq<Byte>, cur: nat, len: nat, limit: nat, offset: nat, next: Byte, dd: Decoded)
    requires Fits(p, cur, len) && cur + offset < INVALID && len <= limit && offset <= limit
    requires dd.hdr.ip6.Some? && dd.hdr.ip6.value + 40 <= |p| && dd.hdr.ip.None?
    requires DecodeIp6Chain(e, p, cur, len, offset, next, dd).ok
    ensures DecodeIp6Chain(e, p, cur, len, offset, next, dd).dd.off.payload <= cur + limit
       <==> ChainFits(p, cur, len, limit, offset, next)
    decreases if offset < len then len - offset else 0
  {
    hide DecodeTcp, DecodeUdp, DecodeIcmp6;
    if offset < len {
      if next == FRAGMENT {
        ChainPayload(e, p, cur, len, limit, offset + 8, p[cur + offset], dd);
      } else if IsExtension(next) {
        var units: int := p[cur + offset + 1];
        var after := offset + 8 * (units + 1);
        if after <= limit {
          ChainPayload(e, p, cur, len, limit, after, p[cur + offset], dd);
        } else {
          assert after >= len;
        }
      } else if next == TCP {
        TcpPayload(e, p, cur + offset, len - offset, dd);
      } else if next == UDP {
        UdpPayload(e, p, cur + offset, len - offset, dd);
      } else {
        Icmp6Payload(e, p, cur + offset, len - offset, dd);
      }
    }
  }

  /** The bytes of an IPv6 packet: its own length, or what there is. */
  function Ip6Length(p: seq<Byte>, cur: nat, len: nat): (n: nat)
    requires cur + len <= |p| && 40 <= len
    ensures 40 <= n <= len
  {
    var plen := Net16(p, cur + 4);
    if len > 40 + plen then 40 + plen else len
  }

  /** The payload offset of an IPv6 packet lies in its bytes, and in the bytes there are, exactly
      when its extension headers do. */
  ghost predicate Ip6Bounded(p: seq<Byte>, cur: nat, len: nat, payload: nat)
    requires cur + len <= |p|
  {
    && 40 <= len
    && var n, next := Ip6Length(p, cur, len), p[cur + 6];
    && (payload <= cur + n <==> ChainFits(p, cur, n, n, 40, next))
    && (payload <= cur + len <==> ChainFits(p, cur, n, len, 40, next))
  }

  lemma Ip6Payload(e: Endian, p: seq<Byte>, cur: nat, len: nat, dd: Decoded)
    requires Fits(p, cur, len) && dd.hdr.ip.None? && DecodeIp6(e, p, cur, len, dd).ok
    ensures Ip6Bounded(p, cur, len, DecodeIp6(e, p, cur, len, dd).dd.off.payload)
  {
    hide DecodeIp6Chain, ChainFits, Net16, High;
    var n, next, d := Ip6Length(p, cur, len), p[cur + 6], NoteIp6(cur, Enter3(cur, dd));
    assert DecodeIp6(e, p, cur, len, dd) == DecodeIp6Chain(e, p, cur, n, 40, next, d);
    ChainPayload(e, p, cur, n, n, 40, next, d);
    ChainPayload(e, p, cur, n, len, 40, next, d);
  }

  lemma Ip4Payload(e: Endian, p: seq<Byte>, cur: nat, len: nat, dd: Decoded)
    requires Fits(p, cur, len) && DecodeIp(e, p, cur, len, dd).ok
    ensures 20 <= len && cur + 20 <= DecodeIp(e, p, cur, len, dd).dd.off.payload <= cur + Net16(p, cur + 2) <= cur + len
  {
    hide CksumVec, DecodeTcp, DecodeUdp, DecodeIcmp, Net16, High, Low, Enter3;
    var hlen, total := Low(p[cur]) * 4, Net16(p, cur + 2);
    var d := NoteIp(cur, Enter3(cur, dd), CksumVec(e, [p[cur..cur + hlen]]) != 0);
    var proto := p[cur + 9];
    assert DecodeIp(e, p, cur, len, dd) == DecodeIpPayload(e, p, cur + hlen, total - hlen, proto, d);
    hide DecodeIp, NoteIp;
    if proto == TCP {
      TcpPayload(e, p, cur + hlen, total - hlen, d);
    } else if proto == UDP {
      UdpPayload(e, p, cur + hlen, total - hlen, d);
    } else if proto == ICMP {
      IcmpPayload(e, p, cur + hlen, total - hlen, d);
    }
  }

  // ----- whole packets -----

  /** Where the link layer of a frame ends, and what it announces. */
  function LinkOf(p: seq<Byte>): (l: Link)
    requires 14 <= |p| <= MAX_PACKET
    ensures l.offset <= |p|
  {
    var l := DecodeSnap(p, 0, |p|, Link(true, Net16(p, 12), 14, None, 0));
    if !l.ok then l else
    var l := DecodeVlans(p, 0, |p|, l);
    if !l.ok then l else DecodeSnap(p, 0, |p|, l)
  }

  lemma LinkPayload(e: Endian, p: seq<Byte>, cur: nat, len: nat, etherType: Word, d: Decoded)
    requires Fits(p, cur, len) && d.hdr.ip.None? && DecodeEthPayload(e, p, cur, len, etherType, d).ok
    ensures
      var payload := DecodeEthPayload(e, p, cur, len, etherType, d).dd.off.payload;
      if etherType == ETYPE_IPV6 then Ip6Bounded(p, cur, len, payload) else cur <= payload <= cur + len
  {
    hide DecodeIp, DecodeIp6, Ip6Bounded;
    if etherType == ETYPE_IPV6 {
      Ip6Payload(e, p, cur, len, d);
    } else if etherType == ETYPE_IP {
      Ip4Payload(e, p, cur, len, d);
    }
  }

  /** Every accepted frame: the payload offset is inside it, except for IPv6, where it is exactly
      when the extension headers are. */
  lemma EthPayloadBound(e: Endian, p: seq<Byte>, ignoreChecksums: bool)
    requires |p| <= MAX_PACKET && DecodeEth(e, p, 0, |p|, Init(ignoreChecksums)).ok
    ensures
      && 14 <= |p|
      && var l, payload := LinkOf(p), DecodeEth(e, p, 0, |p|, Init(ignoreChecksums)).dd.off.payload;
      && l.ok
      && if l.etherType == ETYPE_IPV6 then Ip6Bounded(p, l.offset, |p| - l.offset, payload) else payload <= |p|
  {
    hide DecodeEthPayload, Net16, DecodeSnap, DecodeVlans, NoteTags, NoteEth, Enter2, Ip6Bounded;
    var l := LinkOf(p);
    var first := DecodeSnap(p, 0, |p|, Link(true, Net16(p, 12), 14, None, 0));
    var tagged := DecodeVlans(p, 0, |p|, first);
    var d := NoteTags(NoteEth(Enter2(0, Init(ignoreChecksums)), 0), tagged);
    assert Enter2(0, Init(ignoreChecksums)).hdr.ip.None? by { EnterNoIp(ignoreChecksums); }
    LinkPayload(e, p, l.offset, |p| - l.offset, l.etherType, d);
  }

  lemma EnterNoIp(ignoreChecksums: bool)
    ensures Enter2(0, Init(ignoreChecksums)).hdr.ip.None?
  {
  }

  /** Every accepted raw packet, likewise. */
  lemma RawPayloadBound(e: Endian, p: seq<Byte>, ignoreChecksums: bool)
    requires |p| <= MAX_PACKET && DecodeRaw(e, p, 0, |p|, Init(ignoreChecksums)).ok
    ensures
      && 1 <= |p|
      && var payload := DecodeRaw(e, p, 0, |p|, Init(ignoreChecksums)).dd.off.payload;
      && if High(p[0]) == 6 then Ip6Bounded(p, 0, |p|, payload) else payload <= |p|
  {
    hide DecodeIp, DecodeIp6, Ip6Bounded, High;
    if High(p[0]) == 6 {
      Ip6Payload(e, p, 0, |p|, Init(ignoreChecksums));
    } else {
      Ip4Payload(e, p, 0, |p|, Init(ignoreChecksums));
    }
  }
}
