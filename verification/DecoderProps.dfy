/** What the decoder guarantees about its record, for every packet up to `MAX_PACKET` bytes. */
module DecoderProps {
  import opened Prelude
  import opened Checksum
  import opened DecoderSpec

  /** Offsets recorded so far are ordered and bounded by the payload offset; without a checksum
      error the checksum offset is the payload offset, and it never passes it. */
  ghost predicate Good(d: Decoded) {
    && d.off.checksum <= d.off.payload
    && (!d.flags.checksumError ==> d.off.checksum == d.off.payload)
    && (d.off.payload == INVALID ==>
          d.off.l2 == d.off.l3 == d.off.l4 == INVALID && !d.flags.checksumError)
    && (d.off.l2 == INVALID || d.off.l2 <= d.off.payload)
    && (d.off.l3 == INVALID || d.off.l3 <= d.off.payload)
    && (d.off.l4 == INVALID || d.off.l4 <= d.off.payload)
    && (d.off.l2 == INVALID || d.off.l2 <= d.off.l3)
    && (d.off.l3 == INVALID || d.off.l3 <= d.off.l4)
  }

  /** A record at the moment a layer starts at `cur`. */
  ghost predicate Ready(cur: nat, d: Decoded) {
    && Good(d) && cur < INVALID
    && (d.off.payload == INVALID || d.off.payload <= cur)
    && !d.flags.l4 && d.off.l4 == INVALID
  }

  /** The network layer's share: an IPv4 header is validated, or it is the first bad header and
      the checksum offset stays on it. */
  ghost predicate L3Noted(d: Decoded) {
    && (d.flags.checksumError ==> d.ignoreChecksums && d.flags.ipv4 && d.off.checksum == d.off.l3)
    && (d.flags.ipv4 ==> d.flags.l3Checksum != d.flags.checksumError)
    && !d.flags.l4Checksum
  }

  /** The offset of the first header whose checksum failed. */
  function FirstBad(d: Decoded): Word {
    if d.flags.ipv4 && !d.flags.l3Checksum then d.off.l3 else d.off.l4
  }

  /** The promise about an outcome: an ordered record; success under enforced checksums means no
      checksum error; a tolerated error leaves the checksum offset on the first bad header. */
  ghost predicate Sound(o: Outcome) {
    && Good(o.dd)
    && (o.ok && !o.dd.ignoreChecksums ==>
          !o.dd.flags.checksumError && o.dd.off.payload == o.dd.off.checksum)
    && (o.ok && o.dd.flags.checksumError ==> o.dd.off.checksum == FirstBad(o.dd))
    && (o.ok && o.dd.flags.l4 ==>
          o.dd.flags.l4Checksum
          || (o.dd.flags.checksumError && o.dd.ignoreChecksums))
  }

  /** Later layers leave the link layer's part of the record alone. */
  ghost predicate Kept(d: Decoded, d': Decoded) {
    && d'.off.l2 == d.off.l2 && d'.hdr.eth == d.hdr.eth && d'.vlanTags == d.vlanTags
    && d'.ignoreChecksums == d.ignoreChecksums
  }

  /** A transport layer that gives up after recording its start, or its checksum. */
  lemma StopSound(cur: nat, dd: Decoded, bad: bool)
    requires Ready(cur, dd) && L3Noted(dd)
    ensures Sound(Outcome(false, Enter4(cur, dd))) && Kept(dd, Enter4(cur, dd))
    ensures Sound(Outcome(false, MarkL4(Enter4(cur, dd), bad))) && Kept(dd, MarkL4(Enter4(cur, dd), bad))
  {
  }

  /** The parts of a record that `Sound` speaks of. */
  ghost predicate SameChecks(d: Decoded, d': Decoded) {
    && d'.off == d.off && Kept(d, d')
    && d'.flags.checksumError == d.flags.checksumError && d'.flags.l3Checksum == d.flags.l3Checksum
    && d'.flags.l4Checksum == d.flags.l4Checksum && d'.flags.ipv4 == d.flags.ipv4
  }

  /** A transport layer that accepts: it notes its header and moves to the end of it. */
  lemma AcceptSound(cur: nat, end: nat, dd: Decoded, bad: bool, d: Decoded)
    requires Ready(cur, dd) && L3Noted(dd) && cur <= end < INVALID
    requires bad ==> dd.ignoreChecksums
    requires SameChecks(MarkL4(Enter4(cur, dd), bad), d)
    ensures Sound(Outcome(true, Advance(end, d))) && Kept(dd, Advance(end, d))
  {
    var m := MarkL4(Enter4(cur, dd), bad);
    var f := Advance(end, d);
    assert f.flags == d.flags;
    assert Good(m);
    assert Good(f);
  }

  lemma IcmpSound(e: Endian, p: seq<Byte>, cur: nat, len: nat, dd: Decoded)
    requires Fits(p, cur, len) && Ready(cur, dd) && L3Noted(dd)
    ensures Sound(DecodeIcmp(e, p, cur, len, dd))
    ensures Kept(dd, DecodeIcmp(e, p, cur, len, dd).dd)
  {
    hide CksumVec, Sound, Good;
    if len < 8 {
      StopSound(cur, dd, true);
    } else {
      var bad := CksumVec(e, [p[cur..cur + len]]) != 0;
      var d := MarkL4(Enter4(cur, dd), bad);
      if bad && !dd.ignoreChecksums {
        StopSound(cur, dd, bad);
      } else {
        AcceptSound(cur, cur + 8, dd, bad, NoteIcmp(cur, d));
      }
    }
  }

  lemma Icmp6Sound(e: Endian, p: seq<Byte>, cur: nat, len: nat, dd: Decoded)
    requires Fits(p, cur, len) && Ready(cur, dd) && L3Noted(dd)
    requires dd.hdr.ip6.Some? && dd.hdr.ip6.value + 40 <= |p|
    ensures Sound(DecodeIcmp6(e, p, cur, len, dd))
    ensures Kept(dd, DecodeIcmp6(e, p, cur, len, dd).dd)
  {
    hide CksumVec, Sound, Good;
    if len < 8 {
      StopSound(cur, dd, true);
    } else {
      var bad := CksumVec(e, [PseudoV6(p, dd.hdr.ip6.value, len, ICMPV6), p[cur..cur + len]]) != 0;
      var d := MarkL4(Enter4(cur, dd), bad);
      if bad && !dd.ignoreChecksums {
        StopSound(cur, dd, bad);
      } else {
        AcceptSound(cur, cur + 8, dd, bad, NoteIcmp6(cur, d));
      }
    }
  }

  lemma UdpSound(e: Endian, p: seq<Byte>, cur: nat, len: nat, dd: Decoded)
    requires Fits(p, cur, len) && HasNetworkHeader(p, dd) && Ready(cur, dd) && L3Noted(dd)
    ensures Sound(DecodeUdp(e, p, cur, len, dd))
    ensures Kept(dd, DecodeUdp(e, p, cur, len, dd).dd)
  {
    hide TransportSum, Sound, Good, Net16;
    if len < 8 || Net16(p, cur + 4) < 8 || Net16(p, cur + 4) != len {
      StopSound(cur, dd, true);
    } else {
      var bad := TransportSum(e, p, cur, len, Enter4(cur, dd), UDP) != 0;
      var d := MarkL4(Enter4(cur, dd), bad);
      if bad && !dd.ignoreChecksums {
        StopSound(cur, dd, bad);
      } else {
        AcceptSound(cur, cur + 8, dd, bad, NoteUdp(cur, d));
      }
    }
  }

  lemma TcpSound(e: Endian, p: seq<Byte>, cur: nat, len: nat, dd: Decoded)
    requires Fits(p, cur, len) && HasNetworkHeader(p, dd) && Ready(cur, dd) && L3Noted(dd)
    ensures Sound(DecodeTcp(e, p, cur, len, dd))
    ensures Kept(dd, DecodeTcp(e, p, cur, len, dd).dd)
  {
    hide TransportSum, DecodeTcpOpts, High, Sound, Good;
    if len < 20 || High(p[cur + 12]) * 4 < 20 || High(p[cur + 12]) * 4 > len {
      StopSound(cur, dd, true);
    } else {
      var hlen := High(p[cur + 12]) * 4;
      var bad := TransportSum(e, p, cur, len, Enter4(cur, dd), TCP) != 0;
      var d := MarkL4(Enter4(cur, dd), bad);
      StopSound(cur, dd, bad);
      if !bad || dd.ignoreChecksums {
        var opts := DecodeTcpOpts(p, cur + 20, hlen - 20, d.flags.tcpOpts);
        var d' := NoteSeen(d, opts.seen);
        StopSame(d, d');
        if opts.ok {
          AcceptSound(cur, cur + hlen, dd, bad, NoteTcp(cur, d', len > hlen));
        }
      }
    }
  }

  lemma StopSame(d: Decoded, d': Decoded)
    requires Sound(Outcome(false, d)) && SameChecks(d, d')
    ensures Sound(Outcome(false, d'))
  {
  }

  lemma {:induction false} Ip6ChainSound(e: Endian, p: seq<Byte>, cur: nat, len: nat, offset: nat, next: Byte, dd: Decoded)
    requires Fits(p, cur, len) && cur + offset < INVALID
    requires dd.hdr.ip6.Some? && dd.hdr.ip6.value + 40 <= |p| && dd.hdr.ip.None?
    requires Ready(cur, dd) && L3Noted(dd) && !dd.flags.checksumError
    ensures Sound(DecodeIp6Chain(e, p, cur, len, offset, next, dd))
    ensures Kept(dd, DecodeIp6Chain(e, p, cur, len, offset, next, dd).dd)
    decreases if offset < len then len - offset else 0
  {
    hide DecodeTcp, DecodeUdp, DecodeIcmp6;
    if offset < len {
      if next == FRAGMENT {
        if 8 <= len - offset { Ip6ChainSound(e, p, cur, len, offset + 8, p[cur + offset], dd); }
      } else if IsExtension(next) {
        if 2 <= len - offset {
          var units: int := p[cur + offset + 1];
          Ip6ChainSound(e, p, cur, len, offset + 8 * (units + 1), p[cur + offset], dd);
        }
      } else if next == TCP {
        TcpSound(e, p, cur + offset, len - offset, dd);
      } else if next == UDP {
        UdpSound(e, p, cur + offset, len - offset, dd);
      } else if next == ICMPV6 {
        Icmp6Sound(e, p, cur + offset, len - offset, dd);
      }
    }
  }

  /** A record that has passed at most the link layer. */
  ghost predicate AtL3(cur: nat, d: Decoded) {
    && Ready(cur, d) && d.off.l3 == INVALID && !d.flags.checksumError
    && !d.flags.ipv4 && !d.flags.ipv6 && !d.flags.l3Checksum && !d.flags.l4Checksum
    && d.hdr.ip.None?
  }

  lemma Ip6Sound(e: Endian, p: seq<Byte>, cur: nat, len: nat, dd: Decoded)
    requires Fits(p, cur, len) && AtL3(cur, dd)
    ensures Sound(DecodeIp6(e, p, cur, len, dd))
    ensures Kept(dd, DecodeIp6(e, p, cur, len, dd).dd)
  {
    hide DecodeIp6Chain, Net16, High;
    if len >= 40 && High(p[cur]) == 6 {
      var plen := Net16(p, cur + 4);
      var n := if len > 40 + plen then 40 + plen else len;
      var d := Enter3(cur, dd);
      Ip6ChainSound(e, p, cur, n, 40, p[cur + 6], NoteIp6(cur, d));
    }
  }

  lemma IpHeaderSound(cur: nat, dd: Decoded)
    requires AtL3(cur, dd)
    ensures Sound(Outcome(false, Enter3(cur, dd))) && Kept(dd, Enter3(cur, dd))
    ensures
      var d := Enter3(cur, dd);
      Sound(Outcome(false, d.(flags := d.flags.(checksumError := true))))
  {
  }

  lemma NoteIpReady(cur: nat, next: nat, dd: Decoded, bad: bool)
    requires AtL3(cur, dd) && cur <= next < INVALID && (bad ==> dd.ignoreChecksums)
    ensures
      var d := NoteIp(cur, Enter3(cur, dd), bad);
      Ready(next, d) && L3Noted(d) && Kept(dd, d)
  {
  }

  lemma IpPayloadSound(e: Endian, p: seq<Byte>, cur: nat, len: nat, proto: Byte, dd: Decoded)
    requires Fits(p, cur, len) && HasNetworkHeader(p, dd) && Ready(cur, dd) && L3Noted(dd)
    ensures Sound(DecodeIpPayload(e, p, cur, len, proto, dd))
    ensures Kept(dd, DecodeIpPayload(e, p, cur, len, proto, dd).dd)
  {
    hide DecodeTcp, DecodeUdp, DecodeIcmp;
    if proto == TCP {
      TcpSound(e, p, cur, len, dd);
    } else if proto == UDP {
      UdpSound(e, p, cur, len, dd);
    } else if proto == ICMP {
      IcmpSound(e, p, cur, len, dd);
    }
  }

  lemma IpSound(e: Endian, p: seq<Byte>, cur: nat, len: nat, dd: Decoded)
    requires Fits(p, cur, len) && AtL3(cur, dd)
    ensures Sound(DecodeIp(e, p, cur, len, dd))
    ensures Kept(dd, DecodeIp(e, p, cur, len, dd).dd)
  {
    hide DecodeIpPayload, Net16, High, Low, CksumVec, Sound, Good;
    IpHeaderSound(cur, dd);
    if len >= 20 && High(p[cur]) == 4 && Low(p[cur]) * 4 >= 20 {
      var hlen, dlen := Low(p[cur]) * 4, Net16(p, cur + 2);
      if hlen <= dlen <= len {
        var bad := CksumVec(e, [p[cur..cur + hlen]]) != 0;
        if !bad || dd.ignoreChecksums {
          NoteIpReady(cur, cur + hlen, dd, bad);
          IpPayloadSound(e, p, cur + hlen, dlen - hlen, p[cur + 9], NoteIp(cur, Enter3(cur, dd), bad));
        }
      }
    }
  }

  lemma EthPayloadSound(e: Endian, p: seq<Byte>, cur: nat, len: nat, etherType: Word, d: Decoded)
    requires Fits(p, cur, len) && AtL3(cur, d) && !d.flags.l4
    ensures Sound(DecodeEthPayload(e, p, cur, len, etherType, d))
    ensures Kept(d, DecodeEthPayload(e, p, cur, len, etherType, d).dd)
  {
    hide DecodeIp, DecodeIp6;
    if etherType == ETYPE_IP {
      IpSound(e, p, cur, len, d);
    } else if etherType == ETYPE_IPV6 {
      Ip6Sound(e, p, cur, len, d);
    }
  }

  lemma LinkNotedAtL3(l: Link, cur: nat, ignoreChecksums: bool)
    requires cur < INVALID
    ensures
      var d := Enter2(0, Init(ignoreChecksums));
      && Sound(Outcome(false, d)) && d.off.l2 == 0
      && Sound(Outcome(false, NoteTags(NoteEth(d, 0), l)))
      && AtL3(cur, NoteTags(NoteEth(d, 0), l)) && NoteTags(NoteEth(d, 0), l).off.l2 == 0
  {
  }

  /** The decoder's promise for ethernet frames. */
  lemma EthSound(e: Endian, p: seq<Byte>, ignoreChecksums: bool)
    requires |p| <= MAX_PACKET
    ensures Sound(DecodeEth(e, p, 0, |p|, Init(ignoreChecksums)))
    ensures DecodeEth(e, p, 0, |p|, Init(ignoreChecksums)).dd.off.l2 == 0
  {
    hide DecodeEthPayload, Net16, DecodeSnap, DecodeVlans, NoteTags, NoteEth, Sound, Good, AtL3, Enter2;
    var d := Enter2(0, Init(ignoreChecksums));
    LinkNotedAtL3(Link(true, 0, 14, None, 0), 0, ignoreChecksums);
    if |p| >= 14 {
      var l := DecodeSnap(p, 0, |p|, Link(true, Net16(p, 12), 14, None, 0));
      if l.ok {
        var tagged := DecodeVlans(p, 0, |p|, l);
        LinkNotedAtL3(tagged, 0, ignoreChecksums);
        if tagged.ok {
          var last := DecodeSnap(p, 0, |p|, tagged);
          if last.ok {
            LinkNotedAtL3(tagged, last.offset, ignoreChecksums);
            AtL3HasNoL4(last.offset, NoteTags(NoteEth(d, 0), tagged));
            EthPayloadSound(e, p, last.offset, |p| - last.offset, last.etherType, NoteTags(NoteEth(d, 0), tagged));
          }
        }
      }
    }
  }

  lemma AtL3HasNoL4(cur: nat, d: Decoded)
    requires AtL3(cur, d)
    ensures !d.flags.l4 && d.hdr.ip.None?
  {
  }

  /** The decoder's promise for raw IP packets. */
  lemma RawSound(e: Endian, p: seq<Byte>, ignoreChecksums: bool)
    requires |p| <= MAX_PACKET
    ensures Sound(DecodeRaw(e, p, 0, |p|, Init(ignoreChecksums)))
  {
    hide DecodeIp, DecodeIp6, High;
    IpSound(e, p, 0, |p|, Init(ignoreChecksums));
    Ip6Sound(e, p, 0, |p|, Init(ignoreChecksums));
  }
}
