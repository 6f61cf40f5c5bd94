/** The packet decoder itself: a record of mutable fields that every layer updates in place.
    Each method is proved to compute what `DecoderSpec` says; indexing into the packet is
    checked, so every header, option and checksum read is inside it. */
module Decoder {
  import opened Prelude
  import opened Checksum
  import opened DecoderSpec

  lemma OneMoreTag(d: Decoded, p: seq<Byte>, cur: nat, l: Link)
    requires cur + l.offset + 4 <= |p| && l.tags < 0xffff
    ensures NoteTag(NoteTags(d, l), cur + l.offset) == NoteTags(d, NextTag(p, cur, l))
  {
  }

  lemma SeenSame(d: Decoded)
    ensures NoteSeen(d, d.flags.tcpOpts) == d
  {
  }

  lemma SeenTwice(d: Decoded, a: TcpOpts, b: TcpOpts)
    ensures NoteSeen(NoteSeen(d, a), b) == NoteSeen(d, b) && NoteSeen(d, b).flags.tcpOpts == b
  {
  }

  class PacketDecoder {
    const host: Endian
    const packet: seq<Byte>

    /** The fields of the decode record. */
    var dd: Decoded

    constructor (host: Endian, packet: seq<Byte>, ignoreChecksums: bool)
      ensures dd == Init(ignoreChecksums)
      ensures this.host == host && this.packet == packet
    {
      this.host, this.packet := host, packet;
      dd := Init(ignoreChecksums);
    }

    method UpdatePayloadChecksumOffsets(cur: Word)
      modifies this`dd
      ensures dd == Advance(cur, old(dd))
    {
      dd := dd.(off := dd.off.(payload := cur));
      if !dd.flags.checksumError {
        dd := dd.(off := dd.off.(checksum := dd.off.payload));
      }
    }

    /** Compares a transport checksum with zero and records the outcome; false means stop. */
    method CheckL4(sum: Word) returns (go: bool)
      modifies this`dd
      ensures dd == MarkL4(old(dd), sum != 0)
      ensures go == (sum == 0 || dd.ignoreChecksums)
    {
      if sum != 0 {
        dd := dd.(flags := dd.flags.(checksumError := true));
        return dd.ignoreChecksums;
      }
      dd := dd.(flags := dd.flags.(l4Checksum := true));
      return true;
    }

    method TransportChecksum(cur: nat, len: nat, proto: Byte) returns (sum: Word)
      requires Fits(packet, cur, len) && HasNetworkHeader(packet, dd)
      ensures sum == TransportSum(host, packet, cur, len, dd, proto)
    {
      var ph: seq<Byte>;
      if dd.hdr.ip.Some? {
        ph := PseudoV4(packet, dd.hdr.ip.value, len, proto);
      } else {
        ph := PseudoV6(packet, dd.hdr.ip6.value, len, proto);
      }
      sum := InCksumVec(host, [ph, packet[cur..cur + len]]);
    }

    method DecodeIcmp(cur: nat, len: nat) returns (ok: bool)
      requires Fits(packet, cur, len)
      modifies this`dd
      ensures Outcome(ok, dd) == DecoderSpec.DecodeIcmp(host, packet, cur, len, old(dd))
    {
      UpdatePayloadChecksumOffsets(cur);
      dd := dd.(off := dd.off.(l4 := cur));
      if len < 8 { return false; }
      var sum := InCksumVec(host, [packet[cur..cur + len]]);
      var go := CheckL4(sum);
      if !go { return false; }
      dd := NoteIcmp(cur, dd);
      UpdatePayloadChecksumOffsets(cur + 8);
      return true;
    }

    method DecodeIcmp6(cur: nat, len: nat) returns (ok: bool)
      requires Fits(packet, cur, len) && dd.hdr.ip6.Some? && dd.hdr.ip6.value + 40 <= |packet|
      modifies this`dd
      ensures Outcome(ok, dd) == DecoderSpec.DecodeIcmp6(host, packet, cur, len, old(dd))
    {
      UpdatePayloadChecksumOffsets(cur);
      dd := dd.(off := dd.off.(l4 := cur));
      if len < 8 { return false; }
      var sum := InCksumVec(host, [PseudoV6(packet, dd.hdr.ip6.value, len, ICMPV6), packet[cur..cur + len]]);
      var go := CheckL4(sum);
      if !go { return false; }
      dd := NoteIcmp6(cur, dd);
      UpdatePayloadChecksumOffsets(cur + 8);
      return true;
    }

    method DecodeUdp(cur: nat, len: nat) returns (ok: bool)
      requires Fits(packet, cur, len) && HasNetworkHeader(packet, dd)
      modifies this`dd
      ensures Outcome(ok, dd) == DecoderSpec.DecodeUdp(host, packet, cur, len, old(dd))
    {
      UpdatePayloadChecksumOffsets(cur);
      dd := dd.(off := dd.off.(l4 := cur));
      if len < 8 { return false; }
      var ulen := Net16(packet, cur + 4);
      if ulen < 8 || ulen != len { return false; }
      var sum := TransportChecksum(cur, len, UDP);
      var go := CheckL4(sum);
      if !go { return false; }
      dd := NoteUdp(cur, dd);
      UpdatePayloadChecksumOffsets(cur + 8);
      return true;
    }

    method DecodeTcpOpts(start: nat, optionBytes: nat) returns (ok: bool)
      requires start + optionBytes <= |packet|
      modifies this`dd
      ensures Options(ok, dd.flags.tcpOpts) == DecoderSpec.DecodeTcpOpts(packet, start, optionBytes, old(dd).flags.tcpOpts)
      ensures dd == NoteSeen(old(dd), dd.flags.tcpOpts)
    {
      hide DecoderSpec.DecodeTcpOpts, NoteSeen, MarkOption, OptionLengthOk;
      SeenSame(dd);
      var cur: nat, len: nat := start, optionBytes;
      while len > 0
        invariant cur + len <= |packet|
        invariant dd == NoteSeen(old(dd), dd.flags.tcpOpts)
        invariant DecoderSpec.DecodeTcpOpts(packet, cur, len, dd.flags.tcpOpts)
               == DecoderSpec.DecodeTcpOpts(packet, start, optionBytes, old(dd).flags.tcpOpts)
        decreases len
      {
        OptionStep(packet, cur, len, dd.flags.tcpOpts);
        var opt := packet[cur];
        if opt == 0 { return true; }
        if opt == 1 {
          cur, len := cur + 1, len - 1;
          continue;
        }
        if len < 2 { return false; }
        var optlen: int := packet[cur + 1];
        if optlen < 2 || len < optlen { return false; }
        SeenTwice(old(dd), dd.flags.tcpOpts, MarkOption(opt, dd.flags.tcpOpts));
        var fine := TakeOption(opt, optlen);
        if !fine { return false; }
        cur, len := cur + optlen, len - optlen;
      }
      OptionsEnd(packet, cur, dd.flags.tcpOpts);
      return len == 0;
    }

    /** Checks the length of a known option and marks it as seen. */
    method TakeOption(opt: Byte, optlen: Byte) returns (ok: bool)
      modifies this`dd
      ensures ok == OptionLengthOk(opt, optlen)
      ensures dd == if ok then NoteSeen(old(dd), MarkOption(opt, old(dd).flags.tcpOpts)) else old(dd)
    {
      match opt {
        case 2 =>
          if optlen != 4 { return false; }
          dd := dd.(flags := dd.flags.(tcpOpts := dd.flags.tcpOpts.(mss := true)));
        case 3 =>
          if optlen != 3 { return false; }
          dd := dd.(flags := dd.flags.(tcpOpts := dd.flags.tcpOpts.(ws := true)));
        case 4 =>
          if optlen != 2 { return false; }
        case 8 =>
          if optlen != 10 { return false; }
          dd := dd.(flags := dd.flags.(tcpOpts := dd.flags.tcpOpts.(ts := true)));
        case _ =>
      }
      return true;
    }

    method DecodeTcp(cur: nat, len: nat) returns (ok: bool)
      requires Fits(packet, cur, len) && HasNetworkHeader(packet, dd)
      modifies this`dd
      ensures Outcome(ok, dd) == DecoderSpec.DecodeTcp(host, packet, cur, len, old(dd))
    {
      hide DecoderSpec.DecodeTcpOpts, TransportSum, High, NoteTcp;
      UpdatePayloadChecksumOffsets(cur);
      dd := dd.(off := dd.off.(l4 := cur));
      if len < 20 { return false; }
      var hlen: int := High(packet[cur + 12]) * 4;
      if hlen < 20 || hlen > len { return false; }
      var sum := TransportChecksum(cur, len, TCP);
      var go := CheckL4(sum);
      if !go { return false; }
      var optlen := hlen - 20;
      OptionsEnd(packet, cur + 20, dd.flags.tcpOpts);
      if optlen != 0 {
        var fine := DecodeTcpOpts(cur + 20, optlen);
        if !fine { return false; }
      }
      dd := NoteTcp(cur, dd, len > hlen);
      UpdatePayloadChecksumOffsets(cur + hlen);
      return true;
    }

    method DecodeIp6(cur: nat, avail: nat) returns (ok: bool)
      requires Fits(packet, cur, avail) && dd.hdr.ip.None?
      modifies this`dd
      ensures Outcome(ok, dd) == DecoderSpec.DecodeIp6(host, packet, cur, avail, old(dd))
    {
      hide DecoderSpec.DecodeTcp, DecoderSpec.DecodeUdp, DecoderSpec.DecodeIcmp6, Net16, High;
      UpdatePayloadChecksumOffsets(cur);
      dd := dd.(off := dd.off.(l3 := cur));
      if avail < 40 { return false; }
      if High(packet[cur]) != 6 { return false; }
      var plen: int := Net16(packet, cur + 4);
      var len, offset := avail, 40;
      if len > offset + plen {
        len := offset + plen;
      }
      dd := NoteIp6(cur, dd);
      var next := packet[cur + 6];
      while offset < len
        invariant len <= avail && cur + offset < INVALID
        invariant dd.hdr.ip == None && dd.hdr.ip6 == Some(cur)
        invariant DecodeIp6Chain(host, packet, cur, len, offset, next, dd)
               == DecoderSpec.DecodeIp6(host, packet, cur, avail, old(dd))
        decreases len - offset
      {
        if next == FRAGMENT {
          if 8 > len - offset { return false; }
          next := packet[cur + offset];
          offset := offset + 8;
        } else if IsExtension(next) {
          if 2 > len - offset { return false; }
          next := packet[cur + offset];
          var units: int := packet[cur + offset + 1];
          offset := offset + 8 * (units + 1);
        } else if next == TCP {
          ok := DecodeTcp(cur + offset, len - offset);
          return;
        } else if next == UDP {
          ok := DecodeUdp(cur + offset, len - offset);
          return;
        } else if next == ICMPV6 {
          ok := DecodeIcmp6(cur + offset, len - offset);
          return;
        } else {
          return false;
        }
      }
      UpdatePayloadChecksumOffsets(cur + offset);
      return true;
    }

    method DecodeIp(cur: nat, avail: nat) returns (ok: bool)
      requires Fits(packet, cur, avail)
      modifies this`dd
      ensures Outcome(ok, dd) == DecoderSpec.DecodeIp(host, packet, cur, avail, old(dd))
    {
      hide DecoderSpec.DecodeIpPayload, CksumVec, Net16, High, Low, NoteIp;
      UpdatePayloadChecksumOffsets(cur);
      dd := dd.(off := dd.off.(l3 := cur));
      if avail < 20 { return false; }
      if High(packet[cur]) != 4 { return false; }
      var hlen: int := Low(packet[cur]) * 4;
      if hlen < 20 { return false; }
      var dlen: int := Net16(packet, cur + 2);
      var len := avail;
      if len > dlen {
        len := dlen;
      }
      if dlen > len || dlen < hlen { return false; }
      var go := CheckIp(cur, hlen);
      if !go { return false; }
      ok := DecodeIpPayload(cur + hlen, len - hlen, packet[cur + 9]);
    }

    /** The header checksum, and the record of an accepted header. */
    method CheckIp(cur: Word, hlen: nat) returns (go: bool)
      requires cur + hlen <= |packet|
      modifies this`dd
      ensures
        var bad := CksumVec(host, [packet[cur..cur + hlen]]) != 0;
        && go == (!bad || old(dd).ignoreChecksums) && (go ==> dd.hdr.ip == Some(cur))
        && dd == if go then NoteIp(cur, old(dd), bad) else old(dd).(flags := old(dd).flags.(checksumError := true))
    {
      hide CksumVec;
      var sum := InCksumVec(host, [packet[cur..cur + hlen]]);
      if sum != 0 {
        dd := dd.(flags := dd.flags.(checksumError := true));
        if !dd.ignoreChecksums { return false; }
      } else {
        dd := dd.(flags := dd.flags.(l3Checksum := true));
      }
      dd := dd.(hdr := dd.hdr.(ip := Some(cur)));
      dd := dd.(flags := dd.flags.(l3 := true, ipv4 := true));
      return true;
    }

    method DecodeIpPayload(cur: nat, len: nat, proto: Byte) returns (ok: bool)
      requires Fits(packet, cur, len) && HasNetworkHeader(packet, dd)
      modifies this`dd
      ensures Outcome(ok, dd) == DecoderSpec.DecodeIpPayload(host, packet, cur, len, proto, old(dd))
    {
      hide DecoderSpec.DecodeTcp, DecoderSpec.DecodeUdp, DecoderSpec.DecodeIcmp;
      match proto {
        case 6 => ok := DecodeTcp(cur, len);
        case 17 => ok := DecodeUdp(cur, len);
        case 1 => ok := DecodeIcmp(cur, len);
        case _ =>
          UpdatePayloadChecksumOffsets(cur);
          ok := true;
      }
    }

    method DecodeArp(cur: nat, len: nat) returns (ok: bool)
      requires Fits(packet, cur, len)
      modifies this`dd
      ensures Outcome(ok, dd) == DecoderSpec.DecodeArp(packet, cur, len, old(dd))
    {
      UpdatePayloadChecksumOffsets(cur);
      if len < 8 { return false; }
      dd := dd.(hdr := dd.hdr.(arp := Some(cur)));
      return true;
    }

    method DecodeSnap(cur: nat, len: nat, etherType: Word, offset: Word) returns (ok: bool, etherType': Word, offset': Word)
      requires Fits(packet, cur, len) && LinkIn(Link(true, etherType, offset, dd.hdr.vlan, dd.vlanTags), len)
      ensures Link(ok, etherType', offset', dd.hdr.vlan, dd.vlanTags)
           == DecoderSpec.DecodeSnap(packet, cur, len, Link(true, etherType, offset, dd.hdr.vlan, dd.vlanTags))
    {
      etherType', offset' := etherType, offset;
      if etherType >= ETYPE_MIN { return true, etherType', offset'; }
      if len < offset + 8 { return false, etherType', offset'; }
      if Net16(packet, cur + offset) != 0xaaaa { return false, etherType', offset'; }
      return true, Net16(packet, cur + offset + 6), offset + 8;
    }

    method DecodeEth(cur: nat, len: nat) returns (ok: bool)
      requires Fits(packet, cur, len) && Untagged(dd) && dd.hdr.ip.None?
      modifies this`dd
      ensures Outcome(ok, dd) == DecoderSpec.DecodeEth(host, packet, cur, len, old(dd))
    {
      hide DecoderSpec.DecodeEthPayload, DecodeVlans, Net16, DecoderSpec.DecodeSnap, NoteEth, NoteTags;
      UpdatePayloadChecksumOffsets(cur);
      dd := dd.(off := dd.off.(l2 := cur));
      if len < 14 { return false; }
      var etherType, offset, fine := Net16(packet, cur + 12), 14, true;
      fine, etherType, offset := DecodeSnap(cur, len, etherType, offset);
      if !fine { return false; }
      dd := NoteEth(dd, cur);
      fine, etherType, offset := DecodeVlanTags(cur, len, etherType, offset);
      if !fine { return false; }
      fine, etherType, offset := DecodeSnap(cur, len, etherType, offset);
      if !fine { return false; }
      ok := DecodeEthPayload(cur + offset, len - offset, etherType);
    }

    /** The VLAN loop: it keeps the innermost tag and a count of the total. */
    method DecodeVlanTags(cur: nat, len: nat, etherType: Word, offset: Word)
        returns (ok: bool, etherType': Word, offset': Word)
      requires Fits(packet, cur, len) && Untagged(dd) && 14 <= offset <= len
      modifies this`dd
      ensures
        var l := DecodeVlans(packet, cur, len, Link(true, etherType, offset, None, 0));
        Link(ok, etherType', offset', dd.hdr.vlan, dd.vlanTags) == l && dd == NoteTags(old(dd), l)
    {
      hide Net16, IsVlanEthertype, NoteTag;
      etherType', offset' := etherType, offset;
      ghost var l := Link(true, etherType, offset, None, 0);
      while IsVlanEthertype(etherType')
        invariant l == Link(true, etherType', offset', dd.hdr.vlan, dd.vlanTags) && LinkIn(l, len)
        invariant DecodeVlans(packet, cur, len, l)
               == DecodeVlans(packet, cur, len, Link(true, etherType, offset, None, 0))
        invariant dd == NoteTags(old(dd), l)
        decreases len - offset'
      {
        if offset' + 4 > len { return false, etherType', offset'; }
        OneMoreTag(old(dd), packet, cur, l);
        l := NextTag(packet, cur, l);
        dd := NoteTag(dd, cur + offset');
        etherType' := Net16(packet, cur + offset' + 2);
        offset' := offset' + 4;
      }
      return true, etherType', offset';
    }

    method DecodeEthPayload(cur: nat, len: nat, etherType: Word) returns (ok: bool)
      requires Fits(packet, cur, len) && dd.hdr.ip.None?
      modifies this`dd
      ensures Outcome(ok, dd) == DecoderSpec.DecodeEthPayload(host, packet, cur, len, etherType, old(dd))
    {
      hide DecoderSpec.DecodeIp, DecoderSpec.DecodeIp6, DecoderSpec.DecodeArp;
      match etherType {
        case 0x0806 => ok := DecodeArp(cur, len);
        case 0x0800 => ok := DecodeIp(cur, len);
        case 0x86DD => ok := DecodeIp6(cur, len);
        case _ =>
          UpdatePayloadChecksumOffsets(cur);
          ok := true;
      }
    }

    method DecodeRaw(cur: nat, len: nat) returns (ok: bool)
      requires Fits(packet, cur, len) && dd.hdr.ip.None?
      modifies this`dd
      ensures Outcome(ok, dd) == DecoderSpec.DecodeRaw(host, packet, cur, len, old(dd))
    {
      if len < 1 { return false; }
      var version := High(packet[cur]);
      if version == 4 {
        ok := DecodeIp(cur, len);
        return;
      }
      if version == 6 {
        ok := DecodeIp6(cur, len);
        return;
      }
      return false;
    }
  }
}
