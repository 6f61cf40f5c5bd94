/** What a successful decode says about the packet bytes, stated without the decoder: header
    shapes, checksums in the sense of RFC 1071, and extension chains in the sense of RFC 8200. */
module DecoderMeaning {
  import opened Prelude
  import opened Checksum
  import opened DecoderSpec
  import opened DecoderProps

  /** The transport checksum is the reference checksum of pseudo-header and segment. */
  lemma TransportSumIsReference(e: Endian, p: seq<Byte>, cur: nat, len: nat, dd: Decoded, proto: Byte)
    requires Fits(p, cur, len) && HasNetworkHeader(p, dd)
    ensures TransportSum(e, p, cur, len, dd, proto) == Reference(e, Pseudo(p, dd, len, proto) + p[cur..cur + len])
  {
    TwoPieces(e, Pseudo(p, dd, len, proto), p[cur..cur + len]);
  }

  lemma TwoPieces(e: Endian, a: seq<Byte>, b: seq<Byte>)
    requires |a| % 2 == 0 && |a| + |b| <= 131_074
    ensures CksumVec(e, [a, b]) == Reference(e, a + b)
  {
    hide CksumVec, Reference;
    assert [a, b][1..] == [b] && [b][1..] == [];
    assert Concat([b]) == b;
    assert Concat([a, b]) == a + b;
    CksumVecIsReference(e, [a, b]);
  }

  lemma OnePiece(e: Endian, a: seq<Byte>)
    requires |a| <= 131_074
    ensures CksumVec(e, [a]) == Reference(e, a)
  {
    hide CksumVec, Reference;
    VecOfOne(e, a);
    CksumVecIsReference(e, [a]);
  }

  /** A transport header of protocol `proto` that fills `p[at..end]` together with its payload,
      recorded in `d`; `ph` is the pseudo-header its checksum starts with. */
  ghost predicate Transport(e: Endian, p: seq<Byte>, at: nat, end: nat, proto: Byte, ph: seq<Byte>, d: Decoded) {
    && at + 8 <= end <= |p|
    && d.flags.l4 && d.off.l4 == at
    && (d.flags.l4Checksum <==> Reference(e, ph + p[at..end]) == 0)
    && (proto == TCP ==>
          && d.flags.tcp && d.hdr.tcp == Some(at) && at + 20 <= end
          && at + 20 <= d.off.payload == at + 4 * High(p[at + 12]) <= end
          && (d.tcpDataSegment <==> d.off.payload < end))
    && (proto == UDP ==>
          d.flags.udp && d.hdr.udp == Some(at) && d.off.payload == at + 8 && Net16(p, at + 4) == end - at)
    && (proto == ICMP ==> d.flags.icmp && d.hdr.icmp == Some(at) && d.off.payload == at + 8)
    && (proto == ICMPV6 ==> d.flags.icmp && d.hdr.icmp6 == Some(at) && d.off.payload == at + 8)
  }

  /** The network layer's part of the record survives the transport layer. */
  ghost predicate SameL3(d: Decoded, d': Decoded) {
    && d'.off.l3 == d.off.l3 && d'.hdr.ip == d.hdr.ip && d'.hdr.ip6 == d.hdr.ip6
    && d'.flags.ipv4 == d.flags.ipv4 && d'.flags.ipv6 == d.flags.ipv6 && d'.flags.l3Checksum == d.flags.l3Checksum
  }

  lemma IcmpMeaning(e: Endian, p: seq<Byte>, cur: nat, len: nat, dd: Decoded)
    requires Fits(p, cur, len) && !dd.flags.l4Checksum && DecodeIcmp(e, p, cur, len, dd).ok
    ensures Transport(e, p, cur, cur + len, ICMP, [], DecodeIcmp(e, p, cur, len, dd).dd)
    ensures SameL3(dd, DecodeIcmp(e, p, cur, len, dd).dd)
  {
    hide CksumVec, Reference;
    OnePiece(e, p[cur..cur + len]);
    assert [] + p[cur..cur + len] == p[cur..cur + len];
    var bad := CksumVec(e, [p[cur..cur + len]]) != 0;
    var d := NoteIcmp(cur, MarkL4(Enter4(cur, dd), bad));
    assert DecodeIcmp(e, p, cur, len, dd).dd == Advance(cur + 8, d);
    assert Advance(cur + 8, d).flags == d.flags;
  }

  lemma Icmp6Meaning(e: Endian, p: seq<Byte>, cur: nat, len: nat, dd: Decoded)
    requires Fits(p, cur, len) && !dd.flags.l4Checksum
    requires dd.hdr.ip6.Some? && dd.hdr.ip6.value + 40 <= |p| && DecodeIcmp6(e, p, cur, len, dd).ok
    ensures Transport(e, p, cur, cur + len, ICMPV6, PseudoV6(p, dd.hdr.ip6.value, len, ICMPV6),
                      DecodeIcmp6(e, p, cur, len, dd).dd)
    ensures SameL3(dd, DecodeIcmp6(e, p, cur, len, dd).dd)
  {
    hide CksumVec, Reference;
    var ph := PseudoV6(p, dd.hdr.ip6.value, len, ICMPV6);
    TwoPieces(e, ph, p[cur..cur + len]);
    var bad := CksumVec(e, [ph, p[cur..cur + len]]) != 0;
    var d := NoteIcmp6(cur, MarkL4(Enter4(cur, dd), bad));
    assert DecodeIcmp6(e, p, cur, len, dd).dd == Advance(cur + 8, d);
    assert Advance(cur + 8, d).flags == d.flags;
  }

  lemma EnterSame(p: seq<Byte>, cur: Word, dd: Decoded)
    requires HasNetworkHeader(p, dd)
    ensures HasNetworkHeader(p, Enter4(cur, dd))
    ensures forall len: Word, proto: Byte :: Pseudo(p, Enter4(cur, dd), len, proto) == Pseudo(p, dd, len, proto)
  {
    assert Enter4(cur, dd).hdr == dd.hdr;
  }

  /** What a transport record says, whatever its kind. */
  ghost predicate Recorded(cur: nat, payload: nat, bad: bool, dd: Decoded, d: Decoded) {
    && d.flags.l4 && d.off.l4 == cur && d.off.payload == payload && (d.flags.l4Checksum <==> !bad)
    && SameL3(dd, d) && d.hdr.icmp == dd.hdr.icmp
  }

  lemma UdpRecord(cur: Word, dd: Decoded, bad: bool)
    requires !dd.flags.l4Checksum && cur + 8 < INVALID
    ensures
      var d := Advance(cur + 8, NoteUdp(cur, MarkL4(Enter4(cur, dd), bad)));
      Recorded(cur, cur + 8, bad, dd, d) && d.flags.udp && d.hdr.udp == Some(cur)
  {
    var m := MarkL4(Enter4(cur, dd), bad);
    var d := NoteUdp(cur, m);
    assert m.flags.l4Checksum == !bad && m.off.l4 == cur && m.hdr == dd.hdr;
    assert Advance(cur + 8, d).flags == d.flags && Advance(cur + 8, d).hdr == d.hdr;
  }

  lemma TcpRecord(cur: Word, dd: Decoded, bad: bool, seen: TcpOpts, data: bool, next: Word)
    requires !dd.flags.l4Checksum
    ensures
      var d := Advance(next, NoteTcp(cur, NoteSeen(MarkL4(Enter4(cur, dd), bad), seen), data));
      Recorded(cur, next, bad, dd, d) && d.flags.tcp && d.hdr.tcp == Some(cur) && d.tcpDataSegment == data
  {
    var m := MarkL4(Enter4(cur, dd), bad);
    var d := NoteTcp(cur, NoteSeen(m, seen), data);
    assert m.flags.l4Checksum == !bad && m.off.l4 == cur && m.hdr == dd.hdr;
    assert Advance(next, d).flags == d.flags && Advance(next, d).hdr == d.hdr;
  }

  lemma UdpMeaning(e: Endian, p: seq<Byte>, cur: nat, len: nat, dd: Decoded)
    requires Fits(p, cur, len) && HasNetworkHeader(p, dd) && !dd.flags.l4Checksum
    requires DecodeUdp(e, p, cur, len, dd).ok
    ensures Transport(e, p, cur, cur + len, UDP, Pseudo(p, dd, len, UDP), DecodeUdp(e, p, cur, len, dd).dd)
    ensures SameL3(dd, DecodeUdp(e, p, cur, len, dd).dd) && DecodeUdp(e, p, cur, len, dd).dd.hdr.icmp == dd.hdr.icmp
  {
    EnterSame(p, cur, dd);
    hide TransportSum, Reference, Pseudo, Enter4, MarkL4, NoteUdp, Advance, Net16, HasNetworkHeader, SameL3;
    TransportSumIsReference(e, p, cur, len, Enter4(cur, dd), UDP);
    var bad := TransportSum(e, p, cur, len, Enter4(cur, dd), UDP) != 0;
    UdpRecord(cur, dd, bad);
  }

  lemma TcpMeaning(e: Endian, p: seq<Byte>, cur: nat, len: nat, dd: Decoded)
    requires Fits(p, cur, len) && HasNetworkHeader(p, dd) && !dd.flags.l4Checksum
    requires DecodeTcp(e, p, cur, len, dd).ok
    ensures Transport(e, p, cur, cur + len, TCP, Pseudo(p, dd, len, TCP), DecodeTcp(e, p, cur, len, dd).dd)
    ensures SameL3(dd, DecodeTcp(e, p, cur, len, dd).dd) && DecodeTcp(e, p, cur, len, dd).dd.hdr.icmp == dd.hdr.icmp
  {
    EnterSame(p, cur, dd);
    hide TransportSum, Reference, Pseudo, HasNetworkHeader, SameL3, DecodeTcp, High, Enter4;
    TransportSumIsReference(e, p, cur, len, Enter4(cur, dd), TCP);
    TcpAccepted(e, p, cur, len, dd);
  }

  lemma TcpAccepted(e: Endian, p: seq<Byte>, cur: nat, len: nat, dd: Decoded)
    requires Fits(p, cur, len) && HasNetworkHeader(p, dd) && HasNetworkHeader(p, Enter4(cur, dd)) && !dd.flags.l4Checksum
    requires DecodeTcp(e, p, cur, len, dd).ok
    ensures
      var bad := TransportSum(e, p, cur, len, Enter4(cur, dd), TCP) != 0;
      var d := DecodeTcp(e, p, cur, len, dd).dd;
      && 20 <= len
      && var hlen := 4 * High(p[cur + 12]);
      && 20 <= hlen <= len && Recorded(cur, cur + hlen, bad, dd, d)
      && d.flags.tcp && d.hdr.tcp == Some(cur) && d.tcpDataSegment == (len > hlen)
  {
    hide TransportSum, Pseudo, Enter4, MarkL4, NoteTcp, NoteSeen, Advance, DecodeTcpOpts, High, Recorded;
    var bad := TransportSum(e, p, cur, len, Enter4(cur, dd), TCP) != 0;
    var hlen := High(p[cur + 12]) * 4;
    var m := MarkL4(Enter4(cur, dd), bad);
    var opts := DecodeTcpOpts(p, cur + 20, hlen - 20, m.flags.tcpOpts);
    TcpRecord(cur, dd, bad, opts.seen, len > hlen, cur + hlen);
  }

  /** An accepted IPv4 packet at `cur`: the header, the checksum verdicts, and the transport
      header for the protocols the decoder knows. */
  lemma Ip4Meaning(e: Endian, p: seq<Byte>, cur: nat, len: nat, dd: Decoded)
    requires Fits(p, cur, len) && AtL3(cur, dd) && DecodeIp(e, p, cur, len, dd).ok
    ensures
      var d := DecodeIp(e, p, cur, len, dd).dd;
      && 20 <= len && High(p[cur]) == 4 && d.flags.ipv4 && d.off.l3 == cur && d.hdr.ip == Some(cur)
      && var hlen, total := 4 * Low(p[cur]), Net16(p, cur + 2);
      && 20 <= hlen <= total <= len
      && (d.flags.l3Checksum <==> Reference(e, p[cur..cur + hlen]) == 0)
      && (p[cur + 9] == ICMP ==> Transport(e, p, cur + hlen, cur + total, ICMP, [], d))
      && (p[cur + 9] == TCP || p[cur + 9] == UDP ==>
            Transport(e, p, cur + hlen, cur + total, p[cur + 9], PseudoV4(p, cur, total - hlen, p[cur + 9]), d))
      && (p[cur + 9] !in {ICMP, TCP, UDP} ==> !d.flags.l4 && d.off.payload == cur + hlen)
      && (p[cur + 9] != ICMP ==> d.hdr.icmp == dd.hdr.icmp)
  {
    hide CksumVec, Reference, DecodeIcmp, DecodeTcp, DecodeUdp, Transport, Net16, High, Low, PseudoV4;
    var hlen, total := Low(p[cur]) * 4, Net16(p, cur + 2);
    var proto := p[cur + 9];
    OnePiece(e, p[cur..cur + hlen]);
    var bad := CksumVec(e, [p[cur..cur + hlen]]) != 0;
    var d := NoteIp(cur, Enter3(cur, dd), bad);
    var o := DecodeIpPayload(e, p, cur + hlen, total - hlen, proto, d);
    assert DecodeIp(e, p, cur, len, dd) == o;
    if proto == ICMP {
      IcmpMeaning(e, p, cur + hlen, total - hlen, d);
    } else if proto == TCP {
      TcpMeaning(e, p, cur + hlen, total - hlen, d);
    } else if proto == UDP {
      UdpMeaning(e, p, cur + hlen, total - hlen, d);
    }
  }

  // ----- IPv6 extension chains -----

  /** A header of the chain: its offset from the IPv6 header, and the value that announced it. */
  datatype Hop = Hop(offset: nat, next: Byte)

  /** Section 4 of RFC 8200: `h` is an extension header that fits and leads to `h'`. */
  ghost predicate Follows(p: seq<Byte>, cur: nat, len: nat, h: Hop, h': Hop) {
    && cur + len <= |p| && h.offset + 2 <= len
    && h'.next == p[cur + h.offset]
    && var units: int := p[cur + h.offset + 1];
    && (|| (h.next == 44 && h.offset + 8 <= len && h'.offset == h.offset + 8)
        || (h.next in {0, 43, 60, 135} && h'.offset == h.offset + 8 * (units + 1)))
  }

  ghost predicate IsChain(p: seq<Byte>, cur: nat, len: nat, hops: seq<Hop>) {
    && |hops| > 0
    && forall i :: 0 < i < |hops| ==> Follows(p, cur, len, hops[i - 1], hops[i])
  }

  /** Every transport header found behind IPv6 is the end of an extension chain; when none is
      found the chain runs to the end of the packet or announces more than it has. */
  lemma {:induction false} Ip6ChainMeaning(
      e: Endian, p: seq<Byte>, cur: nat, len: nat, offset: nat, next: Byte, dd: Decoded)
      returns (hops: seq<Hop>)
    requires Fits(p, cur, len) && cur + offset < INVALID
    requires dd.hdr.ip6.Some? && dd.hdr.ip6.value + 40 <= |p| && dd.hdr.ip.None?
    requires !dd.flags.l4 && !dd.flags.l4Checksum
    requires DecodeIp6Chain(e, p, cur, len, offset, next, dd).ok
    ensures IsChain(p, cur, len, hops) && hops[0] == Hop(offset, next)
    ensures SameL3(dd, DecodeIp6Chain(e, p, cur, len, offset, next, dd).dd)
    ensures
      var d, last := DecodeIp6Chain(e, p, cur, len, offset, next, dd).dd, hops[|hops| - 1];
      && (last.offset < len ==>
            && last.next in {TCP, UDP, ICMPV6}
            && Transport(e, p, cur + last.offset, cur + len, last.next,
                         PseudoV6(p, dd.hdr.ip6.value, len - last.offset, last.next), d))
      && (last.offset >= len ==> !d.flags.l4 && d.off.payload == cur + last.offset)
    decreases if offset < len then len - offset else 0
  {
    hide DecodeTcp, DecodeUdp, DecodeIcmp6, Transport, PseudoV6;
    hops := [Hop(offset, next)];
    if offset < len {
      if next == FRAGMENT {
        var rest := Ip6ChainMeaning(e, p, cur, len, offset + 8, p[cur + offset], dd);
        assert Follows(p, cur, len, hops[0], rest[0]);
        hops := hops + rest;
      } else if IsExtension(next) {
        var units: int := p[cur + offset + 1];
        var rest := Ip6ChainMeaning(e, p, cur, len, offset + 8 * (units + 1), p[cur + offset], dd);
        assert Follows(p, cur, len, hops[0], rest[0]);
        hops := hops + rest;
      } else if next == TCP {
        TcpMeaning(e, p, cur + offset, len - offset, dd);
      } else if next == UDP {
        UdpMeaning(e, p, cur + offset, len - offset, dd);
      } else {
        Icmp6Meaning(e, p, cur + offset, len - offset, dd);
      }
    }
  }

  /** An IPv6 payload offset can lie past the end of the packet: here the only extension header
      announces eight bytes and two are left. */
  lemma PayloadPastEnd(e: Endian, p: seq<Byte>, ignoreChecksums: bool)
    requires |p| == 42
    requires p[0] == 0x60 && p[4] == 0 && p[5] == 2 && p[6] == 0 && p[41] == 0
    ensures
      var o := DecodeRaw(e, p, 0, |p|, Init(ignoreChecksums));
      o.ok && o.dd.off.payload == 48 > |p|
  {
    var d := NoteIp6(0, Enter3(0, Init(ignoreChecksums)));
    assert DecodeIp6Chain(e, p, 0, 42, 48, p[40], d) == Outcome(true, Advance(48, d));
    assert DecodeIp6Chain(e, p, 0, 42, 40, 0, d) == Outcome(true, Advance(48, d));
  }

  // ----- TCP options -----

  /** An option of the walk: where it starts, its kind, and how many bytes it takes. */
  datatype OptionHop = OptionHop(at: nat, kind: Byte, size: nat)

  /** Section 3.1 of RFC 9293: one byte for a no-operation, otherwise kind, length and data within
      the options, the length being the one a known kind demands. */
  ghost predicate WellFormed(p: seq<Byte>, end: nat, h: OptionHop) {
    && h.at < end <= |p| && p[h.at] == h.kind != 0
    && (if h.kind == 1 then h.size == 1
        else 2 <= h.size <= end - h.at && p[h.at + 1] == h.size && KnownSize(h.kind, h.size))
  }

  /** The sizes of the options for the maximum segment size, window scale, permitted selective
      acknowledgments and timestamps; any other kind may have any size. */
  ghost predicate KnownSize(kind: Byte, size: nat) {
    && (kind == 2 ==> size == 4) && (kind == 3 ==> size == 3)
    && (kind == 4 ==> size == 2) && (kind == 8 ==> size == 10)
  }

  lemma KnownSizeIs(kind: Byte, size: Byte)
    ensures OptionLengthOk(kind, size) <==> KnownSize(kind, size)
  {
  }

  /** Well-formed options one after another from `start` up to `stop`. */
  ghost predicate OptionWalk(p: seq<Byte>, start: nat, end: nat, hops: seq<OptionHop>, stop: nat) {
    && (forall i :: 0 <= i < |hops| ==> WellFormed(p, end, hops[i]))
    && (forall i :: 0 <= i < |hops| ==> hops[i].at == HopStart(start, hops, i))
    && stop == HopStart(start, hops, |hops|)
  }

  /** Where option `i` starts when the first one starts at `start`. */
  function HopStart(start: nat, hops: seq<OptionHop>, i: nat): nat
    requires i <= |hops|
  {
    if i == 0 then start else hops[i - 1].at + hops[i - 1].size
  }

  /** The options are over: at their end, or at an end-of-options byte. */
  ghost predicate OptionsOver(p: seq<Byte>, end: nat, stop: nat) {
    stop == end || (stop < end <= |p| && p[stop] == 0)
  }

  /** No well-formed option starts here. */
  ghost predicate Malformed(p: seq<Byte>, end: nat, stop: nat) {
    forall h: OptionHop :: WellFormed(p, end, h) ==> h.at != stop
  }

  /** All the options: a walk up to where they are over. */
  ghost predicate AllOptions(p: seq<Byte>, start: nat, end: nat, hops: seq<OptionHop>) {
    OptionWalk(p, start, end, hops, HopStart(start, hops, |hops|)) && OptionsOver(p, end, HopStart(start, hops, |hops|))
  }

  ghost predicate HasKind(hops: seq<OptionHop>, kind: Byte) {
    exists i :: 0 <= i < |hops| && hops[i].kind == kind
  }

  lemma WalkCons(p: seq<Byte>, end: nat, h: OptionHop, rest: seq<OptionHop>, stop: nat)
    requires WellFormed(p, end, h) && OptionWalk(p, h.at + h.size, end, rest, stop)
    ensures OptionWalk(p, h.at, end, [h] + rest, stop)
    ensures forall kind :: HasKind([h] + rest, kind) <==> h.kind == kind || HasKind(rest, kind)
  {
    var hops := [h] + rest;
    hide WellFormed;
    forall i | 0 <= i < |hops| ensures WellFormed(p, end, hops[i]) && hops[i].at == HopStart(h.at, hops, i) {
      if i > 0 {
        assert hops[i] == rest[i - 1] && hops[i - 1] == if i == 1 then h else rest[i - 2];
        assert rest[i - 1].at == HopStart(h.at + h.size, rest, i - 1);
      }
    }
    assert rest != [] ==> hops[|hops| - 1] == rest[|rest| - 1];
    forall kind ensures HasKind(hops, kind) <==> h.kind == kind || HasKind(rest, kind) {
      if HasKind(rest, kind) {
        var i :| 0 <= i < |rest| && rest[i].kind == kind;
        assert hops[i + 1].kind == kind;
      }
      if h.kind == kind {
        assert hops[0].kind == kind;
      }
    }
  }

  /** The decoder walks the well-formed options as far as they go. It accepts if and only if they
      go to the end, and a mark is set exactly when it was set before or an option of its kind was
      met. */
  lemma {:induction false} OptionsMeaning(p: seq<Byte>, cur: nat, len: nat, seen: TcpOpts)
      returns (hops: seq<OptionHop>, stop: nat)
    requires cur + len <= |p|
    ensures OptionWalk(p, cur, cur + len, hops, stop) && cur <= stop <= cur + len
    ensures !OptionsOver(p, cur + len, stop) ==> Malformed(p, cur + len, stop)
    ensures
      var o := DecodeTcpOpts(p, cur, len, seen);
      && (o.ok <==> OptionsOver(p, cur + len, stop))
      && (o.seen.mss <==> seen.mss || HasKind(hops, 2))
      && (o.seen.ws <==> seen.ws || HasKind(hops, 3))
      && (o.seen.ts <==> seen.ts || HasKind(hops, 8))
    decreases len
  {
    hide OptionLengthOk, KnownSize, DecodeTcpOpts, OptionWalk, HasKind, OptionsOver, Malformed;
    hops, stop := [], cur;
    NoHops(p, cur, len);
    if len == 0 {
      OptionsEnd(p, cur, seen);
    } else {
      OptionStep(p, cur, len, seen);
      if p[cur] == 1 {
        var h := OptionHop(cur, 1, 1);
        hops, stop := OptionsMeaning(p, cur + 1, len - 1, seen);
        WalkCons(p, cur + len, h, hops, stop);
        hops := [h] + hops;
      } else if p[cur] != 0 && len > 1 && 2 <= p[cur + 1] <= len && OptionLengthOk(p[cur], p[cur + 1]) {
        var h := OptionHop(cur, p[cur], p[cur + 1]);
        KnownSizeIs(p[cur], p[cur + 1]);
        hops, stop := OptionsMeaning(p, cur + h.size, len - h.size, MarkOption(h.kind, seen));
        WalkCons(p, cur + len, h, hops, stop);
        hops := [h] + hops;
      }
    }
  }

  lemma NoHops(p: seq<Byte>, cur: nat, len: nat)
    requires cur + len <= |p|
    ensures OptionWalk(p, cur, cur + len, [], cur) && forall kind :: !HasKind([], kind)
    ensures OptionsOver(p, cur + len, cur) <==> len == 0 || p[cur] == 0
    ensures len > 0 && p[cur] > 1 && (len < 2 || p[cur + 1] < 2 || len < p[cur + 1] || !OptionLengthOk(p[cur], p[cur + 1]))
        ==> Malformed(p, cur + len, cur)
  {
    hide OptionLengthOk, KnownSize;
    if len >= 2 {
      KnownSizeIs(p[cur], p[cur + 1]);
    }
  }

  lemma HopDetermined(p: seq<Byte>, end: nat, h: OptionHop, h': OptionHop)
    requires WellFormed(p, end, h) && WellFormed(p, end, h') && h.at == h'.at
    ensures h == h'
  {
  }

  /** Two walks from one start agree as far as both go. */
  lemma {:induction false} WalksAgree(p: seq<Byte>, start: nat, end: nat, a: seq<OptionHop>, stop: nat, b: seq<OptionHop>, stop': nat, i: nat)
    requires OptionWalk(p, start, end, a, stop) && OptionWalk(p, start, end, b, stop') && i <= |a| && i <= |b|
    ensures a[..i] == b[..i] && HopStart(start, a, i) == HopStart(start, b, i)
  {
    hide WellFormed, OptionWalk;
    if i > 0 {
      WalksAgree(p, start, end, a, stop, b, stop', i - 1);
      WalkAt(p, start, end, a, stop, i - 1);
      WalkAt(p, start, end, b, stop', i - 1);
      HopDetermined(p, end, a[i - 1], b[i - 1]);
      SamePrefix(a, b, i);
    }
  }

  lemma WalkAt(p: seq<Byte>, start: nat, end: nat, hops: seq<OptionHop>, stop: nat, i: nat)
    requires OptionWalk(p, start, end, hops, stop) && i < |hops|
    ensures WellFormed(p, end, hops[i]) && hops[i].at == HopStart(start, hops, i)
  {
    hide WellFormed;
  }

  lemma SamePrefix<T>(a: seq<T>, b: seq<T>, i: nat)
    requires 0 < i <= |a| && i <= |b| && a[..i - 1] == b[..i - 1] && a[i - 1] == b[i - 1]
    ensures a[..i] == b[..i]
  {
    assert a[..i] == a[..i - 1] + [a[i - 1]] && b[..i] == b[..i - 1] + [b[i - 1]];
  }

  /** Options are accepted if and only if they are a complete chain of well-formed options, and the
      marks are those of that chain. */
  lemma OptionsAccepted(p: seq<Byte>, cur: nat, end: nat, seen: TcpOpts)
    requires cur <= end <= |p|
    ensures
      var o := DecodeTcpOpts(p, cur, end - cur, seen);
      && (o.ok <==> exists hops :: AllOptions(p, cur, end, hops))
      && (forall hops :: AllOptions(p, cur, end, hops) ==>
            && (o.seen.mss <==> seen.mss || HasKind(hops, 2))
            && (o.seen.ws <==> seen.ws || HasKind(hops, 3))
            && (o.seen.ts <==> seen.ts || HasKind(hops, 8)))
  {
    var hops, stop := OptionsMeaning(p, cur, end - cur, seen);
    hide DecodeTcpOpts, WellFormed, OptionsOver, Malformed, HasKind;
    assert stop == HopStart(cur, hops, |hops|);
    forall hops' | AllOptions(p, cur, end, hops') ensures hops' == hops {
      SameWalk(p, cur, end, hops, stop, hops');
    }
    assert OptionsOver(p, end, stop) ==> AllOptions(p, cur, end, hops);
  }

  lemma NoHopAt(p: seq<Byte>, end: nat, stop: nat, h: OptionHop)
    requires OptionsOver(p, end, stop) || Malformed(p, end, stop)
    ensures !(WellFormed(p, end, h) && h.at == stop)
  {
  }

  /** A walk that cannot go on, and one over all the options, are the same. */
  lemma SameWalk(p: seq<Byte>, start: nat, end: nat, a: seq<OptionHop>, stop: nat, b: seq<OptionHop>)
    requires OptionWalk(p, start, end, a, stop) && AllOptions(p, start, end, b)
    requires !OptionsOver(p, end, stop) ==> Malformed(p, end, stop)
    ensures a == b
  {
    hide WellFormed, OptionsOver, Malformed;
    var n := if |a| <= |b| then |a| else |b|;
    var stop' := HopStart(start, b, |b|);
    WalksAgree(p, start, end, a, stop, b, stop', n);
    if |a| < |b| {
      NoHopAt(p, end, stop, b[n]);
    } else if |b| < |a| {
      NoHopAt(p, end, stop', a[n]);
    }
    assert a[..|a|] == a && b[..|b|] == b;
  }
}
