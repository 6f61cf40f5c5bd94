/** Exactly which Ethernet frames are accepted, and what the record says about their tags. */
module DecoderFrames {
  import opened Prelude
  import opened Checksum
  import opened DecoderSpec
  import opened DecoderAccepts

  /** Bytes of the frame from `offset` on, and the value that announced them. */
  datatype Announced = Announced(etherType: nat, offset: nat)

  /** A value below 1536 is a length; then a SNAP header must follow and names the type. */
  ghost predicate SnapStep(p: seq<Byte>, a: Announced, b: Announced) {
    if a.etherType >= 1536 then b == a
    else
      && a.offset + 8 <= |p| && p[a.offset] == 0xaa && p[a.offset + 1] == 0xaa
      && b == Announced(Field(p, a.offset + 6), a.offset + 8)
  }

  ghost predicate AnnouncesTag(a: Announced) {
    a.etherType in {0x8100, 0x88A8, 0x9100, 0x9200, 0x9300}
  }

  ghost predicate TagStep(p: seq<Byte>, a: Announced, b: Announced) {
    && AnnouncesTag(a) && a.offset + 4 <= |p|
    && b == Announced(Field(p, a.offset + 2), a.offset + 4)
  }

  /** VLAN tags one after another, up to something that is none. */
  ghost predicate Tags(p: seq<Byte>, walk: seq<Announced>) {
    && walk != [] && !AnnouncesTag(walk[|walk| - 1])
    && forall i :: 0 < i < |walk| ==> TagStep(p, walk[i - 1], walk[i])
  }

  /** The link layer of a frame: the Ethernet header, an optional SNAP header, the tags, another
      optional SNAP header; it announces `a`. */
  ghost predicate LinkWalk(p: seq<Byte>, walk: seq<Announced>, a: Announced) {
    && 14 <= |p| && Tags(p, walk)
    && SnapStep(p, Announced(Field(p, 12), 14), walk[0]) && SnapStep(p, walk[|walk| - 1], a)
    && a.offset <= |p|
  }

  /** What a frame carries; protocols other than ARP and IP are not looked into. */
  ghost predicate GoodPayload(e: Endian, p: seq<Byte>, a: Announced, ignore: bool)
    requires a.offset <= |p| <= MAX_PACKET
  {
    && (a.etherType == 0x0806 ==> a.offset + 8 <= |p|)
    && (a.etherType == 0x0800 ==> GoodIp4(e, p, a.offset, |p|, ignore))
    && (a.etherType == 0x86DD ==> GoodIp6(e, p, a.offset, |p|, ignore))
  }

  ghost predicate GoodFrame(e: Endian, p: seq<Byte>, ignore: bool)
    requires |p| <= MAX_PACKET
  {
    exists walk, a :: LinkWalk(p, walk, a) && GoodPayload(e, p, a, ignore)
  }

  // ----- the walk and the decoder's -----

  function Of(l: Link): Announced {
    Announced(l.etherType, l.offset)
  }

  lemma SnapExactly(p: seq<Byte>, l: Link)
    requires |p| <= MAX_PACKET && LinkIn(l, |p|) && l.ok
    ensures
      var r := DecodeSnap(p, 0, |p|, l);
      && r.vlan == l.vlan && r.tags == l.tags
      && forall b :: SnapStep(p, Of(l), b) <==> r.ok && b == Of(r)
  {
    if l.etherType < 1536 && l.offset + 8 <= |p| {
      FieldIsNet16(p, l.offset);
      FieldIsNet16(p, l.offset + 6);
      hide Net16;
    }
  }

  /** After `n` more tags, the last of them at `at`. */
  ghost predicate TagsCounted(l: Link, walk: seq<Announced>, r: Link)
    requires walk != []
  {
    && r.tags == l.tags + |walk| - 1
    && r.vlan == if |walk| == 1 then l.vlan else Some(walk[|walk| - 2].offset)
  }

  lemma TagExactly(p: seq<Byte>, l: Link)
    requires |p| <= MAX_PACKET && LinkIn(l, |p|) && l.ok
    ensures AnnouncesTag(Of(l)) <==> IsVlanEthertype(l.etherType)
    ensures AnnouncesTag(Of(l)) && l.offset + 4 <= |p| ==>
      && l.tags < 0xffff
      && var n := NextTag(p, 0, l);
      && LinkIn(n, |p|) && n.ok && n.tags == l.tags + 1 && n.vlan == Some(l.offset)
      && DecodeVlans(p, 0, |p|, l) == DecodeVlans(p, 0, |p|, n)
      && forall b :: TagStep(p, Of(l), b) <==> b == Of(n)
    ensures AnnouncesTag(Of(l)) && l.offset + 4 > |p| ==> !DecodeVlans(p, 0, |p|, l).ok
    ensures !AnnouncesTag(Of(l)) ==> DecodeVlans(p, 0, |p|, l) == l
  {
    if l.offset + 4 <= |p| {
      FieldIsNet16(p, l.offset + 2);
      hide Net16, Field;
    }
  }

  lemma {:induction false} TagsFound(p: seq<Byte>, l: Link) returns (walk: seq<Announced>)
    requires |p| <= MAX_PACKET && LinkIn(l, |p|) && l.ok && DecodeVlans(p, 0, |p|, l).ok
    ensures Tags(p, walk) && walk[0] == Of(l)
    decreases |p| - l.offset
  {
    TagExactly(p, l);
    hide DecodeVlans, AnnouncesTag, TagStep;
    walk := [Of(l)];
    if AnnouncesTag(Of(l)) {
      var n := NextTag(p, 0, l);
      var rest := TagsFound(p, n);
      assert TagStep(p, walk[0], rest[0]);
      walk := walk + rest;
    }
  }

  lemma {:induction false} TagsDecode(p: seq<Byte>, l: Link, walk: seq<Announced>)
    requires |p| <= MAX_PACKET && LinkIn(l, |p|) && l.ok && Tags(p, walk) && walk[0] == Of(l)
    ensures
      var r := DecodeVlans(p, 0, |p|, l);
      r.ok && Of(r) == walk[|walk| - 1] && TagsCounted(l, walk, r)
    decreases |walk|
  {
    TagExactly(p, l);
    if |walk| > 1 {
      assert TagStep(p, walk[0], walk[1]);
      assert AnnouncesTag(Of(l)) && l.offset + 4 <= |p|;
      hide DecodeVlans, AnnouncesTag, TagStep;
      var n, rest := NextTag(p, 0, l), walk[1..];
      assert forall i :: 0 < i < |rest| ==> rest[i] == walk[i + 1] && rest[i - 1] == walk[i];
      TagsDecode(p, n, rest);
      assert |walk| > 2 ==> rest[|rest| - 2] == walk[|walk| - 2];
    } else {
      hide DecodeVlans, AnnouncesTag, TagStep;
    }
  }

  // ----- whole frames -----

  /** The decoder's link layer: where it stands after the tags, and at its end. */
  ghost predicate Walked(p: seq<Byte>, tagged: Link, l: Link) {
    && 14 <= |p| <= MAX_PACKET
    && var first := DecodeSnap(p, 0, |p|, Link(true, Net16(p, 12), 14, None, 0));
    && first.ok && tagged == DecodeVlans(p, 0, |p|, first) && tagged.ok && LinkIn(tagged, |p|)
    && l == DecodeSnap(p, 0, |p|, tagged) && l.ok
  }

  lemma WalkedExactly(p: seq<Byte>, walk: seq<Announced>, a: Announced)
    requires |p| <= MAX_PACKET && LinkWalk(p, walk, a)
    ensures
      var first := DecodeSnap(p, 0, |p|, Link(true, Net16(p, 12), 14, None, 0));
      var tagged := DecodeVlans(p, 0, |p|, first);
      var l := DecodeSnap(p, 0, |p|, tagged);
      Walked(p, tagged, l) && Of(l) == a && TagsCounted(Link(true, 0, 14, None, 0), walk, tagged)
  {
    FieldIsNet16(p, 12);
    hide DecodeVlans, SnapStep, Tags, DecodeSnap;
    var start := Link(true, Net16(p, 12), 14, None, 0);
    SnapExactly(p, start);
    var first := DecodeSnap(p, 0, |p|, start);
    assert walk != [] by { assert SnapStep(p, Of(start), walk[0]); }
    TagsDecode(p, first, walk);
    SnapExactly(p, DecodeVlans(p, 0, |p|, first));
  }

  lemma WalkFound(p: seq<Byte>, tagged: Link, l: Link) returns (walk: seq<Announced>)
    requires Walked(p, tagged, l)
    ensures LinkWalk(p, walk, Of(l))
  {
    FieldIsNet16(p, 12);
    hide DecodeVlans, SnapStep, Tags, DecodeSnap, TagsCounted;
    var start := Link(true, Net16(p, 12), 14, None, 0);
    SnapExactly(p, start);
    var first := DecodeSnap(p, 0, |p|, start);
    walk := TagsFound(p, first);
    TagsDecode(p, first, walk);
    SnapExactly(p, tagged);
    assert SnapStep(p, Of(start), walk[0]) && SnapStep(p, walk[|walk| - 1], Of(l));
  }

  lemma PayloadExactly(e: Endian, p: seq<Byte>, a: Announced, d: Decoded)
    requires a.offset <= |p| <= MAX_PACKET && a.etherType <= 0xffff && d.hdr.ip.None?
    ensures DecodeEthPayload(e, p, a.offset, |p| - a.offset, a.etherType, d).ok <==> GoodPayload(e, p, a, d.ignoreChecksums)
  {
    Ip4Exactly(e, p, a.offset, |p| - a.offset, d);
    Ip6Exactly(e, p, a.offset, |p| - a.offset, d);
    hide DecodeIp, DecodeIp6, GoodIp4, GoodIp6;
  }

  /** The record with which the payload is decoded. */
  ghost function Framed(ignore: bool, tagged: Link): Decoded {
    NoteTags(NoteEth(Enter2(0, Init(ignore)), 0), tagged)
  }

  lemma FrameIs(e: Endian, p: seq<Byte>, ignore: bool) returns (found: bool, tagged: Link, l: Link)
    requires |p| <= MAX_PACKET
    ensures found ==>
      && Walked(p, tagged, l)
      && DecodeEth(e, p, 0, |p|, Init(ignore))
         == DecodeEthPayload(e, p, l.offset, |p| - l.offset, l.etherType, Framed(ignore, tagged))
    ensures !found ==> !DecodeEth(e, p, 0, |p|, Init(ignore)).ok && forall t, r :: !Walked(p, t, r)
  {
    hide DecodeEthPayload, DecodeVlans, DecodeSnap, Net16, NoteTags, NoteEth, Enter2;
    found, tagged, l := false, Link(false, 0, 14, None, 0), Link(false, 0, 14, None, 0);
    if |p| >= 14 {
      var first := DecodeSnap(p, 0, |p|, Link(true, Net16(p, 12), 14, None, 0));
      if first.ok {
        tagged := DecodeVlans(p, 0, |p|, first);
        if tagged.ok {
          l := DecodeSnap(p, 0, |p|, tagged);
          found := l.ok;
        }
      }
    }
  }

  lemma WalkedUnique(p: seq<Byte>, tagged: Link, l: Link, tagged': Link, l': Link)
    requires Walked(p, tagged, l) && Walked(p, tagged', l')
    ensures tagged == tagged' && l == l'
  {
    hide DecodeVlans, DecodeSnap, Net16;
  }

  lemma FramedNoIp(ignore: bool, tagged: Link)
    ensures Framed(ignore, tagged).hdr.ip.None? && Framed(ignore, tagged).ignoreChecksums == ignore
  {
  }

  /** Every frame: accepted exactly when its link layer leads to a good payload. */
  lemma EthExactly(e: Endian, p: seq<Byte>, ignore: bool)
    requires |p| <= MAX_PACKET
    ensures DecodeEth(e, p, 0, |p|, Init(ignore)).ok <==> GoodFrame(e, p, ignore)
  {
    hide DecodeEth, DecodeEthPayload, GoodPayload, SnapStep, Tags, Framed, DecodeSnap, DecodeVlans, TagsCounted, Walked;
    var found, tagged, l := FrameIs(e, p, ignore);
    if found {
      FramedNoIp(ignore, tagged);
      WalkedInside(p, tagged, l);
      PayloadExactly(e, p, Of(l), Framed(ignore, tagged));
      var walk := WalkFound(p, tagged, l);
    }
    if walk, a :| LinkWalk(p, walk, a) && GoodPayload(e, p, a, ignore) {
      var tagged', l' := Rewalked(p, walk, a);
      WalkedUnique(p, tagged, l, tagged', l');
    }
  }

  lemma Rewalked(p: seq<Byte>, walk: seq<Announced>, a: Announced) returns (tagged: Link, l: Link)
    requires |p| <= MAX_PACKET && LinkWalk(p, walk, a)
    ensures Walked(p, tagged, l) && Of(l) == a
    ensures walk != [] && TagsCounted(Link(true, 0, 14, None, 0), walk, tagged)
  {
    WalkedExactly(p, walk, a);
    tagged := DecodeVlans(p, 0, |p|, DecodeSnap(p, 0, |p|, Link(true, Net16(p, 12), 14, None, 0)));
    l := DecodeSnap(p, 0, |p|, tagged);
  }

  // ----- the record of an accepted frame -----

  /** The link layer's part of the record. */
  ghost predicate SameLink(d: Decoded, d': Decoded) {
    && d'.off.l2 == d.off.l2 && d'.hdr.eth == d.hdr.eth && d'.hdr.vlan == d.hdr.vlan && d'.hdr.arp == d.hdr.arp
    && d'.vlanTags == d.vlanTags && d'.flags.l2 == d.flags.l2 && d'.flags.ethernet == d.flags.ethernet
    && d'.flags.vlan == d.flags.vlan && d'.flags.vlanQinq == d.flags.vlanQinq
  }

  lemma TcpLink(e: Endian, p: seq<Byte>, cur: nat, len: nat, dd: Decoded)
    requires Fits(p, cur, len) && HasNetworkHeader(p, dd)
    ensures SameLink(dd, DecodeTcp(e, p, cur, len, dd).dd)
  {
    hide TransportSum, DecodeTcpOpts, High;
  }

  lemma UdpLink(e: Endian, p: seq<Byte>, cur: nat, len: nat, dd: Decoded)
    requires Fits(p, cur, len) && HasNetworkHeader(p, dd)
    ensures SameLink(dd, DecodeUdp(e, p, cur, len, dd).dd)
  {
    hide TransportSum, Net16;
  }

  lemma IcmpLink(e: Endian, p: seq<Byte>, cur: nat, len: nat, dd: Decoded)
    requires Fits(p, cur, len)
    ensures SameLink(dd, DecodeIcmp(e, p, cur, len, dd).dd)
  {
    hide CksumVec;
  }

  lemma Icmp6Link(e: Endian, p: seq<Byte>, cur: nat, len: nat, dd: Decoded)
    requires Fits(p, cur, len) && dd.hdr.ip6.Some? && dd.hdr.ip6.value + 40 <= |p|
    ensures SameLink(dd, DecodeIcmp6(e, p, cur, len, dd).dd)
  {
    hide CksumVec, PseudoV6;
  }

  lemma {:induction false} ChainLink(e: Endian, p: seq<Byte>, cur: nat, len: nat, offset: nat, next: Byte, dd: Decoded)
    requires ChainStart(p, cur, len, offset, dd)
    ensures SameLink(dd, DecodeIp6Chain(e, p, cur, len, offset, next, dd).dd)
    decreases if offset < len then len - offset else 0
  {
    hide DecodeTcp, DecodeUdp, DecodeIcmp6;
    if offset < len {
      if next == FRAGMENT {
        if 8 <= len - offset { ChainLink(e, p, cur, len, offset + 8, p[cur + offset], dd); }
      } else if IsExtension(next) {
        if 2 <= len - offset {
          var units: int := p[cur + offset + 1];
          ChainLink(e, p, cur, len, offset + 8 * (units + 1), p[cur + offset], dd);
        }
      } else {
        TcpLink(e, p, cur + offset, len - offset, dd);
        UdpLink(e, p, cur + offset, len - offset, dd);
        Icmp6Link(e, p, cur + offset, len - offset, dd);
      }
    }
  }

  lemma Ip6Link(e: Endian, p: seq<Byte>, cur: nat, len: nat, dd: Decoded)
    requires Fits(p, cur, len) && dd.hdr.ip.None?
    ensures SameLink(dd, DecodeIp6(e, p, cur, len, dd).dd)
  {
    hide DecodeIp6Chain, Net16, High;
    if len >= 40 {
      var plen := Net16(p, cur + 4);
      var n := if len > 40 + plen then 40 + plen else len;
      ChainLink(e, p, cur, n, 40, p[cur + 6], NoteIp6(cur, Enter3(cur, dd)));
    }
  }

  lemma Ip4PayloadLink(e: Endian, p: seq<Byte>, cur: nat, len: nat, proto: Byte, d: Decoded)
    requires Fits(p, cur, len) && HasNetworkHeader(p, d)
    ensures SameLink(d, DecodeIpPayload(e, p, cur, len, proto, d).dd)
  {
    TcpLink(e, p, cur, len, d);
    UdpLink(e, p, cur, len, d);
    IcmpLink(e, p, cur, len, d);
    hide DecodeTcp, DecodeUdp, DecodeIcmp;
  }

  lemma EnterLink(cur: Word, dd: Decoded)
    ensures SameLink(dd, Enter3(cur, dd))
  {
  }

  lemma NotedLink(cur: Word, d: Decoded, bad: bool)
    ensures SameLink(d, NoteIp(cur, d, bad))
  {
  }

  lemma FailedLink(d: Decoded)
    ensures SameLink(d, d.(flags := d.flags.(checksumError := true)))
  {
  }

  lemma Ip4Link(e: Endian, p: seq<Byte>, cur: nat, len: nat, dd: Decoded)
    requires Fits(p, cur, len)
    ensures SameLink(dd, DecodeIp(e, p, cur, len, dd).dd)
  {
    hide DecodeIpPayload, Net16, High, Low, CksumVec, Enter3;
    var d := Enter3(cur, dd);
    EnterLink(cur, dd);
    FailedLink(d);
    hide SameLink, NoteIp;
    LinkTwice(dd, d, d.(flags := d.flags.(checksumError := true)));
    if len >= 20 {
      var hlen, total := Low(p[cur]) * 4, Net16(p, cur + 2);
      if 20 <= hlen <= total <= len {
        var bad := CksumVec(e, [p[cur..cur + hlen]]) != 0;
        var noted := NoteIp(cur, d, bad);
        assert HasNetworkHeader(p, noted) by { NotedHeader(p, cur, d, bad); }
        Ip4PayloadLink(e, p, cur + hlen, total - hlen, p[cur + 9], noted);
        NotedLink(cur, d, bad);
        LinkTwice(dd, d, noted);
        LinkTwice(dd, noted, DecodeIpPayload(e, p, cur + hlen, total - hlen, p[cur + 9], noted).dd);
      }
    }
  }

  lemma NotedHeader(p: seq<Byte>, cur: Word, d: Decoded, bad: bool)
    requires cur + 20 <= |p|
    ensures HasNetworkHeader(p, NoteIp(cur, d, bad))
  {
  }

  lemma LinkTwice(a: Decoded, b: Decoded, c: Decoded)
    requires SameLink(a, b) && SameLink(b, c)
    ensures SameLink(a, c)
  {
  }

  lemma PayloadLink(e: Endian, p: seq<Byte>, cur: nat, len: nat, etherType: Word, d: Decoded)
    requires Fits(p, cur, len) && d.hdr.ip.None?
    requires DecodeEthPayload(e, p, cur, len, etherType, d).ok
    ensures
      var d' := DecodeEthPayload(e, p, cur, len, etherType, d).dd;
      SameLink(d.(hdr := d.hdr.(arp := if etherType == 0x0806 then Some(cur) else d.hdr.arp)), d')
  {
    hide DecodeIp, DecodeIp6;
    Ip4Link(e, p, cur, len, d);
    Ip6Link(e, p, cur, len, d);
  }

  lemma FramedRecord(ignore: bool, tagged: Link)
    ensures
      var d := Framed(ignore, tagged);
      && d.off.l2 == 0 && d.hdr.eth == Some(0) && d.flags.l2 && d.flags.ethernet && d.hdr.arp == None
      && d.vlanTags == tagged.tags && d.hdr.vlan == tagged.vlan
      && d.flags.vlan == (tagged.tags > 0) && d.flags.vlanQinq == (tagged.tags > 1)
  {
  }

  /** What the record of an accepted frame says about its link layer: where it starts, how many tags
      it has, where the innermost one is, and an ARP message. */
  lemma FrameRecord(e: Endian, p: seq<Byte>, ignore: bool, walk: seq<Announced>, a: Announced)
    requires |p| <= MAX_PACKET && DecodeEth(e, p, 0, |p|, Init(ignore)).ok && LinkWalk(p, walk, a)
    ensures
      var d, tags := DecodeEth(e, p, 0, |p|, Init(ignore)).dd, |walk| - 1;
      && d.off.l2 == 0 && d.hdr.eth == Some(0) && d.flags.l2 && d.flags.ethernet
      && d.vlanTags == tags && d.flags.vlan == (tags > 0) && d.flags.vlanQinq == (tags > 1)
      && d.hdr.vlan == (if tags == 0 then None else Some(walk[tags - 1].offset))
      && d.hdr.arp == (if a.etherType == 0x0806 then Some(a.offset) else None)
  {
    var tagged', l' := Rewalked(p, walk, a);
    hide DecodeEth, DecodeEthPayload, LinkWalk, Framed, DecodeSnap, DecodeVlans, Walked;
    var found, tagged, l := FrameIs(e, p, ignore);
    WalkedUnique(p, tagged, l, tagged', l');
    FramedNoIp(ignore, tagged);
    FramedRecord(ignore, tagged);
    WalkedInside(p, tagged, l);
    PayloadLink(e, p, l.offset, |p| - l.offset, l.etherType, Framed(ignore, tagged));
  }

  lemma WalkedInside(p: seq<Byte>, tagged: Link, l: Link)
    requires Walked(p, tagged, l)
    ensures l.offset <= |p| <= MAX_PACKET
  {
    hide DecodeVlans, Net16;
  }
}
