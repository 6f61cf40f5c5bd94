/** Forging the reply to an ICMP echo request, and the round trip through the decoder. */
module IcmpReply {
  import opened Prelude
  import opened Checksum
  import opened DecoderSpec
  import opened DecoderProps
  import opened DecoderMeaning

  /** A decoded IPv4 ICMP packet: raw, or in an ethernet frame with VLAN tags but no SNAP header,
      whose IPv4 header has no options. */
  ghost predicate Request(e: Endian, p: seq<Byte>, dd: Decoded) {
    && |p| <= MAX_PACKET
    && (dd.hdr.eth.Some? ==>
          && Outcome(true, dd) == DecodeEth(e, p, 0, |p|, Init(dd.ignoreChecksums))
          && dd.off.l3 == 14 + 4 * dd.vlanTags)
    && (dd.hdr.eth.None? ==> Outcome(true, dd) == DecodeRaw(e, p, 0, |p|, Init(dd.ignoreChecksums)))
    && dd.hdr.ip.Some? && dd.hdr.icmp.Some?
    && dd.off.l3 < |p| && Low(p[dd.off.l3]) == 5
  }

  /** The bounds the forging relies on: `i` is the IPv4 header, `total` its total length. */
  ghost predicate Shape(p: seq<Byte>, framed: bool, i: nat) {
    && (if framed then 14 <= i else i == 0)
    && i + 28 <= |p| <= MAX_PACKET
    && 28 <= Net16(p, i + 2) && i + Net16(p, i + 2) <= |p|
    && High(p[i]) == 4 && Low(p[i]) == 5 && p[i + 9] == ICMP
  }

  // ----- the reply, as three byte strings -----

  function LinkBytes(p: seq<Byte>, framed: bool, i: nat): (r: seq<Byte>)
    requires i <= |p| && (if framed then 14 <= i else i == 0)
    ensures |r| == i
  {
    if framed then p[6..12] + p[0..6] + p[12..i] else []
  }

  /** `s` with its own checksum stored at `at`. */
  function Stamped(e: Endian, s: seq<Byte>, at: nat): (r: seq<Byte>)
    requires at + 1 < |s|
    ensures |r| == |s|
  {
    var c := CksumVec(e, [s]);
    s[at := FirstByte(e, c)][at + 1 := SecondByte(e, c)]
  }

  /** The request's header with source and destination exchanged and no checksum. */
  function BareIpHeader(p: seq<Byte>, i: nat): (r: seq<Byte>)
    requires i + 20 <= |p|
    ensures |r| == 20
  {
    p[i..i + 10] + [0, 0] + p[i + 16..i + 20] + p[i + 12..i + 16]
  }

  /** Type 0, code 0, no checksum; identifier, sequence number and data of the request. */
  function BareIcmp(p: seq<Byte>, i: nat, total: nat): (r: seq<Byte>)
    requires 28 <= total && i + total <= |p|
    ensures |r| == total - 20
  {
    [0, 0, 0, 0] + p[i + 24..i + total]
  }

  function Reply(e: Endian, p: seq<Byte>, framed: bool, i: nat): seq<Byte>
    requires Shape(p, framed, i)
  {
    LinkBytes(p, framed, i) + Stamped(e, BareIpHeader(p, i), 10) + Stamped(e, BareIcmp(p, i, Net16(p, i + 2)), 2)
  }

  // ----- the forging -----

  /** The buffer `s` with `src` written at `at`. */
  function Put(s: seq<Byte>, at: nat, src: seq<Byte>): (r: seq<Byte>)
    requires at + |src| <= |s|
    ensures |r| == |s|
  {
    s[..at] + src + s[at + |src|..]
  }

  lemma PutNext(s: seq<Byte>, at: nat, a: seq<Byte>, b: seq<Byte>)
    requires at + |a| + |b| <= |s|
    ensures Put(Put(s, at, a), at + |a|, b) == Put(s, at, a + b)
  {
  }

  lemma PutInside(s: seq<Byte>, at: nat, a: seq<Byte>, k: nat, b0: Byte, b1: Byte)
    requires at + |a| <= |s| && k + 1 < |a|
    ensures Put(Put(s, at, a), at + k, [b0, b1]) == Put(s, at, a[k := b0][k + 1 := b1])
  {
  }

  lemma PutRead(s: seq<Byte>, at: nat, a: seq<Byte>)
    requires at + |a| <= |s|
    ensures Put(s, at, a)[at..at + |a|] == a
    ensures at == 0 && |a| == |s| ==> Put(s, at, a) == a
    ensures a == [] ==> Put(s, at, a) == s
  {
  }

  method CopyBytes(dst: array<Byte>, at: nat, src: seq<Byte>)
    requires at + |src| <= dst.Length
    modifies dst
    ensures dst[..] == Put(old(dst[..]), at, src)
  {
    ghost var was := dst[..];
    assert Put(was, at, src[..0]) == was;
    for k := 0 to |src|
      invariant dst[..] == Put(was, at, src[..k])
    {
      PutByte(was, at, src, k);
      hide Put;
      dst[at + k] := src[k];
    }
    assert src[..|src|] == src;
  }

  lemma PutByte(s: seq<Byte>, at: nat, src: seq<Byte>, k: nat)
    requires at + |src| <= |s| && k < |src|
    ensures |Put(s, at, src[..k])| == |s| && Put(s, at, src[..k + 1]) == Put(s, at, src[..k])[at + k := src[k]]
  {
    assert src[..k + 1] == src[..k] + [src[k]];
  }

  /** Stores the checksum of the last `|bare|` bytes written at `at` into their field `k`. */
  method Stamp(e: Endian, reply: array<Byte>, at: nat, k: nat, ghost before: seq<Byte>, ghost bare: seq<Byte>, len: nat)
    requires len == |bare| && |before| == reply.Length && at + len <= reply.Length && k + 1 < len
    requires reply[..] == Put(before, at, bare)
    modifies reply
    ensures reply[..] == Put(before, at, Stamped(e, bare, k))
  {
    hide CksumVec, FirstByte, SecondByte, Put;
    PutRead(before, at, bare);
    assert reply[..][at..at + len] == reply[at..at + len];
    var c := InCksumVec(e, [reply[at..at + len]]);
    CopyBytes(reply, at + k, [FirstByte(e, c), SecondByte(e, c)]);
    PutInside(before, at, bare, k, FirstByte(e, c), SecondByte(e, c));
  }

  method ForgeIcmpReply(e: Endian, request: seq<Byte>, dd: Decoded) returns (reply: array<Byte>)
    requires Request(e, request, dd)
    ensures dd.off.l3 as nat + 28 <= |request| && Shape(request, dd.hdr.eth.Some?, dd.off.l3)
    ensures reply[..] == Reply(e, request, dd.hdr.eth.Some?, dd.off.l3)
  {
    RequestShape(e, request, dd);
    hide Net16, High, Low, DecodeEth, DecodeRaw, Request, Put, Stamped, LinkBytes, BareIpHeader, BareIcmp, Reply;
    var i := dd.hdr.ip.value;
    var total := Net16(request, i + 2);
    var ipOffset := 0;
    if dd.hdr.eth.Some? {
      ipOffset := 14 + dd.vlanTags * 4;
    }
    reply := new Byte[ipOffset + total](_ => 0);
    ghost var zeros := reply[..];
    ForgeLink(request, dd.hdr.eth.Some?, ipOffset, reply);
    ForgeIp(e, request, i, reply, ipOffset);
    ForgeIcmp(e, request, i, total, reply, ipOffset + 20);
    ReplyParts(e, request, dd.hdr.eth.Some?, i, zeros);
  }

  lemma ReplyParts(e: Endian, p: seq<Byte>, framed: bool, i: nat, s: seq<Byte>)
    requires Shape(p, framed, i) && |s| == i + Net16(p, i + 2)
    ensures Put(Put(Put(s, 0, LinkBytes(p, framed, i)), i, Stamped(e, BareIpHeader(p, i), 10)), i + 20,
                Stamped(e, BareIcmp(p, i, Net16(p, i + 2)), 2)) == Reply(e, p, framed, i)
  {
    hide LinkBytes, Stamped, BareIpHeader, BareIcmp, Net16, High, Low;
    var a, b, c := LinkBytes(p, framed, i), Stamped(e, BareIpHeader(p, i), 10), Stamped(e, BareIcmp(p, i, Net16(p, i + 2)), 2);
    ThreeParts(s, a, b, c);
  }

  lemma ThreeParts(s: seq<Byte>, a: seq<Byte>, b: seq<Byte>, c: seq<Byte>)
    requires |a| + |b| + |c| == |s|
    ensures Put(Put(Put(s, 0, a), |a|, b), |a| + |b|, c) == a + b + c
  {
  }

  method ForgeLink(request: seq<Byte>, framed: bool, ipOffset: nat, reply: array<Byte>)
    requires ipOffset <= |request| && (if framed then 14 <= ipOffset else ipOffset == 0) && ipOffset <= reply.Length
    modifies reply
    ensures reply[..] == Put(old(reply[..]), 0, LinkBytes(request, framed, ipOffset))
  {
    hide Put;
    ghost var s := reply[..];
    if framed {
      CopyBytes(reply, 0, request[6..12]);
      CopyBytes(reply, 6, request[0..6]);
      PutNext(s, 0, request[6..12], request[0..6]);
      CopyBytes(reply, 12, request[12..ipOffset]);
      PutNext(s, 0, request[6..12] + request[0..6], request[12..ipOffset]);
    } else {
      PutRead(s, 0, []);
    }
  }

  method ForgeIp(e: Endian, request: seq<Byte>, i: nat, reply: array<Byte>, at: nat)
    requires i + 20 <= |request| && at + 20 <= reply.Length
    modifies reply
    ensures reply[..] == Put(old(reply[..]), at, Stamped(e, BareIpHeader(request, i), 10))
  {
    hide Put, Stamped;
    ghost var s := reply[..];
    ghost var a, b, c := request[i..i + 10], request[i + 16..i + 20], request[i + 12..i + 16];
    CopyBytes(reply, at, request[i..i + 10]);
    CopyBytes(reply, at + 10, [0, 0]);
    PutNext(s, at, a, [0, 0]);
    CopyBytes(reply, at + 12, request[i + 16..i + 20]);
    PutNext(s, at, a + [0, 0], b);
    CopyBytes(reply, at + 16, request[i + 12..i + 16]);
    PutNext(s, at, a + [0, 0] + b, c);
    Stamp(e, reply, at, 10, s, BareIpHeader(request, i), 20);
  }

  method ForgeIcmp(e: Endian, request: seq<Byte>, i: nat, total: nat, reply: array<Byte>, at: nat)
    requires 28 <= total && i + total <= |request| && at + total - 20 == reply.Length
    modifies reply
    ensures reply[..] == Put(old(reply[..]), at, Stamped(e, BareIcmp(request, i, total), 2))
  {
    hide Put, Stamped;
    ghost var s := reply[..];
    ghost var zero: seq<Byte>, echo, data := [0, 0, 0, 0], request[i + 24..i + 28], request[i + 28..i + total];
    CopyBytes(reply, at, [0, 0, 0, 0]);
    CopyBytes(reply, at + 4, request[i + 24..i + 28]);
    PutNext(s, at, zero, echo);
    CopyBytes(reply, at + 8, request[i + 28..i + total]);
    PutNext(s, at, zero + echo, data);
    assert zero + echo + data == BareIcmp(request, i, total);
    Stamp(e, reply, at, 2, s, BareIcmp(request, i, total), total - 20);
  }

  // ----- what the request's decode says -----

  /** The record handed to the network layer of a frame without SNAP headers. */
  function Framed(p: seq<Byte>, ignoreChecksums: bool, l: Link): Decoded {
    NoteTags(NoteEth(Enter2(0, Init(ignoreChecksums)), 0), l)
  }

  /** The VLAN walk of a frame whose first ethertype is not an 802.3 length. */
  function Tags(p: seq<Byte>): Link
    requires 14 <= |p| <= MAX_PACKET
  {
    DecodeVlans(p, 0, |p|, Link(true, Net16(p, 12), 14, None, 0))
  }

  lemma {:induction false} TagsAreFourBytes(p: seq<Byte>, len: nat, l: Link)
    requires Fits(p, 0, len) && LinkIn(l, len)
    ensures
      var r := DecodeVlans(p, 0, len, l);
      r.offset - 4 * r.tags == l.offset - 4 * l.tags && r.offset >= l.offset && (l.ok && r.ok ==> !IsVlanEthertype(r.etherType))
    decreases len - l.offset
  {
    if IsVlanEthertype(l.etherType) && l.offset + 4 <= len {
      TagsAreFourBytes(p, len, NextTag(p, 0, l));
    }
  }

  /** In a frame, only the IPv4 branch records an IPv4 header. */
  lemma OnlyIpv4NotesIp(e: Endian, p: seq<Byte>, cur: nat, len: nat, etherType: Word, d: Decoded)
    requires Fits(p, cur, len) && AtL3(cur, d)
    requires var o := DecodeEthPayload(e, p, cur, len, etherType, d); o.ok && o.dd.hdr.ip.Some?
    ensures etherType == ETYPE_IP
  {
    if etherType == ETYPE_IPV6 {
      Ip6NotesNoIp(e, p, cur, len, d);
    }
  }

  lemma Ip6NotesNoIp(e: Endian, p: seq<Byte>, cur: nat, len: nat, d: Decoded)
    requires Fits(p, cur, len) && AtL3(cur, d) && DecodeIp6(e, p, cur, len, d).ok
    ensures DecodeIp6(e, p, cur, len, d).dd.hdr.ip.None?
  {
    hide DecodeIp6Chain, Net16, High;
    var plen := Net16(p, cur + 4);
    var n := if len > 40 + plen then 40 + plen else len;
    var _ := Ip6ChainMeaning(e, p, cur, n, 40, p[cur + 6], NoteIp6(cur, Enter3(cur, d)));
  }

  lemma FramedRequest(e: Endian, p: seq<Byte>, dd: Decoded)
    requires Request(e, p, dd) && dd.hdr.eth.Some?
    ensures 14 <= |p| && Net16(p, 12) >= ETYPE_MIN
    ensures
      var l := Tags(p);
      && l.ok && l.etherType == ETYPE_IP && l.offset == dd.off.l3 && l.tags == dd.vlanTags
      && AtL3(l.offset, Framed(p, dd.ignoreChecksums, l))
      && Outcome(true, dd) == DecodeIp(e, p, l.offset, |p| - l.offset, Framed(p, dd.ignoreChecksums, l))
  {
    hide DecodeEthPayload, DecodeIp, Net16, NoteTags, NoteEth, Enter2, AtL3, DecodeVlans, Low, IsVlanEthertype;
    var first := DecodeSnap(p, 0, |p|, Link(true, Net16(p, 12), 14, None, 0));
    var tagged := DecodeVlans(p, 0, |p|, first);
    var last := DecodeSnap(p, 0, |p|, tagged);
    var d := Framed(p, dd.ignoreChecksums, tagged);
    LinkNotedAtL3(tagged, last.offset, dd.ignoreChecksums);
    AtL3HasNoL4(last.offset, d);
    assert Outcome(true, dd) == DecodeEthPayload(e, p, last.offset, |p| - last.offset, last.etherType, d);
    OnlyIpv4NotesIp(e, p, last.offset, |p| - last.offset, last.etherType, d);
    TagsAreFourBytes(p, |p|, first);
    EthPayloadSound(e, p, last.offset, |p| - last.offset, last.etherType, d);
    FramedTags(p, dd.ignoreChecksums, tagged);
    PayloadIsIp(e, p, last.offset, |p| - last.offset, d);
    IpNotesL3(e, p, last.offset, |p| - last.offset, d);
  }

  lemma IpNotesL3(e: Endian, p: seq<Byte>, cur: nat, len: nat, d: Decoded)
    requires Fits(p, cur, len) && AtL3(cur, d) && DecodeIp(e, p, cur, len, d).ok
    ensures DecodeIp(e, p, cur, len, d).dd.off.l3 == cur
  {
    hide DecodeIp, Transport, Reference, PseudoV4, Net16, High, Low;
    Ip4Meaning(e, p, cur, len, d);
  }

  lemma FramedTags(p: seq<Byte>, ignoreChecksums: bool, l: Link)
    ensures Framed(p, ignoreChecksums, l).vlanTags == l.tags && Framed(p, ignoreChecksums, l).hdr.icmp == None
  {
  }

  lemma PayloadIsIp(e: Endian, p: seq<Byte>, cur: nat, len: nat, d: Decoded)
    requires Fits(p, cur, len) && d.hdr.ip.None?
    ensures DecodeEthPayload(e, p, cur, len, ETYPE_IP, d) == DecodeIp(e, p, cur, len, d)
  {
  }

  lemma RawRequest(e: Endian, p: seq<Byte>, dd: Decoded)
    requires Request(e, p, dd) && dd.hdr.eth.None?
    ensures 1 <= |p| && AtL3(0, Init(dd.ignoreChecksums))
    ensures Outcome(true, dd) == DecodeIp(e, p, 0, |p|, Init(dd.ignoreChecksums)) && dd.off.l3 == 0
  {
    hide DecodeIp, DecodeIp6, High, Low;
    if High(p[0]) == 6 {
      Ip6NotesNoIp(e, p, 0, |p|, Init(dd.ignoreChecksums));
    } else {
      Ip4Meaning(e, p, 0, |p|, Init(dd.ignoreChecksums));
    }
  }

  lemma RequestShape(e: Endian, p: seq<Byte>, dd: Decoded)
    requires Request(e, p, dd)
    ensures dd.off.l3 as nat + 28 <= |p| && Shape(p, dd.hdr.eth.Some?, dd.off.l3)
    ensures dd.hdr.ip == Some(dd.off.l3) && dd.hdr.icmp == Some(dd.off.l3 + 20)
    ensures dd.hdr.eth.Some? ==> dd.off.l3 == 14 + 4 * dd.vlanTags
  {
    hide DecodeIp, DecodeEth, DecodeRaw, Net16, High, Low, AtL3, Framed, Tags, Transport;
    if dd.hdr.eth.Some? {
      FramedRequest(e, p, dd);
      var l := Tags(p);
      var d := Framed(p, dd.ignoreChecksums, l);
      FramedTags(p, dd.ignoreChecksums, l);
      Ip4Meaning(e, p, l.offset, |p| - l.offset, d);
      IcmpIsAt(e, p, l.offset, dd);
    } else {
      RawRequest(e, p, dd);
      Ip4Meaning(e, p, 0, |p|, Init(dd.ignoreChecksums));
      IcmpIsAt(e, p, 0, dd);
    }
  }

  lemma IcmpIsAt(e: Endian, p: seq<Byte>, i: nat, d: Decoded)
    requires i + 20 <= |p| && i + Net16(p, i + 2) <= |p|
    requires Transport(e, p, i + 20, i + Net16(p, i + 2), ICMP, [], d)
    ensures d.hdr.icmp == Some(i + 20) && 28 <= Net16(p, i + 2)
  {
  }

  // ----- the reply decodes -----

  lemma SliceParts(a: seq<Byte>, b: seq<Byte>, c: seq<Byte>)
    ensures (a + b + c)[|a|..|a| + |b|] == b
    ensures (a + b + c)[|a| + |b|..|a| + |b| + |c|] == c
    ensures forall k :: 0 <= k < |a| ==> (a + b + c)[k] == a[k]
    ensures forall k :: 0 <= k < |b| ==> (a + b + c)[|a| + k] == b[k]
    ensures forall k :: 0 <= k < |c| ==> (a + b + c)[|a| + |b| + k] == c[k]
  {
  }

  lemma IpPiece(e: Endian, p: seq<Byte>, i: nat)
    requires i + 20 <= |p|
    ensures
      var b := Stamped(e, BareIpHeader(p, i), 10);
      && b[..10] == p[i..i + 10]
      && b[12..16] == p[i + 16..i + 20] && b[16..20] == p[i + 12..i + 16]
      && CksumVec(e, [b]) == 0
  {
    hide CksumVec, FirstByte, SecondByte;
    StoredChecksumVerifies(e, BareIpHeader(p, i), 10);
  }

  lemma IcmpPiece(e: Endian, p: seq<Byte>, i: nat, total: nat)
    requires 28 <= total <= 0xffff && i + total <= |p|
    ensures
      var c := Stamped(e, BareIcmp(p, i, total), 2);
      && c[0] == c[1] == 0 && c[4..] == p[i + 24..i + total]
      && CksumVec(e, [c]) == 0
  {
    hide CksumVec, FirstByte, SecondByte;
    StoredChecksumVerifies(e, BareIcmp(p, i, total), 2);
  }

  /** The bytes of the reply, relative to the request: swapped addresses, a valid echo-reply
      header, the same identifier, sequence number and data. */
  ghost predicate Answers(e: Endian, p: seq<Byte>, framed: bool, i: nat, r: seq<Byte>)
    requires Shape(p, framed, i)
  {
    var total := Net16(p, i + 2);
    && |r| == i + total
    && (framed ==> r[0..6] == p[6..12] && r[6..12] == p[0..6] && r[12..i] == p[12..i])
    && r[i..i + 10] == p[i..i + 10]
    && r[i + 12..i + 16] == p[i + 16..i + 20] && r[i + 16..i + 20] == p[i + 12..i + 16]
    && r[i + 20] == 0 && r[i + 21] == 0
    && r[i + 24..i + total] == p[i + 24..i + total]
  }

  lemma ReplyAnswers(e: Endian, p: seq<Byte>, framed: bool, i: nat)
    requires Shape(p, framed, i)
    ensures Answers(e, p, framed, i, Reply(e, p, framed, i))
    ensures var r := Reply(e, p, framed, i);
      CksumVec(e, [r[i..i + 20]]) == 0 && CksumVec(e, [r[i + 20..i + Net16(p, i + 2)]]) == 0
  {
    hide CksumVec, Net16, High, Low, Stamped, BareIpHeader, BareIcmp, LinkBytes, Reply;
    var total := Net16(p, i + 2);
    var r := Reply(e, p, framed, i);
    PartsOfReply(e, p, framed, i);
    IpPiece(e, p, i);
    IpPart(r, i, Stamped(e, BareIpHeader(p, i), 10));
    IcmpPiece(e, p, i, total);
    IcmpPart(r, i + 20, Stamped(e, BareIcmp(p, i, total), 2));
    LinkPiece(p, framed, i, r);
  }

  lemma PartsOfReply(e: Endian, p: seq<Byte>, framed: bool, i: nat)
    requires Shape(p, framed, i)
    ensures
      var r, total := Reply(e, p, framed, i), Net16(p, i + 2);
      && |LinkBytes(p, framed, i)| == i && |r| == i + total
      && r[i..i + 20] == Stamped(e, BareIpHeader(p, i), 10)
      && r[i + 20..i + total] == Stamped(e, BareIcmp(p, i, total), 2)
      && forall k :: 0 <= k < i ==> r[k] == LinkBytes(p, framed, i)[k]
  {
    hide CksumVec, Net16, High, Low, Stamped, BareIpHeader, BareIcmp;
    var total := Net16(p, i + 2);
    SliceParts(LinkBytes(p, framed, i), Stamped(e, BareIpHeader(p, i), 10), Stamped(e, BareIcmp(p, i, total), 2));
  }

  lemma IpPart(r: seq<Byte>, i: nat, b: seq<Byte>)
    requires |b| == 20 && i + 20 <= |r| && r[i..i + 20] == b
    ensures r[i..i + 10] == b[..10] && r[i + 12..i + 16] == b[12..16] && r[i + 16..i + 20] == b[16..20]
  {
    SubSlice(r, i, 20, 0, 10);
    SubSlice(r, i, 20, 12, 16);
    SubSlice(r, i, 20, 16, 20);
  }

  lemma IcmpPart(r: seq<Byte>, at: nat, c: seq<Byte>)
    requires |c| >= 8 && at + |c| == |r| && r[at..|r|] == c
    ensures r[at] == c[0] && r[at + 1] == c[1] && r[at + 4..|r|] == c[4..]
  {
    SubSlice(r, at, |c|, 4, |c|);
  }

  lemma LinkPiece(p: seq<Byte>, framed: bool, i: nat, r: seq<Byte>)
    requires i <= |p| && i <= |r| && (if framed then 14 <= i else i == 0)
    requires forall k :: 0 <= k < i ==> r[k] == LinkBytes(p, framed, i)[k]
    ensures framed ==> r[0..6] == p[6..12] && r[6..12] == p[0..6] && r[12..i] == p[12..i]
  {
  }

  lemma SubSlice(r: seq<Byte>, i: nat, n: nat, lo: nat, hi: nat)
    requires i + n <= |r| && lo <= hi <= n
    ensures r[i..i + n][lo..hi] == r[i + lo..i + hi]
  {
    var x, y := r[i..i + n][lo..hi], r[i + lo..i + hi];
    assert forall k :: 0 <= k < hi - lo ==> x[k] == r[i + lo + k] && y[k] == r[i + lo + k];
  }

  /** A complete IPv4 echo packet with valid checksums decodes, checksums enforced. */
  lemma EchoDecodes(e: Endian, r: seq<Byte>, i: nat, d: Decoded)
    requires i + 28 <= |r| <= MAX_PACKET && AtL3(i, d)
    requires High(r[i]) == 4 && Low(r[i]) == 5 && r[i + 9] == ICMP && Net16(r, i + 2) == |r| - i
    requires CksumVec(e, [r[i..i + 20]]) == 0 && CksumVec(e, [r[i + 20..|r|]]) == 0
    ensures
      var o := DecodeIp(e, r, i, |r| - i, d);
      && o.ok && o.dd.flags.l3Checksum && o.dd.flags.l4Checksum && !o.dd.flags.checksumError
      && o.dd.hdr.ip == Some(i) && o.dd.hdr.icmp == Some(i + 20) && o.dd.off.payload == i + 28
      && o.dd.hdr.eth == d.hdr.eth && o.dd.vlanTags == d.vlanTags
  {
    hide CksumVec, Net16, High, Low;
    var d3 := NoteIp(i, Enter3(i, d), false);
    var d4 := NoteIcmp(i + 20, MarkL4(Enter4(i + 20, d3), false));
    assert DecodeIcmp(e, r, i + 20, |r| - i - 20, d3) == Outcome(true, Advance(i + 28, d4));
    assert DecodeIp(e, r, i, |r| - i, d) == DecodeIcmp(e, r, i + 20, |r| - i - 20, d3);
    assert Advance(i + 28, d4).flags == d4.flags;
  }

  /** The VLAN walk depends only on the bytes it passes over. */
  lemma {:induction false} SameTags(p: seq<Byte>, r: seq<Byte>, l: Link)
    requires |p| <= MAX_PACKET && |r| <= MAX_PACKET && LinkIn(l, |p|) && l.ok
    requires
      var t := DecodeVlans(p, 0, |p|, l);
      t.ok && t.offset <= |r| && forall k :: l.offset <= k < t.offset ==> r[k] == p[k]
    ensures LinkIn(l, |r|) && DecodeVlans(r, 0, |r|, l) == DecodeVlans(p, 0, |p|, l)
    decreases |p| - l.offset
  {
    TagsAreFourBytes(p, |p|, l);
    if IsVlanEthertype(l.etherType) {
      TagsAreFourBytes(p, |p|, NextTag(p, 0, l));
      assert NextTag(r, 0, l) == NextTag(p, 0, l);
      SameTags(p, r, NextTag(p, 0, l));
    }
  }

  lemma FramedReplyDecodes(e: Endian, p: seq<Byte>, dd: Decoded, r: seq<Byte>)
    requires Request(e, p, dd) && dd.hdr.eth.Some?
    requires Shape(p, true, dd.off.l3) && Answers(e, p, true, dd.off.l3, r)
    ensures
      var l := Tags(p);
      && AtL3(l.offset, Framed(p, false, l)) && l.offset == dd.off.l3
      && l.tags == dd.vlanTags && DecodeEth(e, r, 0, |r|, Init(false)) == DecodeIp(e, r, l.offset, |r| - l.offset, Framed(p, false, l))
  {
    hide AtL3, NoteTags, NoteEth, Enter2, DecodeIp, DecodeEthPayload, Net16, High, Low, DecodeVlans, Request;
    FramedRequest(e, p, dd);
    var l := Tags(p);
    LinkNotedAtL3(l, l.offset, false);
    AtL3HasNoL4(l.offset, Framed(p, false, l));
    assert forall k :: 12 <= k < l.offset ==> r[k] == p[k] by {
      assert forall k :: 12 <= k < l.offset ==> r[12..l.offset][k - 12] == r[k] && p[12..l.offset][k - 12] == p[k];
    }
    SameNet16(p, r, 12);
    SameTags(p, r, Link(true, Net16(p, 12), 14, None, 0));
    PayloadIsIp(e, r, l.offset, |r| - l.offset, Framed(p, false, l));
  }

  lemma SameNet16(p: seq<Byte>, r: seq<Byte>, at: nat)
    requires at + 2 <= |p| && at + 2 <= |r| && r[at] == p[at] && r[at + 1] == p[at + 1]
    ensures Net16(r, at) == Net16(p, at)
  {
  }

  /** The round trip: the forged reply decodes with checksums enforced, both of them valid, as an
      ICMP packet at the same place, and its bytes answer the request. */
  lemma ReplyDecodes(e: Endian, p: seq<Byte>, dd: Decoded)
    requires Request(e, p, dd)
    ensures dd.off.l3 as nat + 28 <= |p| && Shape(p, dd.hdr.eth.Some?, dd.off.l3)
    ensures Answers(e, p, dd.hdr.eth.Some?, dd.off.l3, Reply(e, p, dd.hdr.eth.Some?, dd.off.l3))
    ensures
      var r := Reply(e, p, dd.hdr.eth.Some?, dd.off.l3);
      && |r| <= MAX_PACKET
      && var o := if dd.hdr.eth.Some? then DecodeEth(e, r, 0, |r|, Init(false)) else DecodeRaw(e, r, 0, |r|, Init(false));
      && o.ok && o.dd.flags.l3Checksum && o.dd.flags.l4Checksum && !o.dd.flags.checksumError
      && o.dd.hdr.ip == dd.hdr.ip && o.dd.hdr.icmp == dd.hdr.icmp && o.dd.vlanTags == dd.vlanTags
  {
    hide AtL3, DecodeIp, DecodeIp6, DecodeEth, Net16, High, Low, CksumVec, Reply, Framed, Tags, Request;
    RequestShape(e, p, dd);
    var framed, i := dd.hdr.eth.Some?, dd.off.l3;
    var r := Reply(e, p, framed, i);
    ReplyAnswers(e, p, framed, i);
    assert r[i] == r[i..i + 10][0] && r[i + 2] == r[i..i + 10][2] && r[i + 3] == r[i..i + 10][3] && r[i + 9] == r[i..i + 10][9];
    SameNet16(p, r, i + 2);
    if framed {
      FramedReplyDecodes(e, p, dd, r);
      FramedTags(p, false, Tags(p));
      EchoDecodes(e, r, i, Framed(p, false, Tags(p)));
    } else {
      RawRequest(e, p, dd);
      InitAtL3(false);
      InitTags(e, p, dd);
      EchoDecodes(e, r, i, Init(false));
    }
  }

  lemma InitAtL3(ignoreChecksums: bool)
    ensures AtL3(0, Init(ignoreChecksums))
  {
  }

  lemma InitTags(e: Endian, p: seq<Byte>, dd: Decoded)
    requires |p| <= MAX_PACKET && Outcome(true, dd) == DecodeIp(e, p, 0, |p|, Init(dd.ignoreChecksums))
    ensures dd.vlanTags == 0
  {
    hide DecodeIp;
    IpSound(e, p, 0, |p|, Init(dd.ignoreChecksums));
  }
}
