/** What the packet decoder computes, layer by layer, as functions of the packet bytes.

    A cursor is an offset into the packet. Every function takes the bytes that are left at the
    cursor (`len`) and the record so far, and returns whether the layer decoded and the new
    record. Offsets are the 16-bit fields of the original; `MAX_PACKET` is the length up to
    which none of them can wrap. */
module DecoderSpec {
  import opened Prelude
  import opened Checksum

  const INVALID: Word := 0xffff
  const MAX_PACKET: nat := 63488

  const ETYPE_MIN: Word := 1536
  const ETYPE_ARP: Word := 0x0806
  const ETYPE_IP: Word := 0x0800
  const ETYPE_IPV6: Word := 0x86DD

  const ICMP: Byte := 1
  const TCP: Byte := 6
  const UDP: Byte := 17
  const FRAGMENT: Byte := 44
  const ICMPV6: Byte := 58

  /** The TCP options seen: maximum segment size, window scale, timestamp. */
  datatype TcpOpts = TcpOpts(mss: bool, ws: bool, ts: bool)

  datatype Flags = Flags(
    l2: bool, l3: bool, l3Checksum: bool, l4: bool, l4Checksum: bool, checksumError: bool,
    vlan: bool, vlanQinq: bool, ethernet: bool, ipv4: bool, ipv6: bool,
    udp: bool, tcp: bool, icmp: bool, tcpOpts: TcpOpts)

  const NoFlags := Flags(false, false, false, false, false, false, false, false, false, false,
                         false, false, false, false, TcpOpts(false, false, false))

  datatype Offsets = Offsets(l2: Word, l3: Word, l4: Word, payload: Word, checksum: Word)

  /** The header pointers, as packet offsets. */
  datatype Headers = Headers(
    eth: Option<nat>, vlan: Option<nat>, arp: Option<nat>, ip: Option<nat>, ip6: Option<nat>,
    icmp: Option<nat>, icmp6: Option<nat>, tcp: Option<nat>, udp: Option<nat>)

  /** The decode record. */
  datatype Decoded = Decoded(
    flags: Flags, off: Offsets, hdr: Headers,
    vlanTags: Word, ignoreChecksums: bool, tcpDataSegment: bool)

  datatype Outcome = Outcome(ok: bool, dd: Decoded)

  function Init(ignoreChecksums: bool): Decoded {
    Decoded(NoFlags, Offsets(INVALID, INVALID, INVALID, INVALID, INVALID),
            Headers(None, None, None, None, None, None, None, None, None), 0, ignoreChecksums, false)
  }

  /** A 16-bit field in network byte order. */
  function Net16(p: seq<Byte>, at: nat): Word
    requires at + 2 <= |p|
  {
    WordOf(Big, p[at], p[at + 1])
  }

  /** The upper and lower half of a byte. */
  function High(b: Byte): (r: nat)
    ensures r < 16
  {
    b / 16
  }

  function Low(b: Byte): (r: nat)
    ensures r < 16
  {
    b % 16
  }

  ghost predicate Fits(p: seq<Byte>, cur: nat, len: nat) {
    cur + len <= |p| <= MAX_PACKET
  }

  function Advance(cur: Word, dd: Decoded): Decoded {
    dd.(off := dd.off.(payload := cur,
                       checksum := if dd.flags.checksumError then dd.off.checksum else cur))
  }

  // ----- transport checksums -----

  /** The IPv4 pseudo-header: addresses, zero, protocol, length. */
  function PseudoV4(p: seq<Byte>, ip: nat, len: Word, proto: Byte): seq<Byte>
    requires ip + 20 <= |p|
  {
    p[ip + 12..ip + 20] + [0, proto, len / 0x100, len % 0x100]
  }

  /** The IPv6 pseudo-header: addresses, 32-bit length, three zeros, next header. */
  function PseudoV6(p: seq<Byte>, ip6: nat, len: Word, proto: Byte): seq<Byte>
    requires ip6 + 40 <= |p|
  {
    p[ip6 + 8..ip6 + 40] + [0, 0, len / 0x100, len % 0x100, 0, 0, 0, proto]
  }

  ghost predicate HasNetworkHeader(p: seq<Byte>, dd: Decoded) {
    && (dd.hdr.ip.Some? ==> dd.hdr.ip.value + 20 <= |p|)
    && (dd.hdr.ip.None? ==> dd.hdr.ip6.Some? && dd.hdr.ip6.value + 40 <= |p|)
  }

  function Pseudo(p: seq<Byte>, dd: Decoded, len: Word, proto: Byte): seq<Byte>
    requires HasNetworkHeader(p, dd)
  {
    if dd.hdr.ip.Some? then PseudoV4(p, dd.hdr.ip.value, len, proto) else PseudoV6(p, dd.hdr.ip6.value, len, proto)
  }

  function TransportSum(e: Endian, p: seq<Byte>, cur: nat, len: nat, dd: Decoded, proto: Byte): Word
    requires Fits(p, cur, len) && HasNetworkHeader(p, dd)
  {
    CksumVec(e, [Pseudo(p, dd, len, proto), p[cur..cur + len]])
  }

  /** Records the outcome of a transport checksum: the error bit, or the validated bit. */
  function MarkL4(dd: Decoded, bad: bool): Decoded {
    dd.(flags := dd.flags.(checksumError := dd.flags.checksumError || bad, l4Checksum := dd.flags.l4Checksum || !bad))
  }

  // ----- transport layers -----

  // The record after an accepted transport header at `cur`.

  function NoteIcmp(cur: nat, d: Decoded): Decoded {
    d.(hdr := d.hdr.(icmp := Some(cur)), flags := d.flags.(l4 := true, icmp := true))
  }

  function NoteIcmp6(cur: nat, d: Decoded): Decoded {
    d.(hdr := d.hdr.(icmp6 := Some(cur)), flags := d.flags.(l4 := true, icmp := true))
  }

  function NoteUdp(cur: nat, d: Decoded): Decoded {
    d.(hdr := d.hdr.(udp := Some(cur)), flags := d.flags.(l4 := true, udp := true))
  }

  function NoteTcp(cur: nat, d: Decoded, data: bool): Decoded {
    d.(hdr := d.hdr.(tcp := Some(cur)), flags := d.flags.(l4 := true, tcp := true), tcpDataSegment := data)
  }

  function NoteSeen(d: Decoded, seen: TcpOpts): Decoded {
    d.(flags := d.flags.(tcpOpts := seen))
  }

  function Enter4(cur: Word, dd: Decoded): Decoded {
    var d := Advance(cur, dd);
    d.(off := d.off.(l4 := cur))
  }

  function DecodeIcmp(e: Endian, p: seq<Byte>, cur: nat, len: nat, dd: Decoded): Outcome
    requires Fits(p, cur, len)
  {
    var d := Enter4(cur, dd);
    if len < 8 then Outcome(false, d) else
    var bad := CksumVec(e, [p[cur..cur + len]]) != 0;
    var d := MarkL4(d, bad);
    if bad && !dd.ignoreChecksums then Outcome(false, d) else
    Outcome(true, Advance(cur + 8, NoteIcmp(cur, d)))
  }

  function DecodeIcmp6(e: Endian, p: seq<Byte>, cur: nat, len: nat, dd: Decoded): Outcome
    requires Fits(p, cur, len) && dd.hdr.ip6.Some? && dd.hdr.ip6.value + 40 <= |p|
  {
    var d := Enter4(cur, dd);
    if len < 8 then Outcome(false, d) else
    var bad := CksumVec(e, [PseudoV6(p, dd.hdr.ip6.value, len, ICMPV6), p[cur..cur + len]]) != 0;
    var d := MarkL4(d, bad);
    if bad && !dd.ignoreChecksums then Outcome(false, d) else
    Outcome(true, Advance(cur + 8, NoteIcmp6(cur, d)))
  }

  function DecodeUdp(e: Endian, p: seq<Byte>, cur: nat, len: nat, dd: Decoded): Outcome
    requires Fits(p, cur, len) && HasNetworkHeader(p, dd)
  {
    var d := Enter4(cur, dd);
    if len < 8 then Outcome(false, d) else
    var ulen := Net16(p, cur + 4);
    if ulen < 8 || ulen != len then Outcome(false, d) else
    var bad := TransportSum(e, p, cur, len, d, UDP) != 0;
    var d := MarkL4(d, bad);
    if bad && !dd.ignoreChecksums then Outcome(false, d) else
    Outcome(true, Advance(cur + 8, NoteUdp(cur, d)))
  }

  /** The length a recognised option must have; options not listed are not validated. */
  function RequiredOptionLength(opt: Byte): Option<Byte> {
    match opt
    case 2 => Some(4)
    case 3 => Some(3)
    case 4 => Some(2)
    case 8 => Some(10)
    case _ => None
  }

  predicate OptionLengthOk(opt: Byte, optlen: Byte) {
    var r := RequiredOptionLength(opt);
    r.None? || r.value == optlen
  }

  function MarkOption(opt: Byte, seen: TcpOpts): TcpOpts {
    TcpOpts(seen.mss || opt == 2, seen.ws || opt == 3, seen.ts || opt == 8)
  }

  datatype Options = Options(ok: bool, seen: TcpOpts)

  /** The TCP option walk (section 3.1 of RFC 9293): one-byte EOL and NOP, otherwise kind, length, data. */
  function DecodeTcpOpts(p: seq<Byte>, cur: nat, len: nat, seen: TcpOpts): Options
    requires cur + len <= |p|
    decreases len
  {
    if len == 0 then Options(true, seen) else
    var opt := p[cur];
    if opt == 0 then Options(true, seen) else
    if opt == 1 then DecodeTcpOpts(p, cur + 1, len - 1, seen) else
    if len < 2 then Options(false, seen) else
    var optlen := p[cur + 1];
    if optlen < 2 || len < optlen then Options(false, seen) else
    if !OptionLengthOk(opt, optlen) then Options(false, seen) else
    DecodeTcpOpts(p, cur + optlen, len - optlen, MarkOption(opt, seen))
  }

  lemma OptionsEnd(p: seq<Byte>, cur: nat, seen: TcpOpts)
    requires cur <= |p|
    ensures DecodeTcpOpts(p, cur, 0, seen) == Options(true, seen)
  {
  }

  lemma OptionStep(p: seq<Byte>, cur: nat, len: nat, seen: TcpOpts)
    requires 0 < len && cur + len <= |p|
    ensures
      DecodeTcpOpts(p, cur, len, seen)
      == if p[cur] == 0 then Options(true, seen)
         else if p[cur] == 1 then DecodeTcpOpts(p, cur + 1, len - 1, seen)
         else if len < 2 || p[cur + 1] < 2 || len < p[cur + 1] then Options(false, seen)
         else if !OptionLengthOk(p[cur], p[cur + 1]) then Options(false, seen)
         else DecodeTcpOpts(p, cur + p[cur + 1], len - p[cur + 1], MarkOption(p[cur], seen))
  {
    hide OptionLengthOk, MarkOption;
  }

  function DecodeTcp(e: Endian, p: seq<Byte>, cur: nat, len: nat, dd: Decoded): Outcome
    requires Fits(p, cur, len) && HasNetworkHeader(p, dd)
  {
    var d := Enter4(cur, dd);
    if len < 20 then Outcome(false, d) else
    var hlen := High(p[cur + 12]) * 4;
    if hlen < 20 || hlen > len then Outcome(false, d) else
    var bad := TransportSum(e, p, cur, len, d, TCP) != 0;
    var d := MarkL4(d, bad);
    if bad && !dd.ignoreChecksums then Outcome(false, d) else
    var opts := DecodeTcpOpts(p, cur + 20, hlen - 20, d.flags.tcpOpts);
    var d := NoteSeen(d, opts.seen);
    if !opts.ok then Outcome(false, d) else
    Outcome(true, Advance(cur + hlen, NoteTcp(cur, d, len > hlen)))
  }

  // ----- network layers -----

  function Enter3(cur: Word, dd: Decoded): Decoded {
    var d := Advance(cur, dd);
    d.(off := d.off.(l3 := cur))
  }

  predicate IsExtension(next: Byte) {
    next == 0 || next == 43 || next == 60 || next == 135
  }

  /** The extension-header walk (section 4 of RFC 8200). An extension header may announce more
      bytes than there are; the walk then ends past `len`. */
  function DecodeIp6Chain(e: Endian, p: seq<Byte>, cur: nat, len: nat, offset: nat, next: Byte, dd: Decoded): Outcome
    requires Fits(p, cur, len) && cur + offset < INVALID
    requires dd.hdr.ip6.Some? && dd.hdr.ip6.value + 40 <= |p| && dd.hdr.ip.None?
    decreases if offset < len then len - offset else 0
  {
    if offset >= len then Outcome(true, Advance(cur + offset, dd)) else
    if next == FRAGMENT then
      if 8 > len - offset then Outcome(false, dd)
      else DecodeIp6Chain(e, p, cur, len, offset + 8, p[cur + offset], dd)
    else if IsExtension(next) then
      if 2 > len - offset then Outcome(false, dd)
      else
        var units: int := p[cur + offset + 1];
        DecodeIp6Chain(e, p, cur, len, offset + 8 * (units + 1), p[cur + offset], dd)
    else if next == TCP then DecodeTcp(e, p, cur + offset, len - offset, dd)
    else if next == UDP then DecodeUdp(e, p, cur + offset, len - offset, dd)
    else if next == ICMPV6 then DecodeIcmp6(e, p, cur + offset, len - offset, dd)
    else Outcome(false, dd)
  }

  function NoteIp6(cur: nat, d: Decoded): Decoded {
    d.(hdr := d.hdr.(ip6 := Some(cur)), flags := d.flags.(l3 := true, ipv6 := true))
  }

  function DecodeIp6(e: Endian, p: seq<Byte>, cur: nat, len: nat, dd: Decoded): Outcome
    requires Fits(p, cur, len) && dd.hdr.ip.None?
  {
    var d := Enter3(cur, dd);
    if len < 40 then Outcome(false, d) else
    if High(p[cur]) != 6 then Outcome(false, d) else
    var plen := Net16(p, cur + 4);
    var n := if len > 40 + plen then 40 + plen else len;
    DecodeIp6Chain(e, p, cur, n, 40, p[cur + 6], NoteIp6(cur, d))
  }

  /** The record after an accepted IPv4 header. */
  function NoteIp(cur: Word, d: Decoded, bad: bool): Decoded {
    d.(hdr := d.hdr.(ip := Some(cur)),
       flags := d.flags.(checksumError := d.flags.checksumError || bad,
                         l3Checksum := d.flags.l3Checksum || !bad, l3 := true, ipv4 := true))
  }

  function DecodeIpPayload(e: Endian, p: seq<Byte>, cur: nat, len: nat, proto: Byte, d: Decoded): Outcome
    requires Fits(p, cur, len) && HasNetworkHeader(p, d)
  {
    if proto == TCP then DecodeTcp(e, p, cur, len, d)
    else if proto == UDP then DecodeUdp(e, p, cur, len, d)
    else if proto == ICMP then DecodeIcmp(e, p, cur, len, d)
    else Outcome(true, Advance(cur, d))
  }

  function DecodeIp(e: Endian, p: seq<Byte>, cur: nat, len: nat, dd: Decoded): Outcome
    requires Fits(p, cur, len)
  {
    var d := Enter3(cur, dd);
    if len < 20 then Outcome(false, d) else
    if High(p[cur]) != 4 then Outcome(false, d) else
    var hlen := Low(p[cur]) * 4;
    if hlen < 20 then Outcome(false, d) else
    var dlen := Net16(p, cur + 2);
    if dlen > len || dlen < hlen then Outcome(false, d) else
    var bad := CksumVec(e, [p[cur..cur + hlen]]) != 0;
    if bad && !dd.ignoreChecksums then Outcome(false, d.(flags := d.flags.(checksumError := true))) else
    DecodeIpPayload(e, p, cur + hlen, dlen - hlen, p[cur + 9], NoteIp(cur, d, bad))
  }

  // ----- link layer -----

  function Enter2(cur: Word, dd: Decoded): Decoded {
    var d := Advance(cur, dd);
    d.(off := d.off.(l2 := cur))
  }

  function DecodeArp(p: seq<Byte>, cur: nat, len: nat, dd: Decoded): Outcome
    requires Fits(p, cur, len)
  {
    var d := Advance(cur, dd);
    if len < 8 then Outcome(false, d) else Outcome(true, d.(hdr := d.hdr.(arp := Some(cur))))
  }

  predicate IsVlanEthertype(t: Word) {
    t == 0x8100 || t == 0x88A8 || t == 0x9100 || t == 0x9200 || t == 0x9300
  }

  /** Where the link-layer walk stands: the ethertype that announces the bytes at `offset`, the
      innermost VLAN tag and the number of tags. */
  datatype Link = Link(ok: bool, etherType: Word, offset: nat, vlan: Option<nat>, tags: Word)

  ghost predicate LinkIn(l: Link, len: nat) {
    14 + 4 * l.tags <= l.offset <= len
  }

  /** A value below 1536 is an 802.3 length, and then a SNAP header carries the ethertype. */
  function DecodeSnap(p: seq<Byte>, cur: nat, len: nat, l: Link): (r: Link)
    requires Fits(p, cur, len) && LinkIn(l, len)
    ensures LinkIn(r, len)
  {
    if l.etherType >= ETYPE_MIN then l else
    if len < l.offset + 8 then l.(ok := false) else
    if Net16(p, cur + l.offset) != 0xaaaa then l.(ok := false) else
    l.(etherType := Net16(p, cur + l.offset + 6), offset := l.offset + 8)
  }

  function NextTag(p: seq<Byte>, cur: nat, l: Link): Link
    requires cur + l.offset + 4 <= |p| && l.tags < 0xffff
  {
    l.(etherType := Net16(p, cur + l.offset + 2), offset := l.offset + 4,
       vlan := Some(cur + l.offset), tags := l.tags + 1)
  }

  function DecodeVlans(p: seq<Byte>, cur: nat, len: nat, l: Link): (r: Link)
    requires Fits(p, cur, len) && LinkIn(l, len)
    ensures LinkIn(r, len)
    decreases len - l.offset
  {
    if !IsVlanEthertype(l.etherType) then l else
    if l.offset + 4 > len then l.(ok := false) else
    DecodeVlans(p, cur, len, NextTag(p, cur, l))
  }

  /** No VLAN tag has been recorded. */
  ghost predicate Untagged(dd: Decoded) {
    dd.vlanTags == 0 && dd.hdr.vlan == None && !dd.flags.vlan && !dd.flags.vlanQinq
  }

  function NoteEth(dd: Decoded, cur: nat): (r: Decoded)
    ensures Untagged(dd) ==> Untagged(r)
    ensures r.hdr.ip == dd.hdr.ip
  {
    dd.(hdr := dd.hdr.(eth := Some(cur)), flags := dd.flags.(l2 := true, ethernet := true))
  }

  /** One more VLAN tag, at packet offset `at`. */
  function NoteTag(dd: Decoded, at: nat): Decoded
    requires dd.vlanTags < 0xffff
  {
    dd.(hdr := dd.hdr.(vlan := Some(at)), vlanTags := dd.vlanTags + 1,
        flags := dd.flags.(vlan := true, vlanQinq := dd.flags.vlanQinq || dd.vlanTags + 1 > 1))
  }

  /** The record after the VLAN walk. */
  function NoteTags(dd: Decoded, l: Link): (r: Decoded)
    ensures r.hdr.ip == dd.hdr.ip
  {
    dd.(hdr := dd.hdr.(vlan := l.vlan), vlanTags := l.tags,
        flags := dd.flags.(vlan := l.tags > 0, vlanQinq := l.tags > 1))
  }

  function DecodeEthPayload(e: Endian, p: seq<Byte>, cur: nat, len: nat, etherType: Word, d: Decoded): Outcome
    requires Fits(p, cur, len) && d.hdr.ip.None?
  {
    if etherType == ETYPE_ARP then DecodeArp(p, cur, len, d)
    else if etherType == ETYPE_IP then DecodeIp(e, p, cur, len, d)
    else if etherType == ETYPE_IPV6 then DecodeIp6(e, p, cur, len, d)
    else Outcome(true, Advance(cur, d))
  }

  /** The ethernet header, an optional SNAP header, VLAN tags, another optional SNAP header; then
      the protocol the last ethertype names. */
  function DecodeEth(e: Endian, p: seq<Byte>, cur: nat, len: nat, dd: Decoded): Outcome
    requires Fits(p, cur, len) && Untagged(dd) && dd.hdr.ip.None?
  {
    var d := Enter2(cur, dd);
    if len < 14 then Outcome(false, d) else
    var l := DecodeSnap(p, cur, len, Link(true, Net16(p, cur + 12), 14, None, 0));
    if !l.ok then Outcome(false, d) else
    var l := DecodeVlans(p, cur, len, l);
    var d := NoteTags(NoteEth(d, cur), l);
    if !l.ok then Outcome(false, d) else
    var l := DecodeSnap(p, cur, len, l);
    if !l.ok then Outcome(false, d) else
    DecodeEthPayload(e, p, cur + l.offset, len - l.offset, l.etherType, d)
  }

  function DecodeRaw(e: Endian, p: seq<Byte>, cur: nat, len: nat, dd: Decoded): Outcome
    requires Fits(p, cur, len) && dd.hdr.ip.None?
  {
    if len < 1 then Outcome(false, dd) else
    if High(p[cur]) == 4 then DecodeIp(e, p, cur, len, dd)
    else if High(p[cur]) == 6 then DecodeIp6(e, p, cur, len, dd)
    else Outcome(false, dd)
  }
}
