/**
 Frame emission and decoding in network.cpp. The emitters fill byte buffers from packed header
 structs; `ParseFrame`, `ParseTcp` and `ParseUdp` are the decoding done by `handle_frame`,
 `handle_tcp` and `handle_udp`. What is emitted is proved to decode to what was asked for, and its
 checksums to pass a receiver's test.
 */
module NetFrames {
  import opened Bytes
  import opened Checksum

  const FRAME_MAX := 2048
  const ETH_LEN := 14
  const IP_LEN := 20
  const TCP_LEN := 20
  const UDP_LEN := 8
  const ICMP_LEN := 8
  const IP_ICMP: byte := 1
  const IP_TCP: byte := 6
  const IP_UDP: byte := 17
  const ETHERTYPE_IP: u16 := 0x0800
  const ETHERTYPE_ARP: u16 := 0x0806

  type Mac = s: seq<byte> | |s| == 6 witness [0, 0, 0, 0, 0, 0]

  // ── Packed wire structs, and the bytes they occupy ────────────────────────

  datatype EthHdr = EthHdr(dst: Mac, src: Mac, etype: u16) {
    function Bytes(): (s: seq<byte>)
      ensures |s| == ETH_LEN
    {
      dst + src + Be16(etype)
    }
  }

  /** Fields as `emit_ip` sets them; the checksum is stored in host order, the rest in network order. */
  datatype Ip4Hdr = Ip4Hdr(totLen: u16, proto: byte, cksum: u16, src: u32, dst: u32) {
    function Front(): (s: seq<byte>)
      ensures |s| == 10
    {
      [0x45, 0] + Be16(totLen) + Be16(0) + Be16(0) + [64, proto]
    }

    function Bytes(): (s: seq<byte>)
      ensures |s| == IP_LEN
    {
      Front() + Le16(cksum) + (Be32(src) + Be32(dst))
    }
  }

  datatype TcpHdr = TcpHdr(sport: u16, dport: u16, seqNo: u32, ackNo: u32, flags: byte, cksum: u16) {
    function Front(): (s: seq<byte>)
      ensures |s| == 16
    {
      Be16(sport) + Be16(dport) + Be32(seqNo) + Be32(ackNo) + [0x50, flags] + Be16(65535)
    }

    function Bytes(): (s: seq<byte>)
      ensures |s| == TCP_LEN
    {
      Front() + Le16(cksum) + Be16(0)
    }
  }

  datatype UdpHdr = UdpHdr(sport: u16, dport: u16, len: u16, cksum: u16) {
    function Front(): (s: seq<byte>)
      ensures |s| == 6
    {
      Be16(sport) + Be16(dport) + Be16(len)
    }

    function Bytes(): (s: seq<byte>)
      ensures |s| == UDP_LEN
    {
      Front() + Le16(cksum)
    }
  }

  // ── Decoding ──────────────────────────────────────────────────────────────

  datatype IpPacket = IpPacket(ethSrc: Mac, proto: byte, src: u32, dst: u32, payload: seq<byte>)

  /** `Overrun`: the IP length announces more bytes than the frame has, and the source reads on past it. */
  datatype Parsed = Dropped | Arp(ethSrc: Mac, arp: seq<byte>) | Ip(packet: IpPacket) | Overrun

  function ParseFrame(frame: seq<byte>): Parsed
  {
    if |frame| < ETH_LEN then Dropped
    else
      var etype, payload, ethSrc := ReadBe16(frame, 12), frame[ETH_LEN..], frame[6..12];
      if etype == ETHERTYPE_ARP then Arp(ethSrc, payload)
      else if etype != ETHERTYPE_IP || |payload| < IP_LEN then Dropped
      else
        var ihl, iplen := payload[0] % 0x10 * 4, ReadBe16(payload, 2);
        if |payload| < ihl || iplen < ihl then Dropped
        else if |payload| < iplen then Overrun
        else Ip(IpPacket(ethSrc, payload[9], ReadBe32(payload, 12), ReadBe32(payload, 16), payload[ihl..iplen]))
  }

  datatype TcpSegment =
    TcpSegment(sport: u16, dport: u16, seqNo: u32, ackNo: u32, flags: byte, data: seq<byte>)

  function ParseTcp(payload: seq<byte>): Option<TcpSegment>
  {
    if |payload| < TCP_LEN then None
    else
      var hlen := payload[12] / 0x10 * 4;
      Some(TcpSegment(ReadBe16(payload, 0), ReadBe16(payload, 2), ReadBe32(payload, 4), ReadBe32(payload, 8),
                      payload[13], if |payload| > hlen then payload[hlen..] else []))
  }

  datatype UdpDatagram = UdpDatagram(sport: u16, dport: u16, data: seq<byte>)

  function ParseUdp(payload: seq<byte>): Option<UdpDatagram>
  {
    if |payload| < UDP_LEN then None
    else Some(UdpDatagram(ReadBe16(payload, 0), ReadBe16(payload, 2), payload[UDP_LEN..]))
  }

  // ── Decoding undoes the layout of the structs ─────────────────────────────

  lemma ParseFrameInverse(eth: EthHdr, ip: Ip4Hdr, payload: seq<byte>)
    requires eth.etype == ETHERTYPE_IP && ip.totLen == IP_LEN + |payload|
    ensures ParseFrame(eth.Bytes() + ip.Bytes() + payload)
         == Ip(IpPacket(eth.src, ip.proto, ip.src, ip.dst, payload))
  {
    hide Be16, Be32, Le16, ReadBe16, ReadBe32;
    var frame := eth.Bytes() + ip.Bytes() + payload;
    assert frame[6..12] == eth.src && frame[12..14] == Be16(eth.etype);
    ReadBe16At(frame, 12, eth.etype);
    var p := frame[ETH_LEN..];
    assert p == ip.Bytes() + payload;
    assert p[0] == 0x45 && p[9] == ip.proto;
    assert p[2..4] == Be16(ip.totLen) && p[12..16] == Be32(ip.src) && p[16..20] == Be32(ip.dst);
    ReadBe16At(p, 2, ip.totLen);
    ReadBe32At(p, 12, ip.src);
    ReadBe32At(p, 16, ip.dst);
    assert p[20..ip.totLen] == payload;
  }

  lemma ParseTcpInverse(h: TcpHdr, data: seq<byte>)
    ensures ParseTcp(h.Bytes() + data) == Some(TcpSegment(h.sport, h.dport, h.seqNo, h.ackNo, h.flags, data))
  {
    hide Be16, Be32, Le16, ReadBe16, ReadBe32;
    var s := h.Bytes() + data;
    assert s[0..2] == Be16(h.sport) && s[2..4] == Be16(h.dport);
    assert s[4..8] == Be32(h.seqNo) && s[8..12] == Be32(h.ackNo);
    assert s[12] == 0x50 && s[13] == h.flags;
    ReadBe16At(s, 0, h.sport);
    ReadBe16At(s, 2, h.dport);
    ReadBe32At(s, 4, h.seqNo);
    ReadBe32At(s, 8, h.ackNo);
    assert s[20..] == data;
  }

  lemma ParseUdpInverse(h: UdpHdr, data: seq<byte>)
    ensures ParseUdp(h.Bytes() + data) == Some(UdpDatagram(h.sport, h.dport, data))
  {
    hide Be16, Le16, ReadBe16;
    var s := h.Bytes() + data;
    assert s[0..2] == Be16(h.sport) && s[2..4] == Be16(h.dport);
    ReadBe16At(s, 0, h.sport);
    ReadBe16At(s, 2, h.dport);
    assert s[8..] == data;
  }

  // ── Decoding, field by field ──────────────────────────────────────────────

  /**
     An IPv4 frame with any options and with padding behind it: the fields are at their offsets, the
     payload is what the header's length and the total length leave of it.
   */
  lemma ParseFrameReads(frame: seq<byte>, opts: seq<byte>, payload: seq<byte>, padding: seq<byte>)
    requires |frame| >= 34 && frame[12] == 0x08 && frame[13] == 0x00
    requires frame[34..] == opts + payload + padding && |opts| % 4 == 0 && frame[14] % 0x10 == 5 + |opts| / 4
    requires ReadBe16(frame, 16) == 20 + |opts| + |payload|
    ensures ParseFrame(frame) == Ip(IpPacket(frame[6..12], frame[23], ReadBe32(frame, 26), ReadBe32(frame, 30), payload))
  {
    var p := frame[14..];
    assert p[20..] == opts + payload + padding;
    var ihl := 20 + |opts|;
    assert p[ihl..ihl + |payload|] == (opts + payload + padding)[|opts|..|opts| + |payload|] == payload;
    assert ReadBe16(p, 2) == ReadBe16(frame, 16) && ReadBe32(p, 12) == ReadBe32(frame, 26) && ReadBe32(p, 16) == ReadBe32(frame, 30);
  }

  /** ARP is told apart by its type, and everything else, or cut short, is dropped. */
  lemma ParseFrameOther(frame: seq<byte>)
    ensures |frame| >= 14 && frame[12] == 0x08 && frame[13] == 0x06 ==> ParseFrame(frame) == Arp(frame[6..12], frame[14..])
    ensures |frame| < 14 || (frame[12] != 0x08 || (frame[13] != 0x00 && frame[13] != 0x06)) ==> ParseFrame(frame) == Dropped
    ensures 14 <= |frame| < 34 && frame[12] == 0x08 && frame[13] == 0x00 ==> ParseFrame(frame) == Dropped
  {
  }

  /** A TCP segment with any options: data starts where the header's length says. */
  lemma ParseTcpReads(payload: seq<byte>, opts: seq<byte>, data: seq<byte>)
    requires |payload| >= 20 && payload[20..] == opts + data && |opts| % 4 == 0 && payload[12] / 0x10 == 5 + |opts| / 4
    ensures ParseTcp(payload)
         == Some(TcpSegment(ReadBe16(payload, 0), ReadBe16(payload, 2), ReadBe32(payload, 4), ReadBe32(payload, 8), payload[13], data))
  {
    var hlen := 20 + |opts|;
    assert payload[hlen..] == payload[20..][|opts|..] == data;
  }

  // ── Emission ──────────────────────────────────────────────────────────────

  /** The bytes of an IPv4 frame: Ethernet and IPv4 headers, with a header checksum that verifies, and the payload. */
  ghost predicate FrameBytes(frame: seq<byte>, dstMac: Mac, srcMac: Mac, sip: u32, dip: u32, proto: byte)
  {
    && |frame| >= 34 && frame[0..6] == dstMac && frame[6..12] == srcMac
    && frame[12] == 0x08 && frame[13] == 0x00 && frame[14] == 0x45 && frame[15] == 0 && ReadBe16(frame, 16) == |frame| - 14
    && frame[18] == frame[19] == frame[20] == frame[21] == 0 && frame[22] == 64 && frame[23] == proto
    && ReadBe32(frame, 26) == sip && ReadBe32(frame, 30) == dip && Verifies(frame[14..34])
  }

  /** What the transport checksum covers: source, destination, a zero, the protocol, the length, and the segment. */
  ghost predicate SegmentVerifies(frame: seq<byte>)
    requires 34 <= |frame| < 0x1_0000
  {
    Verifies(frame[26..34] + [0, frame[23]] + Be16(|frame| - 34) + frame[34..])
  }

  /** And those of a TCP segment in it. */
  ghost predicate TcpBytes(seg: seq<byte>, sp: u16, dp: u16, seqNo: u32, ackNo: u32, flags: byte, data: seq<byte>)
  {
    && |seg| >= 20 && ReadBe16(seg, 0) == sp && ReadBe16(seg, 2) == dp
    && ReadBe32(seg, 4) == seqNo && ReadBe32(seg, 8) == ackNo && seg[12..16] == [0x50, flags, 0xff, 0xff]
    && seg[18..20] == [0, 0] && seg[20..] == data
  }

  ghost predicate UdpBytes(seg: seq<byte>, sp: u16, dp: u16, data: seq<byte>)
  {
    && |seg| >= 8 && ReadBe16(seg, 0) == sp && ReadBe16(seg, 2) == dp && ReadBe16(seg, 4) == |seg|
    && seg[6..8] != [0, 0] && seg[8..] == data
  }

  lemma IpFrameBytes(frame: seq<byte>, dstMac: Mac, srcMac: Mac, sip: u32, dip: u32, proto: byte, payload: seq<byte>)
    requires IpFrame(frame, dstMac, srcMac, sip, dip, proto, payload)
    ensures |frame| == 34 + |payload| && FrameBytes(frame, dstMac, srcMac, sip, dip, proto) && frame[34..] == payload
    ensures frame[26..34] == Be32(sip) + Be32(dip)
  {
    hide Verifies, Be32, Le16, ReadBe16, ReadBe32;
    var ck := ReadLe16(frame, 24);
    var len := 20 + |payload|;
    assert frame == dstMac + srcMac + [0x08, 0x00] + ([0x45, 0] + Be16(len) + [0, 0] + [0, 0] + [64, proto] + Le16(ck) + (Be32(sip) + Be32(dip))) + payload
      by { assert Be16(0x0800) == [0x08, 0x00] && Be16(0) == [0, 0]; }
    hide Be16, IpFrame, ReadLe16;
    FrameSlices(frame, dstMac, srcMac, Be16(len), proto, Le16(ck), Be32(sip), Be32(dip), payload);
    ReadBe16At(frame, 16, len);
    ReadBe32At(frame, 26, sip);
    ReadBe32At(frame, 30, dip);
  }

  lemma FrameSlices(frame: seq<byte>, dst: seq<byte>, src: seq<byte>, len: seq<byte>, proto: byte, ck: seq<byte>,
      sip: seq<byte>, dip: seq<byte>, payload: seq<byte>)
    requires |dst| == |src| == 6 && |len| == |ck| == 2 && |sip| == |dip| == 4
    requires frame == dst + src + [0x08, 0x00] + ([0x45, 0] + len + [0, 0] + [0, 0] + [64, proto] + ck + (sip + dip)) + payload
    ensures |frame| == 34 + |payload| && frame[0..6] == dst && frame[6..12] == src && frame[16..18] == len
    ensures frame[12] == 0x08 && frame[13] == 0x00 && frame[14] == 0x45 && frame[15] == 0
    ensures frame[18] == frame[19] == frame[20] == frame[21] == 0 && frame[22] == 64 && frame[23] == proto
    ensures frame[26..30] == sip && frame[30..34] == dip && frame[26..34] == sip + dip && frame[34..] == payload
  {
    var h := [0x45, 0] + len + [0, 0] + [0, 0] + [64, proto] + ck + (sip + dip);
    HeaderSlices(h, len, proto, ck, sip, dip);
    assert frame[14..34] == h && |h| == 20;
    assert forall i :: 0 <= i < 20 ==> frame[14 + i] == h[i];
    assert frame[16..18] == h[2..4] && frame[26..30] == h[12..16] && frame[30..34] == h[16..20];
    assert frame[26..34] == frame[26..30] + frame[30..34];
  }

  lemma HeaderSlices(h: seq<byte>, len: seq<byte>, proto: byte, ck: seq<byte>, sip: seq<byte>, dip: seq<byte>)
    requires |len| == |ck| == 2 && |sip| == |dip| == 4
    requires h == [0x45, 0] + len + [0, 0] + [0, 0] + [64, proto] + ck + (sip + dip)
    ensures |h| == 20 && h[0] == 0x45 && h[1] == 0 && h[2..4] == len
    ensures h[4] == h[5] == h[6] == h[7] == 0 && h[8] == 64 && h[9] == proto
    ensures h[12..16] == sip && h[16..20] == dip
  {
  }

  lemma TcpBytesIs(h: TcpHdr, data: seq<byte>)
    ensures TcpBytes(h.Bytes() + data, h.sport, h.dport, h.seqNo, h.ackNo, h.flags, data)
  {
    hide Be16, Be32, Le16, ReadBe16, ReadBe32;
    var s := h.Bytes() + data;
    assert s[0..2] == Be16(h.sport) && s[2..4] == Be16(h.dport);
    assert s[4..8] == Be32(h.seqNo) && s[8..12] == Be32(h.ackNo);
    ReadBe16At(s, 0, h.sport);
    ReadBe16At(s, 2, h.dport);
    ReadBe32At(s, 4, h.seqNo);
    ReadBe32At(s, 8, h.ackNo);
    assert Be16(65535) == [0xff, 0xff] && Be16(0) == [0, 0] by { NumbersBe(); }
    assert s[12..16] == [0x50, h.flags] + Be16(65535) && s[18..20] == Be16(0);
  }

  lemma NumbersBe()
    ensures Be16(65535) == [0xff, 0xff] && Be16(0) == [0, 0]
  {
  }

  lemma UdpBytesIs(h: UdpHdr, data: seq<byte>)
    requires h.len == 8 + |data| && h.cksum != 0
    ensures UdpBytes(h.Bytes() + data, h.sport, h.dport, data)
  {
    hide Be16, ReadBe16;
    var s := h.Bytes() + data;
    assert s[0..2] == Be16(h.sport) && s[2..4] == Be16(h.dport) && s[4..6] == Be16(h.len);
    ReadBe16At(s, 0, h.sport);
    ReadBe16At(s, 2, h.dport);
    ReadBe16At(s, 4, h.len);
    assert s[6..8] == Le16(h.cksum) != [0, 0];
  }

  /** The pseudo-header is made of the frame's own bytes. */
  lemma CoversFrame(frame: seq<byte>, dstMac: Mac, srcMac: Mac, sip: u32, dip: u32, proto: byte, seg: seq<byte>)
    requires IpFrame(frame, dstMac, srcMac, sip, dip, proto, seg) && |seg| < 0x1_0000
    requires Verifies(PseudoHeader(sip, dip, proto, |seg|) + seg)
    ensures 34 <= |frame| < 0x1_0000 && SegmentVerifies(frame)
  {
    IpFrameBytes(frame, dstMac, srcMac, sip, dip, proto, seg);
    assert |frame| <= FRAME_MAX;
    hide Verifies, Be16, Be32, IpFrame;
    assert PseudoHeader(sip, dip, proto, |seg|) + seg == frame[26..34] + [0, frame[23]] + Be16(|frame| - 34) + frame[34..];
  }

  /** The whole IPv4 frame, apart from its header checksum, which passes the receiver's test. */
  ghost predicate IpFrame(frame: seq<byte>, dstMac: Mac, srcMac: Mac, sip: u32, dip: u32, proto: byte, payload: seq<byte>)
  {
    && |payload| + ETH_LEN + IP_LEN <= FRAME_MAX
    && |frame| == ETH_LEN + IP_LEN + |payload|
    && Verifies(frame[ETH_LEN..ETH_LEN + IP_LEN])
    && frame == EthHdr(dstMac, srcMac, ETHERTYPE_IP).Bytes()
                + Ip4Hdr(IP_LEN + |payload|, proto, ReadLe16(frame, ETH_LEN + 10), sip, dip).Bytes() + payload
  }

  lemma IpFrameParses(frame: seq<byte>, dstMac: Mac, srcMac: Mac, sip: u32, dip: u32, proto: byte, payload: seq<byte>)
    requires IpFrame(frame, dstMac, srcMac, sip, dip, proto, payload)
    ensures ParseFrame(frame) == Ip(IpPacket(srcMac, proto, sip, dip, payload))
    ensures frame[0..6] == dstMac
  {
    hide Verifies;
    var eth := EthHdr(dstMac, srcMac, ETHERTYPE_IP);
    var ip := Ip4Hdr(IP_LEN + |payload|, proto, ReadLe16(frame, ETH_LEN + 10), sip, dip);
    ParseFrameInverse(eth, ip, payload);
    hide ParseFrame, Be16;
    assert frame[0..6] == eth.Bytes()[0..6];
  }

  method EmitIp(gwMac: Mac, dstMac: Mac, sip: u32, dip: u32, proto: byte, payload: seq<byte>)
    returns (frame: seq<byte>)
    requires ETH_LEN + IP_LEN + |payload| <= FRAME_MAX
    ensures IpFrame(frame, dstMac, gwMac, sip, dip, proto, payload)
  {
    hide Be16, Be32, Le16, Verifies, Complement;
    var ipTotal := IP_LEN + |payload|;
    var buf := new byte[FRAME_MAX];
    var eth := EthHdr(dstMac, gwMac, ETHERTYPE_IP);
    Put(buf, 0, eth.Bytes());
    var ip := Ip4Hdr(ipTotal, proto, 0, sip, dip);
    var ck := IpCksum(ip.Bytes());
    ip := ip.(cksum := ck);
    FieldVerifies(ip.Front(), Be32(sip) + Be32(dip), ck);
    Put(buf, ETH_LEN, ip.Bytes());
    Put(buf, ETH_LEN + IP_LEN, payload);
    frame := buf[..ETH_LEN + ipTotal];
    assert frame[..ETH_LEN] == eth.Bytes();
    assert frame[ETH_LEN..ETH_LEN + IP_LEN] == ip.Bytes();
    assert frame[ETH_LEN + IP_LEN..] == payload;
    assert frame == eth.Bytes() + ip.Bytes() + payload;
    assert frame[ETH_LEN + 10..ETH_LEN + 12] == Le16(ck);
    ReadLe16At(frame, ETH_LEN + 10, ck);
  }

  /**
     The frame carries the segment asked for, byte for byte as the decoder reads it, and both of
     its checksums verify.
   */
  method SendTcp(gwMac: Mac, dstMac: Mac, sip: u32, sp: u16, dip: u32, dp: u16,
                 seqNo: u32, ackNo: u32, flags: byte, data: seq<byte>)
    returns (frame: seq<byte>)
    requires ETH_LEN + IP_LEN + TCP_LEN + |data| <= FRAME_MAX
    ensures var p := ParseFrame(frame);
            && p.Ip? && p.packet.ethSrc == gwMac && p.packet.proto == IP_TCP
            && p.packet.src == sip && p.packet.dst == dip
            && ParseTcp(p.packet.payload) == Some(TcpSegment(sp, dp, seqNo, ackNo, flags, data))
            && |p.packet.payload| == TCP_LEN + |data|
            && IpFrame(frame, dstMac, gwMac, sip, dip, IP_TCP, p.packet.payload)
    ensures FrameBytes(frame, dstMac, gwMac, sip, dip, 6) && TcpBytes(frame[34..], sp, dp, seqNo, ackNo, flags, data)
    ensures |frame| < 0x1_0000 && SegmentVerifies(frame)
  {
    hide FrameBytes, TcpBytes, SegmentVerifies;
    hide Be16, Be32, Le16, Verifies, Complement, PseudoHeader, ParseFrame, ParseTcp, IpFrame;
    var tcpLen := TCP_LEN + |data|;
    var tcp := TcpHdr(sp, dp, seqNo, ackNo, flags, 0);
    var seg := tcp.Bytes() + data;
    var ck := TransportCksum(sip, dip, IP_TCP, seg);
    ghost var before := PseudoHeader(sip, dip, IP_TCP, tcpLen) + tcp.Front();
    assert PseudoHeader(sip, dip, IP_TCP, tcpLen) + seg == before + Le16(0) + (Be16(0) + data);
    FieldVerifies(before, Be16(0) + data, ck);
    tcp := tcp.(cksum := ck);
    seg := tcp.Bytes() + data;
    assert PseudoHeader(sip, dip, IP_TCP, tcpLen) + seg == before + Le16(ck) + (Be16(0) + data);
    frame := EmitIp(gwMac, dstMac, sip, dip, IP_TCP, seg);
    IpFrameParses(frame, dstMac, gwMac, sip, dip, IP_TCP, seg);
    ParseTcpInverse(tcp, data);
    IpFrameBytes(frame, dstMac, gwMac, sip, dip, IP_TCP, seg);
    TcpBytesIs(tcp, data);
    CoversFrame(frame, dstMac, gwMac, sip, dip, IP_TCP, seg);
  }

  /** As for TCP; the stored checksum is never zero, which would mean that there is none. */
  method SendUdp(gwMac: Mac, dstMac: Mac, sip: u32, sp: u16, dip: u32, dp: u16, data: seq<byte>)
    returns (frame: seq<byte>)
    requires |data| <= 1500
    ensures var p := ParseFrame(frame);
            && p.Ip? && p.packet.ethSrc == gwMac && p.packet.proto == IP_UDP
            && p.packet.src == sip && p.packet.dst == dip
            && ParseUdp(p.packet.payload) == Some(UdpDatagram(sp, dp, data))
            && |p.packet.payload| == UDP_LEN + |data| == ReadBe16(p.packet.payload, 4)
            && ReadLe16(p.packet.payload, 6) != 0
            && IpFrame(frame, dstMac, gwMac, sip, dip, IP_UDP, p.packet.payload)
    ensures FrameBytes(frame, dstMac, gwMac, sip, dip, 17) && UdpBytes(frame[34..], sp, dp, data)
    ensures |frame| < 0x1_0000 && SegmentVerifies(frame)
  {
    hide FrameBytes, UdpBytes, SegmentVerifies;
    hide Be16, Be32, Le16, Verifies, Complement, PseudoHeader, ParseFrame, ParseUdp, IpFrame, ReadBe16, ReadLe16;
    var udpLen := UDP_LEN + |data|;
    var udp := UdpHdr(sp, dp, udpLen, 0);
    var seg := udp.Bytes() + data;
    var ck := TransportCksum(sip, dip, IP_UDP, seg);
    ghost var before := PseudoHeader(sip, dip, IP_UDP, udpLen) + udp.Front();
    assert PseudoHeader(sip, dip, IP_UDP, udpLen) + seg == before + Le16(0) + data;
    if ck == 0 {
      ck := 0xffff;
    }
    FieldVerifies(before, data, ck);
    udp := udp.(cksum := ck);
    seg := udp.Bytes() + data;
    assert PseudoHeader(sip, dip, IP_UDP, udpLen) + seg == before + Le16(ck) + data;
    frame := EmitIp(gwMac, dstMac, sip, dip, IP_UDP, seg);
    IpFrameParses(frame, dstMac, gwMac, sip, dip, IP_UDP, seg);
    ParseUdpInverse(udp, data);
    assert seg[4..6] == Be16(udpLen) && seg[6..8] == Le16(ck);
    ReadBe16At(seg, 4, udpLen);
    ReadLe16At(seg, 6, ck);
    IpFrameBytes(frame, dstMac, gwMac, sip, dip, IP_UDP, seg);
    UdpBytesIs(udp, data);
    CoversFrame(frame, dstMac, gwMac, sip, dip, IP_UDP, seg);
  }

  /** An echo reply repeats the request's bytes but for the type, and its checksum verifies. */
  method HandleIcmp(gwMac: Mac, request: IpPacket) returns (reply: Option<seq<byte>>)
    requires ETH_LEN + IP_LEN + |request.payload| <= FRAME_MAX
    ensures reply.Some? <==> |request.payload| >= ICMP_LEN && request.payload[0] == 8
    ensures reply.Some? ==>
              var p := ParseFrame(reply.value);
              && p.Ip? && p.packet.proto == IP_ICMP && p.packet.src == request.dst && p.packet.dst == request.src
              && |p.packet.payload| == |request.payload|
              && p.packet.payload[0] == 0 && p.packet.payload[1] == request.payload[1]
              && p.packet.payload[4..] == request.payload[4..]
              && Verifies(p.packet.payload)
              && IpFrame(reply.value, request.ethSrc, gwMac, request.dst, request.src, IP_ICMP, p.packet.payload)
    ensures reply.Some? ==>
              FrameBytes(reply.value, request.ethSrc, gwMac, request.dst, request.src, 1)
              && |reply.value| == 34 + |request.payload| && reply.value[34..36] == [0, request.payload[1]]
              && reply.value[38..] == request.payload[4..]
  {
    hide FrameBytes;
    hide Verifies, Complement, ParseFrame, IpFrame;
    var payload := request.payload;
    if |payload| < ICMP_LEN || payload[0] != 8 {
      return None;
    }
    var rep := new byte[|payload|](i requires 0 <= i < |payload| => payload[i]);
    rep[0] := 0;
    rep[2], rep[3] := 0, 0;
    ghost var rest := payload[4..];
    assert rep[..] == [0, payload[1]] + Le16(0) + rest;
    var ck := IpCksum(rep[..]);
    rep[2] := ck % 0x100;
    rep[3] := ck / 0x100;
    assert rep[..] == [0, payload[1]] + Le16(ck) + rest;
    FieldVerifies([0, payload[1]], rest, ck);
    assert rep[..][4..] == rest && rep[..][0..2] == [0, payload[1]];
    hide Le16, Be16, Be32;
    var frame := EmitIp(gwMac, request.ethSrc, request.dst, request.src, IP_ICMP, rep[..]);
    IpFrameParses(frame, request.ethSrc, gwMac, request.dst, request.src, IP_ICMP, rep[..]);
    IpFrameBytes(frame, request.ethSrc, gwMac, request.dst, request.src, IP_ICMP, rep[..]);
    assert frame[34..36] == rep[..][0..2] && frame[38..] == rep[..][4..] by {
      assert frame[34..36] == frame[34..][0..2] && frame[38..] == frame[34..][4..];
    }
    reply := Some(frame);
  }
}
