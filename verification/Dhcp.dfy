/** The DHCP server of network.cpp: the walk over a request's options, and the reply it builds. */
module Dhcp {
  import opened Bytes

  const PAD: byte := 0
  const END: byte := 255
  const MESSAGE_TYPE: byte := 53
  const DISCOVER: byte := 1
  const OFFER: byte := 2
  const REQUEST: byte := 3
  const ACK: byte := 5
  const OPTIONS_AT := 240
  const REPLY_LEN := 548

  // ── Option lists (RFC 2132, section 2) ────────────────────────────────────

  datatype Opt = Pad | Data(tag: byte, data: seq<byte>)

  predicate WellFormed(o: Opt)
  {
    o.Data? ==> o.tag != PAD && o.tag != END && |o.data| <= 255
  }

  function EncodeOption(o: Opt): seq<byte>
    requires WellFormed(o)
  {
    match o
    case Pad => [PAD]
    case Data(tag, data) => [tag, |data|] + data
  }

  ghost predicate AllWellFormed(os: seq<Opt>)
  {
    forall i :: 0 <= i < |os| ==> WellFormed(os[i])
  }

  ghost function Encode(os: seq<Opt>): seq<byte>
    requires AllWellFormed(os)
  {
    if os == [] then [] else EncodeOption(os[0]) + Encode(os[1..])
  }

  function AfterOption(o: Opt, found: byte): byte
  {
    if o.Data? && o.tag == MESSAGE_TYPE && o.data != [] then o.data[0] else found
  }

  /** The first byte of the last message-type option that is not empty; `found` if there is none. */
  function MessageType(os: seq<Opt>, found: byte): byte
  {
    if os == [] then found
    else
      var o := os[0];
      MessageType(os[1..], AfterOption(o, found))
  }

  // ── The walk ──────────────────────────────────────────────────────────────

  /** What the source reads at `i`; `past` is the byte that follows the packet in memory. */
  function At(opt: seq<byte>, past: byte, i: nat): byte
    requires i <= |opt|
  {
    if i < |opt| then opt[i] else past
  }

  /** The result of the walk from position `i` on. */
  function WalkFrom(opt: seq<byte>, past: byte, i: nat, found: byte): byte
    decreases |opt| - i
  {
    if i >= |opt| || opt[i] == END then found
    else if opt[i] == PAD then WalkFrom(opt, past, i + 1, found)
    else if i + 1 >= |opt| then found
    else
      var olen := opt[i + 1];
      var found' := if opt[i] == MESSAGE_TYPE && olen >= 1 then At(opt, past, i + 2) else found;
      WalkFrom(opt, past, i + 2 + olen, found')
  }

  /** The loop ends on every input, well formed or not. */
  method Walk(opt: seq<byte>, past: byte) returns (msgType: byte)
    ensures msgType == WalkFrom(opt, past, 0, 0)
  {
    msgType := 0;
    var i: nat := 0;
    while i < |opt|
      invariant WalkFrom(opt, past, 0, 0) == WalkFrom(opt, past, i, msgType)
      decreases |opt| - i
    {
      if opt[i] == END {
        break;
      }
      if opt[i] == PAD {
        i := i + 1;
        continue;
      }
      if i + 1 >= |opt| {
        break;
      }
      var olen := opt[i + 1];
      if opt[i] == MESSAGE_TYPE && olen >= 1 {
        msgType := At(opt, past, i + 2);
      }
      i := i + 2 + olen;
    }
  }

  /**
     On the encoding of any option list, wherever it lies in the packet, the walk finds the list's
     message type, and then carries on with what follows.
   */
  lemma {:induction false} WalkEncoded(opt: seq<byte>, past: byte, i: nat, os: seq<Opt>, found: byte)
    requires AllWellFormed(os) && i + |Encode(os)| <= |opt| && opt[i..i + |Encode(os)|] == Encode(os)
    ensures WalkFrom(opt, past, i, found) == WalkFrom(opt, past, i + |Encode(os)|, MessageType(os, found))
    decreases os
  {
    hide EncodeOption, WalkFrom, AfterOption, WellFormed;
    if os != [] {
      var o, n := os[0], |EncodeOption(os[0])|;
      var enc := opt[i..i + |Encode(os)|];
      assert enc == EncodeOption(o) + Encode(os[1..]);
      assert opt[i..i + n] == enc[..n] == EncodeOption(o);
      assert opt[i + n..i + |Encode(os)|] == enc[n..] == Encode(os[1..]);
      WalkOne(opt, past, i, o, found);
      WalkEncoded(opt, past, i + n, os[1..], AfterOption(o, found));
    }
  }

  lemma WalkOne(opt: seq<byte>, past: byte, i: nat, o: Opt, found: byte)
    requires WellFormed(o) && i + |EncodeOption(o)| <= |opt| && opt[i..i + |EncodeOption(o)|] == EncodeOption(o)
    ensures WalkFrom(opt, past, i, found)
         == WalkFrom(opt, past, i + |EncodeOption(o)|, AfterOption(o, found))
  {
    var e := opt[i..i + |EncodeOption(o)|];
    assert e[0] == opt[i];
    if o.Data? {
      assert e[1] == opt[i + 1];
      if o.data != [] {
        assert e[2] == opt[i + 2] == o.data[0];
      }
    }
  }

  /** An option list is decoded the same whether an END option and anything at all follow it or it ends the packet. */
  lemma WalkDecodes(os: seq<Opt>, tail: seq<byte>, past: byte)
    requires AllWellFormed(os) && (tail == [] || tail[0] == END)
    ensures WalkFrom(Encode(os) + tail, past, 0, 0) == MessageType(os, 0)
  {
    var opt := Encode(os) + tail;
    assert opt[0..|Encode(os)|] == Encode(os);
    WalkEncoded(opt, past, 0, os, 0);
  }

  /** One turn of the walk, byte by byte: a pad, the end mark, a message type, any other option. */
  lemma WalkTurn(opt: seq<byte>, past: byte, i: nat, found: byte)
    requires i < |opt|
    ensures opt[i] == 0 ==> WalkFrom(opt, past, i, found) == WalkFrom(opt, past, i + 1, found)
    ensures opt[i] == 255 ==> WalkFrom(opt, past, i, found) == found
    ensures opt[i] == 53 && i + 2 < |opt| && opt[i + 1] >= 1 ==>
              WalkFrom(opt, past, i, found) == WalkFrom(opt, past, i + 2 + opt[i + 1] as int, opt[i + 2])
    ensures opt[i] != 0 && opt[i] != 255 && opt[i] != 53 && i + 1 < |opt| ==>
              WalkFrom(opt, past, i, found) == WalkFrom(opt, past, i + 2 + opt[i + 1] as int, found)
  {
  }

  // ── The reply ─────────────────────────────────────────────────────────────

  datatype Config = Config(guestIp: u32, gwIp: u32, dnsIp: u32)

  function ReplyOptions(cfg: Config, msgType: byte): (os: seq<Opt>)
    ensures AllWellFormed(os)
  {
    [Data(MESSAGE_TYPE, [if msgType == DISCOVER then OFFER else ACK]),
     Data(54, Be32(cfg.gwIp)), Data(51, Be32(86400)), Data(1, Be32(0xFFFF_FF00)),
     Data(3, Be32(cfg.gwIp)), Data(6, Be32(cfg.dnsIp))]
  }

  const COOKIE: seq<byte> := [99, 130, 83, 99]

  /** The 300 bytes sent: the BOOTP fields, the options, the end mark, and zeros. */
  ghost function Reply(cfg: Config, msgType: byte, xid: seq<byte>, chaddr: seq<byte>): seq<byte>
  {
    BootpFields(cfg, xid, chaddr) + Encode(ReplyOptions(cfg, msgType)) + [END] + Zeros(26)
  }

  /** A store into a buffer whose tail is still zero. */
  method PutAfter(buf: array<byte>, ghost prefix: seq<byte>, off: nat, data: seq<byte>)
    requires |prefix| <= off && off + |data| <= buf.Length
    requires buf[..] == prefix + Zeros(buf.Length - |prefix|)
    modifies buf
    ensures buf[..] == prefix + Zeros(off - |prefix|) + data + Zeros(buf.Length - off - |data|)
  {
    Put(buf, off, data);
    assert Zeros(buf.Length - |prefix|) == Zeros(off - |prefix|) + Zeros(|data|) + Zeros(buf.Length - off - |data|);
  }

  method Opt8(reply: array<byte>, ghost prefix: seq<byte>, p: nat, tag: byte, v: byte) returns (p': nat)
    requires |prefix| == p && p + 3 <= reply.Length && reply[..] == prefix + Zeros(reply.Length - p)
    modifies reply
    ensures p' == p + 3 && reply[..] == prefix + [tag, 1, v] + Zeros(reply.Length - p')
  {
    PutAfter(reply, prefix, p, [tag, 1, v]);
    p' := p + 3;
    assert prefix + Zeros(0) == prefix;
  }

  method Opt32(reply: array<byte>, ghost prefix: seq<byte>, p: nat, tag: byte, v: u32) returns (p': nat)
    requires |prefix| == p && p + 6 <= reply.Length && reply[..] == prefix + Zeros(reply.Length - p)
    modifies reply
    ensures p' == p + 6 && reply[..] == prefix + ([tag, 4] + Be32(v)) + Zeros(reply.Length - p')
  {
    PutAfter(reply, prefix, p, [tag, 4] + Be32(v));
    p' := p + 6;
    assert prefix + Zeros(0) == prefix;
  }

  ghost function BootpFields(cfg: Config, xid: seq<byte>, chaddr: seq<byte>): seq<byte>
  {
    [2, 1, 6, 0] + xid + Zeros(8) + Be32(cfg.guestIp) + Be32(cfg.gwIp) + Zeros(4) + chaddr + Zeros(202) + COOKIE
  }

  method PutBootpFields(cfg: Config, reply: array<byte>, xid: seq<byte>, chaddr: seq<byte>)
    requires reply.Length == REPLY_LEN && reply[..] == Zeros(REPLY_LEN) && |xid| == 4 && |chaddr| == 6
    modifies reply
    ensures reply[..] == BootpFields(cfg, xid, chaddr) + Zeros(REPLY_LEN - OPTIONS_AT)
  {
    hide Be32;
    ghost var done: seq<byte> := [];
    assert reply[..] == done + Zeros(REPLY_LEN);
    PutAfter(reply, done, 0, [2, 1, 6]);
    done := [2, 1, 6];
    assert reply[..] == done + Zeros(REPLY_LEN - 3);
    PutAfter(reply, done, 4, xid);
    done := [2, 1, 6] + Zeros(1) + xid;
    PutAfter(reply, done, 16, Be32(cfg.guestIp));
    done := done + Zeros(8) + Be32(cfg.guestIp);
    PutAfter(reply, done, 20, Be32(cfg.gwIp));
    done := done + Zeros(0) + Be32(cfg.gwIp);
    PutAfter(reply, done, 28, chaddr);
    done := done + Zeros(4) + chaddr;
    PutAfter(reply, done, 236, COOKIE);
    done := done + Zeros(202) + COOKIE;
    assert done == BootpFields(cfg, xid, chaddr);
  }

  method PutOptions(cfg: Config, reply: array<byte>, ghost fields: seq<byte>, msgType: byte) returns (p: nat)
    requires reply.Length == REPLY_LEN && |fields| == OPTIONS_AT
    requires reply[..] == fields + Zeros(REPLY_LEN - OPTIONS_AT)
    modifies reply
    ensures p == OPTIONS_AT + |Encode(ReplyOptions(cfg, msgType))| + 1 == 274
    ensures reply[..] == fields + Encode(ReplyOptions(cfg, msgType)) + [END] + Zeros(REPLY_LEN - p)
  {
    ReplyOptionBytes(cfg, msgType);
    hide Be32, Encode, EncodeOption, ReplyOptions;
    var first := if msgType == DISCOVER then OFFER else ACK;
    ghost var d := fields;
    p := Opt8(reply, d, OPTIONS_AT, MESSAGE_TYPE, first);
    d := d + [MESSAGE_TYPE, 1, first];
    p := Opt32(reply, d, p, 54, cfg.gwIp);
    d := d + ([54, 4] + Be32(cfg.gwIp));
    p := Opt32(reply, d, p, 51, 86400);
    d := d + ([51, 4] + Be32(86400));
    p := Opt32(reply, d, p, 1, 0xFFFF_FF00);
    d := d + ([1, 4] + Be32(0xFFFF_FF00));
    p := Opt32(reply, d, p, 3, cfg.gwIp);
    d := d + ([3, 4] + Be32(cfg.gwIp));
    p := Opt32(reply, d, p, 6, cfg.dnsIp);
    d := d + ([6, 4] + Be32(cfg.dnsIp));
    assert d == fields + Encode(ReplyOptions(cfg, msgType));
    PutAfter(reply, d, p, [END]);
    p := p + 1;
    assert d + Zeros(0) == d;
  }

  lemma ReplyOptionBytes(cfg: Config, msgType: byte)
    ensures Encode(ReplyOptions(cfg, msgType))
         == [MESSAGE_TYPE, 1, if msgType == DISCOVER then OFFER else ACK] + ([54, 4] + Be32(cfg.gwIp))
            + ([51, 4] + Be32(86400)) + ([1, 4] + Be32(0xFFFF_FF00))
            + ([3, 4] + Be32(cfg.gwIp)) + ([6, 4] + Be32(cfg.dnsIp))
  {
    hide Be32, Encode;
    EncodeSix(ReplyOptions(cfg, msgType));
  }

  lemma EncodeSix(os: seq<Opt>)
    requires |os| == 6 && AllWellFormed(os)
    ensures Encode(os) == EncodeOption(os[0]) + EncodeOption(os[1]) + EncodeOption(os[2])
                          + EncodeOption(os[3]) + EncodeOption(os[4]) + EncodeOption(os[5])
  {
    hide EncodeOption, WellFormed;
    var a, b, c, d, e := os[1..], os[2..], os[3..], os[4..], os[5..];
    assert a[1..] == b && b[1..] == c && c[1..] == d && d[1..] == e && e[1..] == [];
    assert Encode(e) == EncodeOption(os[5]) + [];
    assert Encode(d) == EncodeOption(os[4]) + Encode(e);
    assert Encode(c) == EncodeOption(os[3]) + Encode(d);
    assert Encode(b) == EncodeOption(os[2]) + Encode(c);
    assert Encode(a) == EncodeOption(os[1]) + Encode(b);
    assert Encode(os) == EncodeOption(os[0]) + Encode(a);
  }

  // ── What a client finds in it ─────────────────────────────────────────────

  /** The value of the first option with this tag, as RFC 2132 has options decoded. */
  function Find(opt: seq<byte>, tag: byte, i: nat): Option<seq<byte>>
    decreases |opt| - i
  {
    if i >= |opt| || opt[i] == 255 then None
    else if opt[i] == 0 then Find(opt, tag, i + 1)
    else if i + 1 >= |opt| || i + 2 + opt[i + 1] as int > |opt| then None
    else if opt[i] == tag then Some(opt[i + 2..i + 2 + opt[i + 1] as int])
    else Find(opt, tag, i + 2 + opt[i + 1] as int)
  }

  /** The BOOTP fields of a reply, at their offsets. */
  ghost predicate Offers(r: seq<byte>, cfg: Config, request: seq<byte>)
    requires |request| >= 240
  {
    && |r| == 300 && r[0] == 2 && r[1] == 1 && r[2] == 6 && r[3] == 0 && r[4..8] == request[4..8]
    && ReadBe32(r, 16) == cfg.guestIp && ReadBe32(r, 20) == cfg.gwIp && r[28..34] == request[28..34]
    && (forall i :: 8 <= i < 16 || 24 <= i < 28 || 34 <= i < 236 ==> r[i] == 0)
    && r[236] == 99 && r[237] == 130 && r[238] == 83 && r[239] == 99
  }

  /** Its options, byte by byte. */
  ghost predicate OptionBytes(o: seq<byte>, cfg: Config, msgType: byte)
  {
    && |o| == 60 && o[0] == 53 && o[1] == 1 && o[2] == msgType
    && o[3] == 54 && o[4] == 4 && o[5..9] == Be32(cfg.gwIp)
    && o[9] == 51 && o[10] == 4 && o[11..15] == Be32(86400)
    && o[15] == 1 && o[16] == 4 && o[17..21] == Be32(0xFFFF_FF00)
    && o[21] == 3 && o[22] == 4 && o[23..27] == Be32(cfg.gwIp)
    && o[27] == 6 && o[28] == 4 && o[29..33] == Be32(cfg.dnsIp)
    && o[33] == 255
  }

  lemma ReplyFields(cfg: Config, msgType: byte, request: seq<byte>)
    requires |request| >= 240
    ensures Offers(Reply(cfg, msgType, request[4..8], request[28..34]), cfg, request)
  {
    var xid, chaddr := request[4..8], request[28..34];
    var r := Reply(cfg, msgType, xid, chaddr);
    ReplyOptionBytes(cfg, msgType);
    hide Be32, Encode, ReplyOptions, ReadBe32;
    var opts := Encode(ReplyOptions(cfg, msgType)) + [END] + Zeros(26);
    assert r == [2, 1, 6, 0] + xid + Zeros(8) + Be32(cfg.guestIp) + Be32(cfg.gwIp) + Zeros(4) + chaddr + Zeros(202) + COOKIE + opts;
    hide Reply, BootpFields;
    FieldSlices(r, xid, Be32(cfg.guestIp), Be32(cfg.gwIp), chaddr, opts);
    ReadBe32At(r, 16, cfg.guestIp);
    ReadBe32At(r, 20, cfg.gwIp);
  }

  lemma FieldSlices(r: seq<byte>, xid: seq<byte>, a: seq<byte>, b: seq<byte>, chaddr: seq<byte>, opts: seq<byte>)
    requires |xid| == |a| == |b| == 4 && |chaddr| == 6
    requires r == [2, 1, 6, 0] + xid + Zeros(8) + a + b + Zeros(4) + chaddr + Zeros(202) + COOKIE + opts
    ensures |r| == 240 + |opts| && r[0] == 2 && r[1] == 1 && r[2] == 6 && r[3] == 0
    ensures r[4..8] == xid && r[16..20] == a && r[20..24] == b && r[28..34] == chaddr
    ensures forall i :: 8 <= i < 16 || 24 <= i < 28 || 34 <= i < 236 ==> r[i] == 0
    ensures r[236] == 99 && r[237] == 130 && r[238] == 83 && r[239] == 99 && r[240..] == opts
  {
    var h: seq<byte> := [2, 1, 6, 0];
    NineSlices(r, h, xid, Zeros(8), a, b, Zeros(4), chaddr, Zeros(202), COOKIE, opts);
    assert forall i :: 0 <= i < 4 ==> r[i] == r[0..4][i];
    assert forall i :: 8 <= i < 16 ==> r[i] == r[8..16][i - 8];
    assert forall i :: 24 <= i < 28 ==> r[i] == r[24..28][i - 24];
    assert forall i :: 34 <= i < 236 ==> r[i] == r[34..236][i - 34];
    assert forall i :: 236 <= i < 240 ==> r[i] == r[236..240][i - 236];
  }

  lemma NineSlices(r: seq<byte>, h: seq<byte>, xid: seq<byte>, z: seq<byte>, a: seq<byte>, b: seq<byte>, y: seq<byte>,
      chaddr: seq<byte>, x: seq<byte>, cookie: seq<byte>, opts: seq<byte>)
    requires |h| == |xid| == |a| == |b| == |y| == |cookie| == 4 && |z| == 8 && |chaddr| == 6 && |x| == 202
    requires r == h + xid + z + a + b + y + chaddr + x + cookie + opts
    ensures |r| == 240 + |opts| && r[0..4] == h && r[4..8] == xid && r[8..16] == z && r[16..20] == a && r[20..24] == b
    ensures r[24..28] == y && r[28..34] == chaddr && r[34..236] == x && r[236..240] == cookie && r[240..] == opts
  {
  }

  lemma ReplyOptionSlices(cfg: Config, msgType: byte, xid: seq<byte>, chaddr: seq<byte>)
    requires |xid| == 4 && |chaddr| == 6
    ensures var r := Reply(cfg, msgType, xid, chaddr);
            |r| == 300 && OptionBytes(r[240..], cfg, if msgType == DISCOVER then 2 else 5)
  {
    ReplyOptionBytes(cfg, msgType);
    hide Be32, Encode, ReplyOptions;
    var r, k := Reply(cfg, msgType, xid, chaddr), if msgType == DISCOVER then 2 else 5;
    var gw, lease, mask, dns := Be32(cfg.gwIp), Be32(86400), Be32(0xFFFF_FF00), Be32(cfg.dnsIp);
    var o := r[240..];
    assert o == [53, 1, k] + ([54, 4] + gw) + ([51, 4] + lease) + ([1, 4] + mask) + ([3, 4] + gw) + ([6, 4] + dns) + [END] + Zeros(26);
    hide Reply, BootpFields;
    OptionSlices(o, k, gw, lease, mask, dns, Zeros(26));
  }

  lemma OptionSlices(o: seq<byte>, k: byte, gw: seq<byte>, lease: seq<byte>, mask: seq<byte>, dns: seq<byte>, rest: seq<byte>)
    requires |gw| == |lease| == |mask| == |dns| == 4
    requires o == [53, 1, k] + ([54, 4] + gw) + ([51, 4] + lease) + ([1, 4] + mask) + ([3, 4] + gw) + ([6, 4] + dns) + [END] + rest
    ensures |o| == 34 + |rest| && o[0] == 53 && o[1] == 1 && o[2] == k
    ensures o[3] == 54 && o[4] == 4 && o[5..9] == gw && o[9] == 51 && o[10] == 4 && o[11..15] == lease
    ensures o[15] == 1 && o[16] == 4 && o[17..21] == mask && o[21] == 3 && o[22] == 4 && o[23..27] == gw
    ensures o[27] == 6 && o[28] == 4 && o[29..33] == dns && o[33] == 255
  {
    var h, a, b, c, d, e := [53, 1, k], [54, 4] + gw, [51, 4] + lease, [1, 4] + mask, [3, 4] + gw, [6, 4] + dns;
    assert |h| == 3 && |a| == |b| == |c| == |d| == |e| == 6;
    SixSlices(o, h, a, b, c, d, e, [END], rest);
    OptionAt(o, 3, 54, gw);
    OptionAt(o, 9, 51, lease);
    OptionAt(o, 15, 1, mask);
    OptionAt(o, 21, 3, gw);
    OptionAt(o, 27, 6, dns);
  }

  lemma SixSlices(o: seq<byte>, h: seq<byte>, a: seq<byte>, b: seq<byte>, c: seq<byte>, d: seq<byte>, e: seq<byte>,
      end: seq<byte>, rest: seq<byte>)
    requires |h| == 3 && |a| == |b| == |c| == |d| == |e| == 6 && |end| == 1 && o == h + a + b + c + d + e + end + rest
    ensures |o| == 34 + |rest| && o[0] == h[0] && o[1] == h[1] && o[2] == h[2] && o[33] == end[0]
    ensures o[3..9] == a && o[9..15] == b && o[15..21] == c && o[21..27] == d && o[27..33] == e
  {
  }

  lemma OptionAt(o: seq<byte>, at: nat, tag: byte, v: seq<byte>)
    requires |v| == 4 && at + 6 <= |o| && o[at..at + 6] == [tag, 4] + v
    ensures o[at] == tag && o[at + 1] == 4 && o[at + 2..at + 6] == v
  {
    var w := o[at..at + 6];
    assert o[at] == w[0] && o[at + 1] == w[1];
    assert o[at + 2..at + 6] == w[2..];
  }

  /**
     Decoded by tag, a reply holds the message type, the gateway as server and router, a day's lease,
     a /24 mask and the name server.
   */
  lemma OptionsDecode(o: seq<byte>, cfg: Config, msgType: byte)
    requires OptionBytes(o, cfg, msgType)
    ensures Find(o, 53, 0) == Some([msgType]) && Find(o, 54, 0) == Some(Be32(cfg.gwIp)) && Find(o, 51, 0) == Some(Be32(86400))
    ensures Find(o, 1, 0) == Some(Be32(0xFFFF_FF00)) && Find(o, 3, 0) == Some(Be32(cfg.gwIp)) && Find(o, 6, 0) == Some(Be32(cfg.dnsIp))
  {
    hide Be32, Find;
    forall tag ensures o[0] != tag ==> Find(o, tag, 0) == Find(o, tag, 3) { FindOne(o, tag, 0); }
    forall tag ensures o[3] != tag ==> Find(o, tag, 3) == Find(o, tag, 9) { FindOne(o, tag, 3); }
    forall tag ensures o[9] != tag ==> Find(o, tag, 9) == Find(o, tag, 15) { FindOne(o, tag, 9); }
    forall tag ensures o[15] != tag ==> Find(o, tag, 15) == Find(o, tag, 21) { FindOne(o, tag, 15); }
    forall tag ensures o[21] != tag ==> Find(o, tag, 21) == Find(o, tag, 27) { FindOne(o, tag, 21); }
    FindOne(o, 53, 0);
    FindOne(o, 54, 3);
    FindOne(o, 51, 9);
    FindOne(o, 1, 15);
    FindOne(o, 3, 21);
    FindOne(o, 6, 27);
    assert o[2..3] == [msgType];
  }

  lemma FindOne(o: seq<byte>, tag: byte, i: nat)
    requires i + 1 < |o| && o[i] != 0 && o[i] != 255 && i + 2 + o[i + 1] as int <= |o|
    ensures Find(o, tag, i) == if o[i] == tag then Some(o[i + 2..i + 2 + o[i + 1] as int]) else Find(o, tag, i + 2 + o[i + 1] as int)
  {
  }

  /** Only DISCOVER and REQUEST are answered; the answer is the specified 300 bytes. */
  method HandleDhcp(cfg: Config, payload: seq<byte>, past: byte) returns (reply: Option<seq<byte>>)
    ensures |payload| < OPTIONS_AT ==> reply == None
    ensures |payload| >= OPTIONS_AT ==>
              var asked := WalkFrom(payload[OPTIONS_AT..], past, 0, 0);
              reply == if asked == DISCOVER || asked == REQUEST
                       then Some(Reply(cfg, asked, payload[4..8], payload[28..34])) else None
    ensures |payload| >= 240 ==>
              var asked := WalkFrom(payload[240..], past, 0, 0);
              && (reply.Some? <==> asked == 1 || asked == 3)
              && (reply.Some? ==> Offers(reply.value, cfg, payload) && OptionBytes(reply.value[240..], cfg, if asked == 1 then 2 else 5))
  {
    hide Offers, OptionBytes;
    if |payload| < OPTIONS_AT {
      return None;
    }
    var msgType := Walk(payload[OPTIONS_AT..], past);
    if msgType != DISCOVER && msgType != REQUEST {
      return None;
    }
    hide Be32, Encode, WalkFrom;
    var buf := new byte[REPLY_LEN](i => 0);
    PutBootpFields(cfg, buf, payload[4..8], payload[28..34]);
    ghost var fields := BootpFields(cfg, payload[4..8], payload[28..34]);
    var p := PutOptions(cfg, buf, fields, msgType);
    var rlen := if p > 300 then p else 300;
    reply := Some(buf[..rlen]);
    assert buf[..rlen] == Reply(cfg, msgType, payload[4..8], payload[28..34]);
    ReplyFields(cfg, msgType, payload);
    ReplyOptionSlices(cfg, msgType, payload[4..8], payload[28..34]);
    assert Zeros(REPLY_LEN - p)[..26] == Zeros(26);
  }

  /** A client that walks the options of the reply finds OFFER for a DISCOVER and ACK for a REQUEST. */
  lemma ReplyAnswers(cfg: Config, msgType: byte, xid: seq<byte>, chaddr: seq<byte>, past: byte)
    requires |xid| == 4 && |chaddr| == 6
    ensures var r := Reply(cfg, msgType, xid, chaddr);
            && |r| == 300
            && WalkFrom(r[OPTIONS_AT..], past, 0, 0) == if msgType == DISCOVER then OFFER else ACK
  {
    var os := ReplyOptions(cfg, msgType);
    ReplyOptionBytes(cfg, msgType);
    hide Be32, Encode, WalkFrom, EncodeOption, ReplyOptions;
    var r := Reply(cfg, msgType, xid, chaddr);
    assert r[OPTIONS_AT..] == Encode(os) + ([END] + Zeros(26));
    WalkDecodes(os, [END] + Zeros(26), past);
    ReplyMessageType(cfg, msgType);
  }

  lemma ReplyMessageType(cfg: Config, msgType: byte)
    ensures MessageType(ReplyOptions(cfg, msgType), 0) == if msgType == DISCOVER then OFFER else ACK
  {
    var os := ReplyOptions(cfg, msgType);
    assert MessageType(os, 0) == MessageType(os[1..], os[0].data[0]);
    OtherOptions(os[1..], os[0].data[0]);
  }

  /** Options of other types do not change the message type found so far. */
  lemma {:induction false} OtherOptions(os: seq<Opt>, found: byte)
    requires forall i :: 0 <= i < |os| ==> os[i].Data? && os[i].tag != MESSAGE_TYPE
    ensures MessageType(os, found) == found
  {
    if os != [] {
      OtherOptions(os[1..], found);
    }
  }
}
