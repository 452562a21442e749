/** The frame format of the IPC channel (framing.hpp): a 12-byte little-endian header, then the payload. */
module IpcFraming {
  import opened Bytes

  const MAGIC: u32 := 0x4152_4349
  const VERSION: byte := 1
  const MAX_PAYLOAD := 64 * 1024 * 1024
  const HEADER_LEN := 12

  datatype Message = Message(kind: byte, payload: seq<byte>)

  datatype FrameHeader = FrameHeader(magic: u32, version: byte, kind: byte, payloadLen: u32)

  function EncodeHeader(h: FrameHeader): (s: seq<byte>)
    ensures |s| == HEADER_LEN
  {
    Le32(h.magic) + [h.version, h.kind] + Le16(0) + Le32(h.payloadLen)
  }

  function DecodeHeader(s: seq<byte>): FrameHeader
    requires |s| == HEADER_LEN
  {
    FrameHeader(ReadLe32(s, 0), s[4], s[5], ReadLe32(s, 8))
  }

  /** The header `send_raw` writes; the payload size is cast to 32 bits. */
  function HeaderOf(m: Message): (s: seq<byte>)
    ensures |s| == HEADER_LEN
  {
    EncodeHeader(FrameHeader(MAGIC, VERSION, m.kind, |m.payload| % U32_RANGE))
  }

  lemma DecodeHeaderInverse(h: FrameHeader)
    ensures DecodeHeader(EncodeHeader(h)) == h
  {
    hide Le16, Le32, ReadLe32;
    var s := EncodeHeader(h);
    assert s[0..4] == Le32(h.magic) && s[8..12] == Le32(h.payloadLen);
    ReadLe32At(s, 0, h.magic);
    ReadLe32At(s, 8, h.payloadLen);
  }

  /** The header on the wire: magic, version, kind, two zeros, and the low 32 bits of the size. */
  lemma HeaderBytes(m: Message)
    ensures var h := HeaderOf(m);
            && ReadLe32(h, 0) == 0x4152_4349 && h[4] == 1 && h[5] == m.kind && h[6] == 0 && h[7] == 0
            && ReadLe32(h, 8) == |m.payload| % 0x1_0000_0000
  {
    var h, n := HeaderOf(m), |m.payload| % 0x1_0000_0000;
    hide Le32, ReadLe32;
    assert h[0..4] == Le32(MAGIC) && h[8..12] == Le32(n);
    ReadLe32At(h, 0, MAGIC);
    ReadLe32At(h, 8, n);
  }

  function Frame(m: Message): seq<byte>
  {
    HeaderOf(m) + m.payload
  }

  function Frames(ms: seq<Message>): seq<byte>
  {
    if ms == [] then [] else Frame(ms[0]) + Frames(ms[1..])
  }

  lemma {:induction false} FramesAppend(ms: seq<Message>, m: Message)
    ensures Frames(ms + [m]) == Frames(ms) + Frame(m)
  {
    if ms == [] {
      assert ms + [m] == [m];
      assert [m][1..] == [];
      assert Frame(m) + [] == Frame(m) == [] + Frame(m);
    } else {
      hide Frame;
      assert (ms + [m])[1..] == ms[1..] + [m];
      FramesAppend(ms[1..], m);
    }
  }

  predicate Sendable(m: Message)
  {
    |m.payload| <= MAX_PAYLOAD
  }

  /** What a reader that holds the first bytes of the frames of `ms` knows once it has a whole header. */
  lemma HeaderIsNext(ms: seq<Message>, head: seq<byte>, more: seq<byte>)
    requires |head| == HEADER_LEN && head + more <= Frames(ms)
    requires forall m :: m in ms ==> Sendable(m)
    ensures ms != [] && head == HeaderOf(ms[0]) && more <= ms[0].payload + Frames(ms[1..])
    ensures |ms[0].payload| <= MAX_PAYLOAD
    ensures DecodeHeader(head) == FrameHeader(MAGIC, VERSION, ms[0].kind, |ms[0].payload|)
  {
    hide HeaderOf, DecodeHeader;
    assert ms != [] by {
      assert |head + more| >= HEADER_LEN;
    }
    var m := ms[0];
    assert Sendable(m);
    assert |m.payload| <= MAX_PAYLOAD;
    hide Sendable;
    HeaderDecodes(m);
    var all := m.payload + Frames(ms[1..]);
    assert Frames(ms) == HeaderOf(m) + all;
    hide Frames;
    SplitPrefix(head, more, HeaderOf(m), all);
  }

  lemma HeaderDecodes(m: Message)
    ensures DecodeHeader(HeaderOf(m)) == FrameHeader(MAGIC, VERSION, m.kind, |m.payload| % U32_RANGE)
    ensures |m.payload| < U32_RANGE ==> |m.payload| % U32_RANGE == |m.payload|
  {
    hide EncodeHeader, DecodeHeader;
    DecodeHeaderInverse(FrameHeader(MAGIC, VERSION, m.kind, |m.payload| % U32_RANGE));
  }

  lemma SplitPrefix(a: seq<byte>, b: seq<byte>, c: seq<byte>, d: seq<byte>)
    requires |a| == |c| && a + b <= c + d
    ensures a == c && b <= d
  {
    assert a == (a + b)[..|a|] == (c + d)[..|a|] == c;
    assert b == (a + b)[|a|..] <= (c + d)[|a|..] == d;
  }

  // ── Reading a byte stream as frames ───────────────────────────────────────

  datatype Failure = NoFailure | BadFrame | PayloadTooLarge

  function Check(h: FrameHeader): Failure
  {
    if h.magic != MAGIC || h.version != VERSION then BadFrame
    else if h.payloadLen > MAX_PAYLOAD then PayloadTooLarge
    else NoFailure
  }

  datatype Deframed = Deframed(messages: seq<Message>, failure: Failure)

  /** A wrong magic number or version is refused, and a size above 64 MiB; every other header is accepted. */
  lemma CheckRefuses(h: seq<byte>)
    requires |h| == 12
    ensures Check(DecodeHeader(h))
         == if ReadLe32(h, 0) != 0x4152_4349 || h[4] != 1 then BadFrame
            else if ReadLe32(h, 8) > 67108864 then PayloadTooLarge else NoFailure
  {
    hide ReadLe32;
  }

  /** The complete frames at the front of a byte stream, up to the first header that fails its checks. */
  function Deframe(s: seq<byte>): Deframed
    decreases |s|
  {
    if |s| < HEADER_LEN then Deframed([], NoFailure)
    else
      var h := DecodeHeader(s[..HEADER_LEN]);
      if Check(h) != NoFailure then Deframed([], Check(h))
      else if |s| < HEADER_LEN + h.payloadLen then Deframed([], NoFailure)
      else
        var d := Deframe(s[HEADER_LEN + h.payloadLen..]);
        Deframed([Message(h.kind, s[HEADER_LEN..HEADER_LEN + h.payloadLen])] + d.messages, d.failure)
  }

  /** The three ways a stream that starts with a whole header goes on. */
  lemma DeframeAfterHeader(head: seq<byte>, tail: seq<byte>)
    requires |head| == HEADER_LEN
    ensures var h, d := DecodeHeader(head), Deframe(head + tail);
            if Check(h) != NoFailure then d == Deframed([], Check(h))
            else if |tail| < h.payloadLen then d == Deframed([], NoFailure)
            else
              var rest := Deframe(tail[h.payloadLen..]);
              d == Deframed([Message(h.kind, tail[..h.payloadLen])] + rest.messages, rest.failure)
  {
    hide DecodeHeader, Check;
    var s, h := head + tail, DecodeHeader(head);
    assert s[..HEADER_LEN] == head;
    if |tail| >= h.payloadLen {
      var end := HEADER_LEN + h.payloadLen;
      assert s[HEADER_LEN..end] == tail[..h.payloadLen] && s[end..] == tail[h.payloadLen..];
    }
  }

  lemma DeframeFrame(m: Message, rest: seq<byte>)
    requires Sendable(m)
    ensures Deframe(Frame(m) + rest) == Deframed([m] + Deframe(rest).messages, Deframe(rest).failure)
  {
    hide HeaderOf, DecodeHeader, Deframe;
    HeaderDecodes(m);
    var tail := m.payload + rest;
    assert Frame(m) + rest == HeaderOf(m) + tail;
    DeframeAfterHeader(HeaderOf(m), tail);
    assert tail[..|m.payload|] == m.payload && tail[|m.payload|..] == rest;
  }

  /** Framing is undone exactly; a stream cut short yields a prefix of the messages and no error. */
  lemma {:induction false} DeframeInverse(ms: seq<Message>, s: seq<byte>)
    requires forall m :: m in ms ==> Sendable(m)
    requires s <= Frames(ms)
    ensures Deframe(s).failure == NoFailure && Deframe(s).messages <= ms
    ensures s == Frames(ms) ==> Deframe(s).messages == ms
    decreases ms
  {
    if ms != [] {
      var m := ms[0];
      assert Frames(ms) == Frame(m) + Frames(ms[1..]);
      if |s| >= |Frame(m)| {
        var rest := s[|Frame(m)|..];
        assert s == Frame(m) + rest;
        hide Frames, Frame, Deframe, Sendable;
        SplitPrefix(Frame(m), rest, Frame(m), Frames(ms[1..]));
        DeframeInverse(ms[1..], rest);
        DeframeFrame(m, rest);
        assert s == Frames(ms) ==> rest == Frames(ms)[|Frame(m)|..];
      } else if |s| >= HEADER_LEN {
        HeaderIsNext(ms, s[..HEADER_LEN], s[HEADER_LEN..]);
      }
    }
  }
}
