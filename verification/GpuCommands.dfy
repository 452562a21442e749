/**
 The commands of the graphics device as steps on its table of resources, and what every run of
 commands and resets keeps.
 */
module GpuCommands {
  import opened Bytes
  import opened GpuBacking
  import opened GpuTransfer

  const HEADER_LEN := 24
  const INFO_LEN := 408
  const ENTRY_LEN := 16
  const ENTRIES_AT := 32

  const CMD_DISPLAY_INFO: u32 := 0x100
  const CMD_CREATE: u32 := 0x101
  const CMD_UNREF: u32 := 0x102
  const CMD_SET_SCANOUT: u32 := 0x103
  const CMD_FLUSH: u32 := 0x104
  const CMD_TRANSFER: u32 := 0x105
  const CMD_ATTACH: u32 := 0x106
  const CMD_DETACH: u32 := 0x107

  const RESP_OK: u32 := 0x1100
  const RESP_DISPLAY: u32 := 0x1101
  const ERR_UNSPEC: u32 := 0x1200
  const ERR_RESOURCE: u32 := 0x1203

  // ── Requests ──────────────────────────────────────────────────────────────

  /** `Runt` is shorter than a header, `Malformed` unknown or cut short. */
  datatype Command =
    | Runt
    | Malformed
    | DisplayInfo
    | Create(id: u32, format: u32, width: u32, height: u32)
    | Unref(id: u32)
    | SetScanout(scanoutId: u32, id: u32)
    | Flush(id: u32)
    | TransferToHost(r: Rect, offset: u64, id: u32)
    | Attach(id: u32, entries: seq<Entry>)
    | Detach(id: u32)

  /** As many entries as were announced and are there. */
  function EntryCount(len: nat, announced: nat): nat
    requires len >= ENTRIES_AT
  {
    Min(announced, (len - ENTRIES_AT) / ENTRY_LEN)
  }

  function EntryAt(req: seq<byte>, i: nat): Entry
    requires ENTRIES_AT + (i + 1) * ENTRY_LEN <= |req|
  {
    Entry(ReadLe64(req, ENTRIES_AT + i * ENTRY_LEN), ReadLe32(req, ENTRIES_AT + i * ENTRY_LEN + 8))
  }

  function Entries(req: seq<byte>, n: nat): (entries: seq<Entry>)
    requires ENTRIES_AT + n * ENTRY_LEN <= |req|
    ensures |entries| == n
  {
    if n == 0 then [] else Entries(req, n - 1) + [EntryAt(req, n - 1)]
  }

  function Decode(req: seq<byte>): Command
  {
    if |req| < HEADER_LEN then Runt
    else
      var kind := ReadLe32(req, 0);
      if kind == CMD_DISPLAY_INFO then DisplayInfo
      else if kind == CMD_CREATE && |req| >= 40 then
        Create(ReadLe32(req, 24), ReadLe32(req, 28), ReadLe32(req, 32), ReadLe32(req, 36))
      else if kind == CMD_UNREF && |req| >= 32 then Unref(ReadLe32(req, 24))
      else if kind == CMD_SET_SCANOUT && |req| >= 48 then SetScanout(ReadLe32(req, 40), ReadLe32(req, 44))
      else if kind == CMD_FLUSH && |req| >= 48 then Flush(ReadLe32(req, 40))
      else if kind == CMD_TRANSFER && |req| >= 56 then
        TransferToHost(Rect(ReadLe32(req, 24), ReadLe32(req, 28), ReadLe32(req, 32), ReadLe32(req, 36)),
                       ReadLe64(req, 40), ReadLe32(req, 48))
      else if kind == CMD_ATTACH && |req| >= ENTRIES_AT then
        Attach(ReadLe32(req, 24), Entries(req, EntryCount(|req|, ReadLe32(req, 28))))
      else if kind == CMD_DETACH && |req| >= 32 then Detach(ReadLe32(req, 24))
      else Malformed
  }

  // ── State ─────────────────────────────────────────────────────────────────

  datatype Resource = Resource(id: u32, format: u32, width: u32, height: u32, buf: seq<byte>, backing: seq<Entry>)

  datatype Frame = Frame(pixels: seq<byte>, width: u32, height: u32, stride: u32)

  /** `frames` are staged and not yet delivered. */
  datatype State = State(resources: map<u32, Resource>, scanout: u32, frames: seq<Frame>)

  /** Guest RAM from `base` on, and whether anyone takes frames. */
  datatype Env = Env(ram: seq<byte>, base: nat, shown: bool)

  function FrameOf(r: Resource): Frame
  {
    Frame(r.buf, r.width, r.height, Stride(r.width))
  }

  function Blank(c: Command): Resource
    requires c.Create?
  {
    Resource(c.id, c.format, c.width, c.height, Zeros(Area(c.width, c.height)), [])
  }

  /** A buffer that is shorter than it should be is filled up with zeros. */
  function Grown(buf: seq<byte>, size: nat): (r: seq<byte>)
    ensures |r| >= size && |r| >= |buf| && r[..|buf|] == buf && (|buf| >= size ==> r == buf)
    ensures |buf| <= size ==> |r| == size
  {
    if |buf| < size then buf + Zeros(size - |buf|) else buf
  }

  /** A resource after a transfer. */
  function Copied(r: Resource, rect: Rect, offset: nat, env: Env): Resource
    requires |r.buf| <= Area(r.width, r.height)
  {
    r.(buf := Transfer(Grown(r.buf, Area(r.width, r.height)), Flat(r.backing, env.ram, env.base), r.width, r.height, rect, offset))
  }

  datatype Verdict = Silent | Info | Done | Failed(code: u32)

  /** The invariant: keys are ids, buffers and frames have the sizes of what they show. */
  predicate GoodResource(id: u32, r: Resource)
  {
    r.id == id && |r.buf| == Area(r.width, r.height)
  }

  predicate GoodFrame(f: Frame)
  {
    |f.pixels| == Area(f.width, f.height) && f.stride == Stride(f.width)
  }

  predicate Good(s: State)
  {
    && (forall id :: id in s.resources ==> GoodResource(id, s.resources[id]))
    && (forall i :: 0 <= i < |s.frames| ==> GoodFrame(s.frames[i]))
  }

  function Apply(s: State, c: Command, env: Env): (r: (State, Verdict))
    requires Good(s)
  {
    match c
    case Runt => (s, Silent)
    case Malformed => (s, Failed(ERR_UNSPEC))
    case DisplayInfo => (s, Info)
    case Create(id, _, _, _) => (s.(resources := s.resources[id := Blank(c)]), Done)
    case Unref(id) =>
      (s.(resources := s.resources - {id}, scanout := if s.scanout == id then 0 else s.scanout), Done)
    case SetScanout(scanoutId, id) => (if scanoutId == 0 then s.(scanout := id) else s, Done)
    case Flush(id) =>
      if id !in s.resources then (s, Failed(ERR_RESOURCE))
      else if env.shown && id == s.scanout && s.resources[id].buf != [] then
        (s.(frames := s.frames + [FrameOf(s.resources[id])]), Done)
      else (s, Done)
    case TransferToHost(rect, offset, id) =>
      if id !in s.resources then (s, Failed(ERR_RESOURCE))
      else (s.(resources := s.resources[id := Copied(s.resources[id], rect, offset, env)]), Done)
    case Attach(id, entries) =>
      if id !in s.resources then (s, Failed(ERR_RESOURCE))
      else
        var r := s.resources[id];
        (s.(resources := s.resources[id := r.(backing := r.backing + entries)]), Done)
    case Detach(id) =>
      if id !in s.resources then (s, Done)
      else (s.(resources := s.resources[id := s.resources[id].(backing := [])]), Done)
  }

  // ── Responses ─────────────────────────────────────────────────────────────

  function Header(kind: u32, flags: u32, fence: seq<byte>): (h: seq<byte>)
    requires |fence| == 8
    ensures |h| == HEADER_LEN
  {
    Le32(kind) + Le32(flags) + fence + Zeros(8)
  }

  /** A request's fence comes back with success, not with an error. */
  function Fenced(kind: u32, req: seq<byte>): (h: seq<byte>)
    requires |req| >= HEADER_LEN
    ensures |h| == HEADER_LEN
  {
    if ReadLe32(req, 4) % 2 == 1 then Header(kind, 1, req[8..16]) else Header(kind, 0, Zeros(8))
  }

  /** One enabled mode of the device's size, and fifteen empty ones. */
  function InfoBytes(req: seq<byte>, width: u32, height: u32): (s: seq<byte>)
    requires |req| >= HEADER_LEN
    ensures |s| == INFO_LEN
  {
    Fenced(RESP_DISPLAY, req) + Zeros(8) + Le32(width) + Le32(height) + Le32(1) + Zeros(INFO_LEN - HEADER_LEN - 20)
  }

  function Response(v: Verdict, req: seq<byte>, cap: nat, width: u32, height: u32): (resp: seq<byte>)
    requires v != Silent ==> |req| >= HEADER_LEN
  {
    match v
    case Silent => []
    case Info => InfoBytes(req, width, height)[..Min(cap, INFO_LEN)]
    case Done => Fenced(RESP_OK, req)
    case Failed(code) => Header(code, 0, Zeros(8))
  }

  /** A response never exceeds the capacity the device insists on or more. */
  lemma ResponseFits(v: Verdict, req: seq<byte>, cap: nat, width: u32, height: u32)
    requires cap >= HEADER_LEN && (v != Silent ==> |req| >= HEADER_LEN)
    ensures |Response(v, req, cap, width, height)| <= cap
    ensures v == Silent <==> Response(v, req, cap, width, height) == []
    ensures v != Silent ==> Response(v, req, cap, width, height)[..4] ==
                            Le32(match v case Info => RESP_DISPLAY case Failed(code) => code case _ => RESP_OK)
  {
    hide Le32, Zeros;
  }

  // ── Every command keeps the invariant ─────────────────────────────────────

  lemma ApplyKeeps(s: State, c: Command, env: Env)
    requires Good(s)
    ensures Good(Apply(s, c, env).0)
  {
    hide Area, Transfer, Stride;
  }

  // ── Runs of commands, deliveries and resets ───────────────────────────────

  datatype Event = Issue(req: seq<byte>, env: Env) | Deliver | Reset

  datatype History = History(s: State, delivered: seq<Frame>)

  function Fresh(): State
  {
    State(map[], 0, [])
  }

  /** Staged frames are handed over after a register write; a reset forgets everything. */
  function Happen(h: History, e: Event): History
    requires Good(h.s)
  {
    match e
    case Issue(req, env) => h.(s := Apply(h.s, Decode(req), env).0)
    case Deliver => History(h.s.(frames := []), h.delivered + h.s.frames)
    case Reset => h.(s := Fresh())
  }

  /** Delivering hands over all staged frames in order and keeps the table; a reset keeps only what was delivered. */
  lemma WhatHappens(h: History)
    requires Good(h.s)
    ensures Happen(h, Deliver) == History(State(h.s.resources, h.s.scanout, []), h.delivered + h.s.frames)
    ensures Happen(h, Reset) == History(State(map[], 0, []), h.delivered)
  {
  }

  function Play(events: seq<Event>): (h: History)
    ensures Good(h.s)
    decreases events
  {
    if events == [] then History(Fresh(), [])
    else
      var before := Play(events[..|events| - 1]);
      var e := events[|events| - 1];
      if e.Issue? then
        ApplyKeeps(before.s, Decode(e.req), e.env);
        Happen(before, e)
      else Happen(before, e)
  }

  /** Event `i` of a run staged `f`: it flushed the resource that was then the scanout, as it was then. */
  ghost predicate Stages(events: seq<Event>, i: nat, f: Frame)
    requires i < |events|
  {
    var s, e := Play(events[..i]).s, events[i];
    && e.Issue? && e.env.shown && Decode(e.req) == Flush(s.scanout)
    && s.scanout in s.resources && f == FrameOf(s.resources[s.scanout])
  }

  ghost predicate StagedBy(events: seq<Event>, f: Frame)
  {
    exists i :: 0 <= i < |events| && Stages(events, i, f)
  }

  lemma StagedLater(events: seq<Event>, f: Frame)
    requires events != [] && StagedBy(events[..|events| - 1], f)
    ensures StagedBy(events, f)
  {
    var init := events[..|events| - 1];
    var i :| 0 <= i < |init| && Stages(init, i, f);
    assert init[..i] == events[..i] && init[i] == events[i];
    assert Stages(events, i, f);
  }

  /** Every frame staged or delivered in a run came from the scanout at its flush, and has the size it claims. */
  lemma {:induction false} FramesAreTheScanout(events: seq<Event>)
    ensures var h := Play(events);
            && (forall f :: f in h.s.frames ==> StagedBy(events, f) && GoodFrame(f))
            && (forall f :: f in h.delivered ==> StagedBy(events, f) && GoodFrame(f))
    decreases events
  {
    if events != [] {
      var n := |events| - 1;
      var init, e := events[..n], events[n];
      var before, after := Play(init), Play(events);
      FramesAreTheScanout(init);
      assert after == Happen(before, e);
      NewFrame(before.s, e);
      forall f | f in after.s.frames || f in after.delivered ensures StagedBy(events, f) && GoodFrame(f) {
        hide StagedBy, GoodFrame, Play;
        if f in before.s.frames || f in before.delivered {
          StagedLater(events, f);
        } else {
          StagedNow(events, f);
        }
      }
    }
  }

  /** What an event adds to the staged frames. */
  lemma NewFrame(s: State, e: Event)
    requires Good(s)
    ensures e.Issue? ==>
              forall f :: f in Apply(s, Decode(e.req), e.env).0.frames && f !in s.frames ==>
                && e.env.shown && Decode(e.req) == Flush(s.scanout) && s.scanout in s.resources
                && f == FrameOf(s.resources[s.scanout]) && GoodFrame(f)
  {
    hide Decode, Area, Stride;
  }

  lemma StagedNow(events: seq<Event>, f: Frame)
    requires events != []
    requires var s, e := Play(events[..|events| - 1]).s, events[|events| - 1];
             && e.Issue? && e.env.shown && Decode(e.req) == Flush(s.scanout) && s.scanout in s.resources
             && f == FrameOf(s.resources[s.scanout]) && GoodFrame(f)
    ensures StagedBy(events, f) && GoodFrame(f)
  {
    assert Stages(events, |events| - 1, f);
  }

  /** A staged frame has stride times height bytes exactly if the width does not wrap the stride, or it is empty. */
  lemma FrameSize(f: Frame)
    requires GoodFrame(f)
    ensures |f.pixels| == f.stride as int * f.height as int <==> f.width * PIXEL < U32_RANGE || f.height == 0
  {
    AreaByRows(f.width, f.height);
    var row, h := PIXEL * f.width as int, f.height as int;
    assert f.stride as int == row % U32_RANGE;
    hide *;
    if row >= U32_RANGE && h > 0 {
      assert row % U32_RANGE < row;
      LessRows(h, row % U32_RANGE, row);
    }
  }

  lemma LessRows(h: int, a: int, b: int)
    requires 0 < h && a < b
    ensures a * h < b * h && h * a < h * b
  {
  }

  // ── Covering transfers, then a flush ──────────────────────────────────────

  function TransferEach(s: State, id: u32, width: u32, rects: seq<Rect>, env: Env): (s': State)
    requires Good(s) && forall i :: 0 <= i < |rects| ==> OwnOffset(rects[i], width) < U64_RANGE
    ensures Good(s')
    decreases rects
  {
    if rects == [] then s
    else
      var r := rects[|rects| - 1];
      var before := TransferEach(s, id, width, rects[..|rects| - 1], env);
      ApplyKeeps(before, TransferToHost(r, OwnOffset(r, width), id), env);
      Apply(before, TransferToHost(r, OwnOffset(r, width), id), env).0
  }

  lemma {:induction false} TransferEachIs(s: State, id: u32, rects: seq<Rect>, env: Env)
    requires Good(s) && id in s.resources
    requires forall i :: 0 <= i < |rects| ==> OwnOffset(rects[i], s.resources[id].width) < U64_RANGE
    ensures var r := s.resources[id];
            var flat := Flat(r.backing, env.ram, env.base);
            |r.buf| == Area(r.width, r.height) &&
            TransferEach(s, id, r.width, rects, env)
            == s.(resources := s.resources[id := r.(buf := TransferAll(r.buf, flat, r.width, r.height, rects))])
    decreases rects
  {
    var r := s.resources[id];
    assert GoodResource(id, r);
    if rects == [] {
      assert s.resources[id := r] == s.resources;
    } else {
      var init, last := rects[..|rects| - 1], rects[|rects| - 1];
      TransferEachIs(s, id, init, env);
      hide Flat, Transfer, Area, OwnOffset;
      CopyOnce(s, id, TransferAll(r.buf, Flat(r.backing, env.ram, env.base), r.width, r.height, init), last,
               OwnOffset(last, r.width), env);
    }
  }

  lemma CopyOnce(s: State, id: u32, buf: seq<byte>, rect: Rect, offset: u64, env: Env)
    requires Good(s) && id in s.resources && |buf| == Area(s.resources[id].width, s.resources[id].height)
    requires Good(s.(resources := s.resources[id := s.resources[id].(buf := buf)]))
    ensures var r := s.resources[id];
            Apply(s.(resources := s.resources[id := r.(buf := buf)]), TransferToHost(rect, offset, id), env).0
            == s.(resources := s.resources[id :=
                 r.(buf := Transfer(buf, Flat(r.backing, env.ram, env.base), r.width, r.height, rect, offset))])
  {
    var r := s.resources[id];
    assert Grown(buf, |buf|) == buf;
    hide Flat, Transfer, Area, Good;
    assert s.resources[id := r.(buf := buf)][id := r.(buf := Transfer(buf, Flat(r.backing, env.ram, env.base), r.width, r.height, rect, offset))]
           == s.resources[id := r.(buf := Transfer(buf, Flat(r.backing, env.ram, env.base), r.width, r.height, rect, offset))];
  }

  /**
     Transfers that together cover the scanout, each with the offset of its own corner, over a mapped
     backing long enough, and then a flush: the frame staged is exactly the first width*height*4 bytes
     of the backing, whatever the buffer held.
   */
  lemma FlushShowsBacking(s: State, id: u32, rects: seq<Rect>, env: Env)
    requires Good(s) && id in s.resources && s.scanout == id && env.shown
    requires var r := s.resources[id];
             && r.width * PIXEL < U32_RANGE && Tiling(rects, r.width, r.height)
             && 0 < Area(r.width, r.height) <= |Flat(r.backing, env.ram, env.base)|
    requires forall i :: 0 <= i < |rects| ==> OwnOffset(rects[i], s.resources[id].width) < U64_RANGE
    ensures var r := s.resources[id];
            var n := Area(r.width, r.height);
            Apply(TransferEach(s, id, r.width, rects, env), Flush(id), env).0.frames
            == s.frames + [Frame(Flat(r.backing, env.ram, env.base)[..n], r.width, r.height, r.width * PIXEL)]
  {
    var r := s.resources[id];
    var flat := Flat(r.backing, env.ram, env.base);
    TransferEachIs(s, id, rects, env);
    TilingCopiesAll(r.buf, flat, r.width, r.height, rects);
    assert Stride(r.width) == r.width * PIXEL;
    hide TransferEach, TransferAll, Area, Flat, Tiling, OwnOffset, Good;
  }
}
