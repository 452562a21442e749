/**
 What the graphics device does with a request, told from its bytes: command codes and field offsets in
 numbers, the effect on the table of resources, and the bytes of the response.
 */
module GpuRequests {
  import opened Bytes
  import opened GuestMemory
  import opened GpuBacking
  import opened GpuTransfer
  import opened GpuCommands
  import opened VirtioGpu

  /** A response of `cap` bytes at most goes to `at`. */
  predicate Takes(m: Machine, at: nat, cap: nat)
  {
    Good(m.s) && 24 <= cap < 0x1_0000_0000 && at + cap <= |m.ram|
  }

  /** Resource `id` is `r`, and all others are what they were. */
  ghost predicate Sets(was: State, now: State, id: u32, r: Resource)
  {
    && id in now.resources && now.resources[id] == r
    && (forall k :: k != id ==> (k in now.resources <==> k in was.resources))
    && (forall k :: k != id && k in was.resources ==> now.resources[k] == was.resources[k])
  }

  /** Only the response is written, at `at`; it begins with `code` and has flags, fence and zeros behind it. */
  ghost predicate Answers(m: Machine, r: (Machine, u32), at: nat, code: u32, flags: u32, fence: seq<byte>)
  {
    && r.1 == 24 && at + 24 <= |m.ram| == |r.0.ram|
    && ReadLe32(r.0.ram, at) == code && ReadLe32(r.0.ram, at + 4) == flags && r.0.ram[at + 8..at + 16] == fence
    && r.0.ram[at + 16..at + 24] == Zeros(8)
    && (forall x :: 0 <= x < |m.ram| && !(at <= x < at + 24) ==> r.0.ram[x] == m.ram[x])
  }

  /** Success: a request with the fence flag gets its fence back. */
  ghost predicate Succeeds(m: Machine, r: (Machine, u32), at: nat, req: seq<byte>)
    requires |req| >= 24
  {
    if ReadLe32(req, 4) % 2 == 1 then Answers(m, r, at, 0x1100, 1, req[8..16]) else Answers(m, r, at, 0x1100, 0, Zeros(8))
  }

  ghost predicate Fails(m: Machine, r: (Machine, u32), at: nat, code: u32)
  {
    r.0.s == m.s && Answers(m, r, at, code, 0, Zeros(8))
  }

  // ── Responses ─────────────────────────────────────────────────────────────

  lemma ResponseWritten(cfg: Config, m: Machine, req: seq<byte>, at: nat, cap: nat)
    requires Takes(m, at, cap) && |req| >= 24
    ensures var env := Env(m.ram, cfg.base, cfg.shown);
            var (s, v) := Apply(m.s, Decode(req), env);
            var r := Execute(cfg, m, req, at, cap);
            && r.0.s == s
            && (v == Done ==> Succeeds(m, r, at, req))
            && (v.Failed? ==> Answers(m, r, at, v.code, 0, Zeros(8)))
  {
    var env := Env(m.ram, cfg.base, cfg.shown);
    var (s, v) := Apply(m.s, Decode(req), env);
    var r := Execute(cfg, m, req, at, cap);
    VerdictOf(m.s, req, env);
    hide Apply, Decode, Execute, Good, Answers, Header;
    if v == Done {
      ExecuteIs(cfg, m, req, at, cap);
      if ReadLe32(req, 4) % 2 == 1 {
        Answered(m, r, at, 0x1100, 1, req[8..16]);
      } else {
        Answered(m, r, at, 0x1100, 0, Zeros(8));
      }
    } else if v.Failed? {
      ExecuteIs(cfg, m, req, at, cap);
      Answered(m, r, at, v.code, 0, Zeros(8));
    } else {
      ExecuteIs(cfg, m, req, at, cap);
    }
  }

  lemma ExecuteIs(cfg: Config, m: Machine, req: seq<byte>, at: nat, cap: nat)
    requires Takes(m, at, cap) && |req| >= 24
    ensures var (s, v) := Apply(m.s, Decode(req), Env(m.ram, cfg.base, cfg.shown));
            var resp := Response(v, req, cap, cfg.width, cfg.height);
            at + |resp| <= |m.ram| && |resp| <= cap && Execute(cfg, m, req, at, cap) == (Machine(s, Splice(m.ram, at, resp)), |resp|)
  {
    var (s, v) := Apply(m.s, Decode(req), Env(m.ram, cfg.base, cfg.shown));
    ResponseFits(v, req, cap, cfg.width, cfg.height);
    hide Apply, Decode, Response, Good;
  }

  lemma Answered(m: Machine, r: (Machine, u32), at: nat, code: u32, flags: u32, fence: seq<byte>)
    requires |fence| == 8 && at + 24 <= |m.ram| && r.1 == 24
    requires r.0.ram == Splice(m.ram, at, Header(code, flags, fence))
    ensures Answers(m, r, at, code, flags, fence)
  {
    var ram, h := r.0.ram, Header(code, flags, fence);
    assert ram[at..at + 24] == h;
    HeaderSlices(h, Le32(code), Le32(flags), fence, Zeros(8));
    hide Splice, Header, Le32, ReadLe32;
    assert ram[at..at + 4] == h[0..4] && ram[at + 4..at + 8] == h[4..8];
    assert ram[at + 8..at + 16] == h[8..16] && ram[at + 16..at + 24] == h[16..24];
    ReadLe32At(ram, at, code);
    ReadLe32At(ram, at + 4, flags);
  }

  lemma HeaderSlices(h: seq<byte>, a: seq<byte>, b: seq<byte>, c: seq<byte>, d: seq<byte>)
    requires |a| == |b| == 4 && |c| == |d| == 8 && h == a + b + c + d
    ensures h[0..4] == a && h[4..8] == b && h[8..16] == c && h[16..24] == d
  {
  }

  // ── The commands ──────────────────────────────────────────────────────────

  /** RESOURCE_CREATE_2D: id, format, width and height; the resource starts blank and without backing. */
  lemma CreateRequest(cfg: Config, m: Machine, req: seq<byte>, at: nat, cap: nat)
    requires Takes(m, at, cap) && |req| >= 40 && ReadLe32(req, 0) == 0x101
    ensures var r := Execute(cfg, m, req, at, cap);
            var id, w, h := ReadLe32(req, 24), ReadLe32(req, 32), ReadLe32(req, 36);
            && Succeeds(m, r, at, req)
            && Sets(m.s, r.0.s, id, Resource(id, ReadLe32(req, 28), w, h, Zeros(w as int * h as int * 4), []))
            && r.0.s.scanout == m.s.scanout && r.0.s.frames == m.s.frames
  {
    hide ReadLe32, ReadLe64, Good, Succeeds, Execute;
    ResponseWritten(cfg, m, req, at, cap);
  }

  /** RESOURCE_UNREF: the resource is gone, and no longer the scanout. */
  lemma UnrefRequest(cfg: Config, m: Machine, req: seq<byte>, at: nat, cap: nat)
    requires Takes(m, at, cap) && |req| >= 32 && ReadLe32(req, 0) == 0x102
    ensures var r, id := Execute(cfg, m, req, at, cap), ReadLe32(req, 24);
            && Succeeds(m, r, at, req) && id !in r.0.s.resources && r.0.s.frames == m.s.frames
            && (forall k :: k != id ==> (k in r.0.s.resources <==> k in m.s.resources))
            && (forall k :: k in r.0.s.resources ==> r.0.s.resources[k] == m.s.resources[k])
            && r.0.s.scanout == if m.s.scanout == id then 0 else m.s.scanout
  {
    hide ReadLe32, ReadLe64, Good, Succeeds, Execute;
    ResponseWritten(cfg, m, req, at, cap);
  }

  /** SET_SCANOUT: scanout 0 shows the resource from now on; other scanouts do not exist. */
  lemma ScanoutRequest(cfg: Config, m: Machine, req: seq<byte>, at: nat, cap: nat)
    requires Takes(m, at, cap) && |req| >= 48 && ReadLe32(req, 0) == 0x103
    ensures var r := Execute(cfg, m, req, at, cap);
            && Succeeds(m, r, at, req) && r.0.s.resources == m.s.resources && r.0.s.frames == m.s.frames
            && r.0.s.scanout == if ReadLe32(req, 40) == 0 then ReadLe32(req, 44) else m.s.scanout
  {
    hide ReadLe32, ReadLe64, Good, Succeeds, Execute;
    ResponseWritten(cfg, m, req, at, cap);
  }

  /** RESOURCE_FLUSH: of the scanout, if anyone looks, the buffer is staged as it is, with four bytes to a pixel. */
  lemma FlushRequest(cfg: Config, m: Machine, req: seq<byte>, at: nat, cap: nat)
    requires Takes(m, at, cap) && |req| >= 48 && ReadLe32(req, 0) == 0x104
    ensures var r, id := Execute(cfg, m, req, at, cap), ReadLe32(req, 40);
            if id !in m.s.resources then Fails(m, r, at, 0x1203)
            else
              var res := m.s.resources[id];
              && Succeeds(m, r, at, req) && r.0.s.resources == m.s.resources && r.0.s.scanout == m.s.scanout
              && r.0.s.frames
                 == if cfg.shown && id == m.s.scanout && res.buf != []
                    then m.s.frames + [Frame(res.buf, res.width, res.height, res.width as int * 4 % 0x1_0000_0000)]
                    else m.s.frames
  {
    hide ReadLe32, ReadLe64, Good, Succeeds, Execute;
    ResponseWritten(cfg, m, req, at, cap);
  }

  /** TRANSFER_TO_HOST_2D: rectangle, offset and id; the buffer receives the rectangle from the backing. */
  lemma TransferRequest(cfg: Config, m: Machine, req: seq<byte>, at: nat, cap: nat)
    requires Takes(m, at, cap) && |req| >= 56 && ReadLe32(req, 0) == 0x105
    ensures var r, id := Execute(cfg, m, req, at, cap), ReadLe32(req, 48);
            if id !in m.s.resources then Fails(m, r, at, 0x1203)
            else
              var res := m.s.resources[id];
              var rect := Rect(ReadLe32(req, 24), ReadLe32(req, 28), ReadLe32(req, 32), ReadLe32(req, 36));
              && Succeeds(m, r, at, req) && r.0.s.scanout == m.s.scanout && r.0.s.frames == m.s.frames
              && |res.buf| == Area(res.width, res.height)
              && Sets(m.s, r.0.s, id, res.(buf := Transfer(res.buf, Flat(res.backing, m.ram, cfg.base), res.width, res.height,
                                                           rect, ReadLe64(req, 40))))
  {
    var id, env := ReadLe32(req, 48), Env(m.ram, cfg.base, cfg.shown);
    var rect := Rect(ReadLe32(req, 24), ReadLe32(req, 28), ReadLe32(req, 32), ReadLe32(req, 36));
    assert Decode(req) == TransferToHost(rect, ReadLe64(req, 40), id) by { hide ReadLe32, ReadLe64; }
    Transferred(m.s, rect, ReadLe64(req, 40), id, env);
    hide ReadLe32, ReadLe64, Good, Succeeds, Execute, Decode, Apply, Area, Flat, Transfer;
    ResponseWritten(cfg, m, req, at, cap);
  }

  lemma Transferred(s: State, rect: Rect, offset: u64, id: u32, env: Env)
    requires Good(s)
    ensures id !in s.resources ==> Apply(s, TransferToHost(rect, offset, id), env) == (s, Failed(0x1203))
    ensures id in s.resources ==>
              var r := s.resources[id];
              && |r.buf| == Area(r.width, r.height)
              && Apply(s, TransferToHost(rect, offset, id), env)
                 == (s.(resources := s.resources[id := r.(buf := Transfer(r.buf, Flat(r.backing, env.ram, env.base), r.width, r.height, rect, offset))]), Done)
  {
    if id in s.resources {
      var r := s.resources[id];
      assert GoodResource(id, r);
      assert Grown(r.buf, Area(r.width, r.height)) == r.buf;
    }
    hide Good, Area, Flat, Transfer, Grown;
  }

  /** RESOURCE_ATTACH_BACKING: the entries there are, up to the number announced, are appended to the backing. */
  lemma AttachRequest(cfg: Config, m: Machine, req: seq<byte>, at: nat, cap: nat) returns (entries: seq<Entry>)
    requires Takes(m, at, cap) && |req| >= 32 && ReadLe32(req, 0) == 0x106
    ensures Listed(req, entries)
    ensures var r, id := Execute(cfg, m, req, at, cap), ReadLe32(req, 24);
            if id !in m.s.resources then Fails(m, r, at, 0x1203)
            else
              && Succeeds(m, r, at, req) && r.0.s.scanout == m.s.scanout && r.0.s.frames == m.s.frames
              && Sets(m.s, r.0.s, id, m.s.resources[id].(backing := m.s.resources[id].backing + entries))
  {
    var id, announced := ReadLe32(req, 24), ReadLe32(req, 28);
    entries := Entries(req, EntryCount(|req|, announced));
    EntriesListed(req, announced);
    assert Decode(req) == Attach(id, entries) by { hide ReadLe32, ReadLe64, EntryCount, Entries; }
    Attached(m.s, id, entries, Env(m.ram, cfg.base, cfg.shown));
    hide ReadLe32, ReadLe64, Good, Succeeds, Execute, Listed, Entries, EntryCount, Decode, Apply;
    ResponseWritten(cfg, m, req, at, cap);
  }

  lemma Attached(s: State, id: u32, entries: seq<Entry>, env: Env)
    requires Good(s)
    ensures id !in s.resources ==> Apply(s, Attach(id, entries), env) == (s, Failed(0x1203))
    ensures id in s.resources ==>
              var r := s.resources[id];
              Apply(s, Attach(id, entries), env) == (s.(resources := s.resources[id := r.(backing := r.backing + entries)]), Done)
  {
    hide Good;
  }

  /** The entries of a request: sixteen bytes each, an address and a length, from offset 32 on. */
  ghost predicate Listed(req: seq<byte>, entries: seq<Entry>)
  {
    && |req| >= 32 && |entries| == Min(ReadLe32(req, 28), (|req| - 32) / 16)
    && forall i :: 0 <= i < |entries| ==>
         40 + 16 * i + 8 <= |req| && entries[i] == Entry(ReadLe64(req, 32 + 16 * i), ReadLe32(req, 40 + 16 * i))
  }

  lemma EntriesListed(req: seq<byte>, announced: u32)
    requires |req| >= 32 && announced == ReadLe32(req, 28)
    ensures Listed(req, Entries(req, EntryCount(|req|, announced)))
  {
    var n := EntryCount(|req|, announced);
    hide ReadLe32, ReadLe64;
    forall i | 0 <= i < n
      ensures 40 + 16 * i + 8 <= |req| && Entries(req, n)[i] == Entry(ReadLe64(req, 32 + 16 * i), ReadLe32(req, 40 + 16 * i))
    {
      EntryListed(req, n, i);
    }
  }

  lemma {:induction false} EntryListed(req: seq<byte>, n: nat, i: nat)
    requires ENTRIES_AT + n * ENTRY_LEN <= |req| && i < n
    ensures 48 + 16 * i <= |req| && Entries(req, n)[i] == Entry(ReadLe64(req, 32 + 16 * i), ReadLe32(req, 40 + 16 * i))
    decreases n
  {
    if i < n - 1 {
      EntryListed(req, n - 1, i);
    }
  }

  /** RESOURCE_DETACH_BACKING: the backing is emptied. */
  lemma DetachRequest(cfg: Config, m: Machine, req: seq<byte>, at: nat, cap: nat)
    requires Takes(m, at, cap) && |req| >= 32 && ReadLe32(req, 0) == 0x107
    ensures var r, id := Execute(cfg, m, req, at, cap), ReadLe32(req, 24);
            && Succeeds(m, r, at, req) && r.0.s.scanout == m.s.scanout && r.0.s.frames == m.s.frames
            && if id in m.s.resources then Sets(m.s, r.0.s, id, m.s.resources[id].(backing := [])) else r.0.s == m.s
  {
    hide ReadLe32, ReadLe64, Good, Succeeds, Execute;
    ResponseWritten(cfg, m, req, at, cap);
  }

  /** How long each command's request is at least. */
  function Least(kind: u32): nat
  {
    if kind == 0x101 then 40 else if kind in {0x102, 0x106, 0x107} then 32
    else if kind in {0x103, 0x104} then 48 else if kind == 0x105 then 56 else 24
  }

  /** A request cut short, or of an unknown command, is refused; one shorter than a header is not answered at all. */
  lemma BadRequest(cfg: Config, m: Machine, req: seq<byte>, at: nat, cap: nat)
    requires Takes(m, at, cap)
    requires |req| < 24 || ReadLe32(req, 0) !in {0x100, 0x101, 0x102, 0x103, 0x104, 0x105, 0x106, 0x107} || |req| < Least(ReadLe32(req, 0))
    ensures var r := Execute(cfg, m, req, at, cap);
            if |req| < 24 then r == (m, 0) else Fails(m, r, at, 0x1200)
  {
    if |req| < 24 {
      ShortRequest(cfg, m, req, at, cap);
    } else {
      hide ReadLe32, ReadLe64, Good, Execute;
      ResponseWritten(cfg, m, req, at, cap);
    }
  }

  lemma ShortRequest(cfg: Config, m: Machine, req: seq<byte>, at: nat, cap: nat)
    requires Takes(m, at, cap) && |req| < 24
    ensures Execute(cfg, m, req, at, cap) == (m, 0)
  {
    assert Splice(m.ram, at, []) == m.ram;
  }

  /** The 408 bytes of the display information: one enabled mode of the device's size at the origin, no others. */
  ghost predicate InfoAt(s: seq<byte>, req: seq<byte>, width: u32, height: u32)
  {
    && |s| == 408 && |req| >= 24 && s[0..4] == Le32(0x1101)
    && (if ReadLe32(req, 4) % 2 == 1 then s[4..8] == Le32(1) && s[8..16] == req[8..16] else s[4..8] == Le32(0) && s[8..16] == Zeros(8))
    && s[32..36] == Le32(width) && s[36..40] == Le32(height) && s[40..44] == Le32(1)
    && (forall i :: 16 <= i < 32 || 44 <= i < 408 ==> s[i] == 0)
  }

  /** As much of `info` as the response buffer takes is written at `at`, and nothing else. */
  ghost predicate Informs(m: Machine, r: (Machine, u32), at: nat, cap: nat, info: seq<byte>)
  {
    && r.0.s == m.s && |r.0.ram| == |m.ram| && r.1 == Min(cap, |info|) && at + r.1 <= |m.ram|
    && r.0.ram[at..at + r.1] == info[..r.1]
    && (forall x :: 0 <= x < |m.ram| && !(at <= x < at + r.1) ==> r.0.ram[x] == m.ram[x])
  }

  /** GET_DISPLAY_INFO. */
  lemma InfoRequest(cfg: Config, m: Machine, req: seq<byte>, at: nat, cap: nat) returns (info: seq<byte>)
    requires Takes(m, at, cap) && |req| >= 24 && ReadLe32(req, 0) == 0x100
    ensures InfoAt(info, req, cfg.width, cfg.height) && Informs(m, Execute(cfg, m, req, at, cap), at, cap, info)
  {
    info := InfoBytes(req, cfg.width, cfg.height);
    InfoSlices(req, cfg.width, cfg.height);
    ExecuteIs(cfg, m, req, at, cap);
    assert Apply(m.s, Decode(req), Env(m.ram, cfg.base, cfg.shown)) == (m.s, Info) by { hide ReadLe32, Good; }
    hide Execute, InfoBytes, InfoAt, Decode, Apply, ReadLe32;
  }

  lemma InfoSlices(req: seq<byte>, width: u32, height: u32)
    requires |req| >= 24
    ensures InfoAt(InfoBytes(req, width, height), req, width, height)
  {
    var info, fenced := InfoBytes(req, width, height), ReadLe32(req, 4) % 2 == 1;
    var flags, fence := Le32(if fenced then 1 else 0), if fenced then req[8..16] else Zeros(8);
    assert info == (Le32(0x1101) + flags + fence + Zeros(8)) + Zeros(8) + Le32(width) + Le32(height) + Le32(1) + Zeros(364);
    hide Le32, ReadLe32, InfoBytes;
    EightSlices(info, Le32(0x1101), flags, fence, Zeros(8), Zeros(8), Le32(width), Le32(height), Le32(1), Zeros(364));
  }

  lemma EightSlices(s: seq<byte>, a: seq<byte>, b: seq<byte>, c: seq<byte>, z: seq<byte>, y: seq<byte>, w: seq<byte>,
      h: seq<byte>, one: seq<byte>, rest: seq<byte>)
    requires |a| == |b| == |w| == |h| == |one| == 4 && |c| == |z| == |y| == 8 && z == y == Zeros(8) && rest == Zeros(364)
    requires s == (a + b + c + z) + y + w + h + one + rest
    ensures |s| == 408 && s[0..4] == a && s[4..8] == b && s[8..16] == c && s[32..36] == w && s[36..40] == h && s[40..44] == one
    ensures forall i :: 16 <= i < 32 || 44 <= i < 408 ==> s[i] == 0
  {
    var head := a + b + c + z;
    assert s[..24] == head && s[24..32] == y && s[44..] == rest;
    assert head[16..24] == z;
    assert forall i :: 0 <= i < 24 ==> s[i] == head[i];
    assert forall i :: 16 <= i < 24 ==> s[i] == head[16..24][i - 16];
    assert forall i :: 24 <= i < 32 ==> s[i] == s[24..32][i - 24];
    assert forall i :: 44 <= i < 408 ==> s[i] == s[44..][i - 44];
    assert s[0..4] == head[0..4] && s[4..8] == head[4..8] && s[8..16] == head[8..16];
  }

  // ── The chain of a request ────────────────────────────────────────────────

  /** The usual chain: a request the device reads, and behind it a buffer for the response, both in RAM. */
  predicate Usual(cfg: Config, size: nat, a: u16, b: u16)
  {
    && TableOk(cfg.desc) && a < 256 && b < 256 && Linked(cfg.desc, [a as nat, b as nat])
    && var x, y, base := cfg.desc[a], cfg.desc[b], cfg.base;
       && x.flags / 2 % 2 == 0 && y.flags / 2 % 2 == 1 && x.len > 0 && y.len >= 24
       && base <= x.addr && x.addr as int + x.len as int <= base + size
       && base <= y.addr && y.addr as int + y.len as int <= base + size
  }

  function RequestIn(cfg: Config, ram: seq<byte>, a: u16, b: u16): seq<byte>
    requires Usual(cfg, |ram|, a, b)
  {
    var at := cfg.desc[a].addr as int - cfg.base; ram[at..at + cfg.desc[a].len]
  }

  lemma UsualChain(cfg: Config, m: Machine, a: u16, b: u16)
    requires Good(m.s) && Usual(cfg, |m.ram|, a, b)
    requires CommandOk(m.s, Decode(RequestIn(cfg, m.ram, a, b)), cfg.base, |m.ram|)
    ensures Sensible(cfg, m, a) && cfg.desc[b].addr as int - cfg.base + cfg.desc[b].len as int <= |m.ram|
    ensures Request(cfg, m, a)
            == Execute(cfg, m, RequestIn(cfg, m.ram, a, b), cfg.desc[b].addr as int - cfg.base, cfg.desc[b].len)
  {
    UsualParts(cfg, m.ram, a, b);
    hide Execute, Good, CommandOk, Decode, RequestIn, ReplyTo, RequestOf, ChainOk, Linked;
  }

  lemma UsualParts(cfg: Config, ram: seq<byte>, a: u16, b: u16)
    requires Usual(cfg, |ram|, a, b)
    ensures ChainOk(cfg, |ram|, a) && RequestOf(cfg, ram, a) == RequestIn(cfg, ram, a, b) && |RequestIn(cfg, ram, a, b)| > 0
    ensures ReplyTo(cfg, |ram|, a) == Some(b as nat)
  {
    var path, x := [a as nat, b as nat], cfg.desc[a];
    LinkedFollows(cfg.desc, path, 63);
    assert Walk(cfg.desc, a) == path && path[1..] == [b as nat] && path[1..][1..] == [];
    assert Readable(cfg.desc, cfg.base, ram, [b as nat]) == [];
    assert Readable(cfg.desc, cfg.base, ram, path) == RequestIn(cfg, ram, a, b);
    LastWritableIs(cfg.desc, cfg.base, |ram|, path, 1);
    hide Readable, LastWritable, Follow, Linked;
  }

  /** The bytes of a buffer the device reads, if it is mapped. */
  function RequestBytes(d: Desc, base: nat, ram: seq<byte>): seq<byte>
    requires Whole(d, base, |ram|)
  {
    var at := d.addr as int - base;
    if d.flags / 2 % 2 == 0 && 0 <= at < |ram| then ram[at..at + d.len] else []
  }

  /** A request's bytes begin with those of its first buffer, and stop in front of a buffer that is not mapped. */
  lemma ReadableFirst(desc: seq<Desc>, base: nat, ram: seq<byte>, path: seq<nat>)
    requires TableOk(desc) && IsPath(path) && AllWhole(desc, base, |ram|, path)
    ensures path == [] ==> Readable(desc, base, ram, path) == []
    ensures path != [] ==>
              && Whole(desc[path[0]], base, |ram|) && IsPath(path[1..]) && AllWhole(desc, base, |ram|, path[1..])
              && Readable(desc, base, ram, path)
                 == if base <= desc[path[0]].addr < base + |ram|
                    then RequestBytes(desc[path[0]], base, ram) + Readable(desc, base, ram, path[1..]) else []
  {
    assert path != [] ==> Whole(desc[path[0]], base, |ram|);
  }

  /** The response goes to the last buffer the device may write, before the first that is not mapped. */
  lemma {:induction false} LastWritableIs(desc: seq<Desc>, base: nat, size: nat, path: seq<nat>, i: nat)
    requires TableOk(desc) && IsPath(path) && i < |path| && desc[path[i]].flags / 2 % 2 == 1
    requires forall j :: 0 <= j <= i ==> base <= desc[path[j]].addr < base + size
    requires forall j :: i < j < |path| ==> desc[path[j]].flags / 2 % 2 == 0
    ensures LastWritable(desc, base, size, path) == Some(path[i])
    decreases path
  {
    if i > 0 {
      LastWritableIs(desc, base, size, path[1..], i - 1);
    } else {
      NoneWritable(desc, base, size, path[1..]);
    }
  }

  lemma {:induction false} NoneWritable(desc: seq<Desc>, base: nat, size: nat, path: seq<nat>)
    requires TableOk(desc) && IsPath(path)
    requires forall j :: 0 <= j < |path| ==> desc[path[j]].flags / 2 % 2 == 0
    ensures LastWritable(desc, base, size, path) == None
    decreases path
  {
    if path != [] {
      NoneWritable(desc, base, size, path[1..]);
    }
  }
}
