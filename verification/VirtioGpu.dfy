/**
 The graphics device: requests are gathered from descriptor chains of at most 64 steps, carried out on
 the table of resources, and answered into the last buffer the device may write.
 */
module VirtioGpu {
  import opened Bytes
  import opened GuestMemory
  import opened GpuBacking
  import opened GpuTransfer
  import opened GpuCommands
  import VirtQueue

  const MAX_STEPS := 64

  // ── Gathering a request ───────────────────────────────────────────────────

  /** What the bounded walk looks at, cycles or not. */
  function Walk(desc: seq<Desc>, head: nat): (path: seq<nat>)
    requires TableOk(desc) && head < TABLE_SIZE
    ensures 1 <= |path| <= MAX_STEPS && path[0] == head && IsPath(path)
  {
    Follow(desc, head, MAX_STEPS - 1)
  }

  /** The bytes of the buffers the device reads, up to the first buffer that is not mapped. */
  function Readable(desc: seq<Desc>, base: nat, ram: seq<byte>, path: seq<nat>): seq<byte>
    requires TableOk(desc) && IsPath(path) && AllWhole(desc, base, |ram|, path)
    decreases path
  {
    if path == [] || !Maps(base, |ram|, desc[path[0]].addr) then []
    else Piece(desc[path[0]], base, ram) + Readable(desc, base, ram, path[1..])
  }

  function Piece(d: Desc, base: nat, ram: seq<byte>): seq<byte>
    requires Maps(base, |ram|, d.addr) && Whole(d, base, |ram|)
  {
    if DeviceWrites(d) then [] else ram[d.addr as int - base..d.addr as int - base + d.len]
  }

  /** The last buffer the device may write, up to the first that is not mapped. */
  function LastWritable(desc: seq<Desc>, base: nat, size: nat, path: seq<nat>): (d: Option<nat>)
    requires TableOk(desc) && IsPath(path)
    ensures d.Some? ==> d.value < TABLE_SIZE && d.value in path && Maps(base, size, desc[d.value].addr)
    decreases path
  {
    if path == [] || !Maps(base, size, desc[path[0]].addr) then None
    else OrElse(LastWritable(desc, base, size, path[1..]), if DeviceWrites(desc[path[0]]) then Some(path[0]) else None)
  }

  function OrElse(a: Option<nat>, b: Option<nat>): Option<nat>
  {
    if a.Some? then a else b
  }

  // ── One request ───────────────────────────────────────────────────────────

  datatype Config = Config(desc: seq<Desc>, base: nat, shown: bool, width: u32, height: u32)

  datatype Machine = Machine(s: State, ram: seq<byte>)

  /** Assumed of a request: buffers wholly in RAM, sizes and offsets that do not wrap at 64 bits. */
  predicate CommandOk(s: State, c: Command, base: nat, size: nat)
  {
    match c
    case Create(_, _, width, height) => Area(width, height) < U64_RANGE
    case TransferToHost(r, offset, id) =>
      id in s.resources ==>
        && BackingOk(s.resources[id].backing, base, size)
        && offset as int + Area(s.resources[id].width, s.resources[id].height) < U64_RANGE
    case _ => true
  }

  predicate ChainOk(cfg: Config, size: nat, head: u16)
  {
    && TableOk(cfg.desc) && head < TABLE_SIZE
    && AllWhole(cfg.desc, cfg.base, size, Walk(cfg.desc, head))
  }

  function RequestOf(cfg: Config, ram: seq<byte>, head: u16): seq<byte>
    requires ChainOk(cfg, |ram|, head)
  {
    Readable(cfg.desc, cfg.base, ram, Walk(cfg.desc, head))
  }

  function ReplyTo(cfg: Config, size: nat, head: u16): (d: Option<nat>)
    requires ChainOk(cfg, size, head)
    ensures d.Some? ==> d.value < |cfg.desc| && Maps(cfg.base, size, cfg.desc[d.value].addr) && Whole(cfg.desc[d.value], cfg.base, size)
  {
    var path := Walk(cfg.desc, head);
    var d := LastWritable(cfg.desc, cfg.base, size, path);
    if d.Some? then
      assert exists i :: 0 <= i < |path| && path[i] == d.value;
      d
    else d
  }

  /** A request is carried out only if there is one and its response fits a header at least. */
  predicate Answers(cfg: Config, ram: seq<byte>, head: u16)
    requires ChainOk(cfg, |ram|, head)
  {
    var d := ReplyTo(cfg, |ram|, head);
    RequestOf(cfg, ram, head) != [] && d.Some? && cfg.desc[d.value].len >= HEADER_LEN
  }

  predicate Sensible(cfg: Config, m: Machine, head: u16)
  {
    && Good(m.s) && ChainOk(cfg, |m.ram|, head)
    && (Answers(cfg, m.ram, head) ==> CommandOk(m.s, Decode(RequestOf(cfg, m.ram, head)), cfg.base, |m.ram|))
  }

  /** A command carried out and answered. */
  function Execute(cfg: Config, m: Machine, req: seq<byte>, at: nat, cap: nat): (r: (Machine, u32))
    requires Good(m.s) && cap >= HEADER_LEN && at + cap <= |m.ram| && cap < U32_RANGE
    ensures Good(r.0.s) && |r.0.ram| == |m.ram| && r.1 <= cap
  {
    var env := Env(m.ram, cfg.base, cfg.shown);
    var (s, v) := Apply(m.s, Decode(req), env);
    VerdictOf(m.s, req, env);
    ApplyKeeps(m.s, Decode(req), env);
    ResponseFits(v, req, cap, cfg.width, cfg.height);
    var resp := Response(v, req, cap, cfg.width, cfg.height);
    (Machine(s, Splice(m.ram, at, resp)), |resp|)
  }

  lemma VerdictOf(s: State, req: seq<byte>, env: Env)
    requires Good(s)
    ensures Apply(s, Decode(req), env).1 == Silent <==> |req| < GpuCommands.HEADER_LEN
  {
    hide Entries, Copied, Area, Stride;
  }

  function Request(cfg: Config, m: Machine, head: u16): (r: (Machine, u32))
    requires Sensible(cfg, m, head)
    ensures Good(r.0.s) && |r.0.ram| == |m.ram|
  {
    if Answers(cfg, m.ram, head) then
      var d := cfg.desc[ReplyTo(cfg, |m.ram|, head).value];
      Execute(cfg, m, RequestOf(cfg, m.ram, head), d.addr as int - cfg.base, d.len)
    else (m, 0)
  }

  /** The length reported never exceeds the buffer it speaks of. */
  lemma ReportedFits(cfg: Config, m: Machine, head: u16)
    requires Sensible(cfg, m, head)
    ensures var len := Request(cfg, m, head).1;
            len == 0 || (ReplyTo(cfg, |m.ram|, head).Some? && len <= cfg.desc[ReplyTo(cfg, |m.ram|, head).value].len)
  {
    hide Execute, RequestOf, ReplyTo, ChainOk;
  }

  // ── A drain ───────────────────────────────────────────────────────────────

  datatype Drained = Drained(m: Machine, lens: seq<u32>)

  predicate AllSensible(cfg: Config, m: Machine, heads: seq<u16>)
    decreases heads
  {
    heads != [] ==> Sensible(cfg, m, heads[0]) && AllSensible(cfg, Request(cfg, m, heads[0]).0, heads[1..])
  }

  function Drain(cfg: Config, m: Machine, heads: seq<u16>): (d: Drained)
    requires AllSensible(cfg, m, heads)
    ensures |d.lens| == |heads| && |d.m.ram| == |m.ram|
    decreases heads
  {
    if heads == [] then Drained(m, [])
    else
      var r := Request(cfg, m, heads[0]);
      var d := Drain(cfg, r.0, heads[1..]);
      Drained(d.m, [r.1] + d.lens)
  }

  /** A drain that has served `n` chains, with lengths `lens`, and has the rest to go. */
  ghost predicate Resumed(cfg: Config, was: Machine, heads: seq<u16>, lens: seq<u32>, now: Machine)
  {
    && |lens| <= |heads| && AllSensible(cfg, was, heads) && AllSensible(cfg, now, heads[|lens|..])
    && |now.ram| == |was.ram|
    && var rest := Drain(cfg, now, heads[|lens|..]);
       Drain(cfg, was, heads) == Drained(rest.m, lens + rest.lens)
  }

  lemma ResumedStart(cfg: Config, was: Machine, heads: seq<u16>)
    requires AllSensible(cfg, was, heads)
    ensures Resumed(cfg, was, heads, [], was)
  {
    var d := Drain(cfg, was, heads);
    assert heads[0..] == heads && [] + d.lens == d.lens;
  }

  lemma ResumedNext(cfg: Config, was: Machine, heads: seq<u16>, lens: seq<u32>, now: Machine)
    requires Resumed(cfg, was, heads, lens, now) && |lens| < |heads|
    ensures Sensible(cfg, now, heads[|lens|])
    ensures var r := Request(cfg, now, heads[|lens|]); Resumed(cfg, was, heads, lens + [r.1], r.0)
  {
    hide Request, Sensible;
    var rest := heads[|lens|..];
    assert rest[0] == heads[|lens|] && rest[1..] == heads[|lens| + 1..];
    var r := Request(cfg, now, rest[0]);
    var more := Drain(cfg, r.0, rest[1..]).lens;
    assert lens + ([r.1] + more) == (lens + [r.1]) + more;
  }

  lemma ResumedEnd(cfg: Config, was: Machine, heads: seq<u16>, lens: seq<u32>, now: Machine)
    requires Resumed(cfg, was, heads, lens, now) && |lens| == |heads|
    ensures Drain(cfg, was, heads) == Drained(now, lens)
  {
    assert lens + [] == lens;
  }

  /** What a drain leaves. */
  ghost predicate Served(cfg: Config, was: Machine, r: VirtQueue.Ring, now: Machine, r': VirtQueue.Ring)
  {
    && VirtQueue.Sized(r) && AllSensible(cfg, was, VirtQueue.PendingHeads(r))
    && var d := Drain(cfg, was, VirtQueue.PendingHeads(r));
       now == d.m && r' == VirtQueue.Serve(r, d.lens)
  }

  // ── The walk, step by step ────────────────────────────────────────────────

  /** The gathering in front of the `k`-th descriptor: what is found so far and what is still ahead. */
  ghost predicate Gathering(desc: seq<Desc>, base: nat, ram: seq<byte>, path: seq<nat>, k: nat, req: seq<byte>, resp: Option<nat>)
  {
    && TableOk(desc) && IsPath(path) && AllWhole(desc, base, |ram|, path) && k <= |path|
    && IsPath(path[k..]) && AllWhole(desc, base, |ram|, path[k..])
    && Readable(desc, base, ram, path) == req + Readable(desc, base, ram, path[k..])
    && LastWritable(desc, base, |ram|, path) == OrElse(LastWritable(desc, base, |ram|, path[k..]), resp)
  }

  lemma GatheringStart(desc: seq<Desc>, base: nat, ram: seq<byte>, path: seq<nat>)
    requires TableOk(desc) && IsPath(path) && AllWhole(desc, base, |ram|, path)
    ensures Gathering(desc, base, ram, path, 0, [], None)
  {
    assert path[0..] == path;
    assert [] + Readable(desc, base, ram, path) == Readable(desc, base, ram, path);
    hide Readable, LastWritable;
  }

  lemma GatheringStep(desc: seq<Desc>, base: nat, ram: seq<byte>, path: seq<nat>, k: nat, req: seq<byte>, resp: Option<nat>)
    requires Gathering(desc, base, ram, path, k, req, resp) && k < |path|
    requires path[k] < |desc| && Maps(base, |ram|, desc[path[k]].addr)
    ensures Whole(desc[path[k]], base, |ram|)
    ensures Gathering(desc, base, ram, path, k + 1, req + Piece(desc[path[k]], base, ram),
                      if DeviceWrites(desc[path[k]]) then Some(path[k]) else resp)
  {
    var tail, d := path[k..], desc[path[k]];
    assert tail[0] == path[k] && tail[1..] == path[k + 1..] && Whole(d, base, |ram|);
    var more := Readable(desc, base, ram, path[k + 1..]);
    assert Readable(desc, base, ram, tail) == Piece(d, base, ram) + more;
    assert LastWritable(desc, base, |ram|, tail)
           == OrElse(LastWritable(desc, base, |ram|, path[k + 1..]), if DeviceWrites(d) then Some(path[k]) else None);
    assert IsPath(path[k + 1..]) && AllWhole(desc, base, |ram|, path[k + 1..]);
    hide Readable, LastWritable, Piece, Whole, TableOk, IsPath, AllWhole;
    assert req + (Piece(d, base, ram) + more) == (req + Piece(d, base, ram)) + more;
  }

  /** The walk ends at an unmapped buffer or at the end of the path. */
  lemma GatheringEnd(desc: seq<Desc>, base: nat, ram: seq<byte>, path: seq<nat>, k: nat, req: seq<byte>, resp: Option<nat>)
    requires Gathering(desc, base, ram, path, k, req, resp)
    requires k == |path| || (path[k] < |desc| && !Maps(base, |ram|, desc[path[k]].addr))
    ensures AllWhole(desc, base, |ram|, path)
    ensures Readable(desc, base, ram, path) == req && LastWritable(desc, base, |ram|, path) == resp
  {
    assert k < |path| ==> path[k..][0] == path[k];
    assert req + [] == req;
  }

  /** Where the bounded walk continues. */
  lemma {:induction false} FollowAt(desc: seq<Desc>, cur: nat, hops: nat, k: nat)
    requires TableOk(desc) && cur < TABLE_SIZE && k < |Follow(desc, cur, hops)|
    ensures var path := Follow(desc, cur, hops);
            && path[k] < TABLE_SIZE
            && (HasNext(desc[path[k]]) && k < hops ==> k + 1 < |path| && path[k + 1] == desc[path[k]].next)
            && (!HasNext(desc[path[k]]) || k == hops ==> k + 1 == |path|)
    decreases hops
  {
    if k > 0 {
      FollowAt(desc, desc[cur].next, hops - 1, k - 1);
    }
  }

  ghost predicate Collecting(cfg: Config, ram: seq<byte>, path: seq<nat>, step: nat, req: seq<byte>, resp: Option<nat>, c: u16)
  {
    Gathering(cfg.desc, cfg.base, ram, path, step, req, resp) && step < |path| && path[step] == c as int
  }

  lemma CollectStart(cfg: Config, ram: seq<byte>, head: u16)
    requires ChainOk(cfg, |ram|, head)
    ensures head < |cfg.desc| && Collecting(cfg, ram, Walk(cfg.desc, head), 0, [], None, head)
  {
    GatheringStart(cfg.desc, cfg.base, ram, Walk(cfg.desc, head));
    hide Gathering, AllWhole, Follow;
  }

  lemma CollectEnd(cfg: Config, ram: seq<byte>, head: u16, step: nat, req: seq<byte>, resp: Option<nat>, c: u16)
    requires ChainOk(cfg, |ram|, head) && Collecting(cfg, ram, Walk(cfg.desc, head), step, req, resp, c)
    requires c < |cfg.desc| && !Maps(cfg.base, |ram|, cfg.desc[c].addr)
    ensures req == RequestOf(cfg, ram, head) && resp == ReplyTo(cfg, |ram|, head)
  {
    GatheringEnd(cfg.desc, cfg.base, ram, Walk(cfg.desc, head), step, req, resp);
    hide Gathering, AllWhole, Follow, Readable, LastWritable;
  }

  lemma CollectStep(cfg: Config, ram: seq<byte>, head: u16, step: nat, req: seq<byte>, resp: Option<nat>, c: u16)
    requires ChainOk(cfg, |ram|, head) && Collecting(cfg, ram, Walk(cfg.desc, head), step, req, resp, c) && step < MAX_STEPS
    requires c < |cfg.desc| && Maps(cfg.base, |ram|, cfg.desc[c].addr)
    ensures Whole(cfg.desc[c], cfg.base, |ram|) && cfg.desc[c].next < |cfg.desc|
    ensures var d := cfg.desc[c];
            var req', resp' := req + Piece(d, cfg.base, ram), if DeviceWrites(d) then Some(c as nat) else resp;
            if HasNext(d) && step + 1 < MAX_STEPS then Collecting(cfg, ram, Walk(cfg.desc, head), step + 1, req', resp', d.next)
            else req' == RequestOf(cfg, ram, head) && resp' == ReplyTo(cfg, |ram|, head)
  {
    var path, d := Walk(cfg.desc, head), cfg.desc[c];
    var req', resp' := req + Piece(d, cfg.base, ram), if DeviceWrites(d) then Some(c as nat) else resp;
    GatheringStep(cfg.desc, cfg.base, ram, path, step, req, resp);
    FollowAt(cfg.desc, head, MAX_STEPS - 1, step);
    hide Gathering, AllWhole, Follow, Readable, LastWritable, Piece;
    if !HasNext(d) || step + 1 == MAX_STEPS {
      GatheringEnd(cfg.desc, cfg.base, ram, path, step + 1, req', resp');
    }
  }

  // ── The device ────────────────────────────────────────────────────────────

  class Gpu {
    const q: VirtQueue.Queue
    const cfg: Config
    const ram: array<byte>
    var resources: map<u32, Resource>
    var scanout: u32
    var pending: seq<Frame>
    var delivered: seq<Frame>
    var ready: bool
    var irq: bool

    function Table(): State
      reads this
    {
      State(resources, scanout, pending)
    }

    function Here(): Env
      reads ram
    {
      Env(ram[..], cfg.base, cfg.shown)
    }

    function Now(): Machine
      reads this, ram
    {
      Machine(Table(), ram[..])
    }

    constructor (q: VirtQueue.Queue, cfg: Config, ram: array<byte>)
      ensures this.q == q && this.cfg == cfg && this.ram == ram
      ensures Table() == Fresh() && delivered == [] && !ready && !irq && Good(Table())
    {
      this.q, this.cfg, this.ram := q, cfg, ram;
      resources, scanout, pending, delivered, ready, irq := map[], 0, [], [], false, false;
    }

    method Create(req: seq<byte>) returns (v: Verdict)
      requires Good(Table()) && |req| >= HEADER_LEN && ReadLe32(req, 0) == CMD_CREATE
      modifies `resources
      ensures (Table(), v) == Apply(old(Table()), Decode(req), Here())
    {
      hide Good, Area, Zeros, Entries, ReadLe32, ReadLe64;
      if |req| < 40 {
        return Failed(ERR_UNSPEC);
      }
      var id, format, width, height := ReadLe32(req, 24), ReadLe32(req, 28), ReadLe32(req, 32), ReadLe32(req, 36);
      resources := resources[id := Resource(id, format, width, height, Zeros(Area(width, height)), [])];
      v := Done;
    }

    method Unref(req: seq<byte>) returns (v: Verdict)
      requires Good(Table()) && |req| >= HEADER_LEN && ReadLe32(req, 0) == CMD_UNREF
      modifies `resources, `scanout
      ensures (Table(), v) == Apply(old(Table()), Decode(req), Here())
    {
      hide Good, Entries, ReadLe32, ReadLe64;
      if |req| < 32 {
        return Failed(ERR_UNSPEC);
      }
      var id := ReadLe32(req, 24);
      resources := resources - {id};
      if scanout == id {
        scanout := 0;
      }
      v := Done;
    }

    method SetScanout(req: seq<byte>) returns (v: Verdict)
      requires Good(Table()) && |req| >= HEADER_LEN && ReadLe32(req, 0) == CMD_SET_SCANOUT
      modifies `scanout
      ensures (Table(), v) == Apply(old(Table()), Decode(req), Here())
    {
      hide Good, Entries, ReadLe32, ReadLe64;
      if |req| < 48 {
        return Failed(ERR_UNSPEC);
      }
      if ReadLe32(req, 40) == 0 {
        scanout := ReadLe32(req, 44);
      }
      v := Done;
    }

    method Flush(req: seq<byte>) returns (v: Verdict)
      requires Good(Table()) && |req| >= HEADER_LEN && ReadLe32(req, 0) == CMD_FLUSH
      modifies `pending
      ensures (Table(), v) == Apply(old(Table()), Decode(req), Here())
    {
      hide Good, Entries, ReadLe32, ReadLe64;
      if |req| < 48 {
        return Failed(ERR_UNSPEC);
      }
      var id := ReadLe32(req, 40);
      if id !in resources {
        return Failed(ERR_RESOURCE);
      }
      var r := resources[id];
      if cfg.shown && id == scanout && r.buf != [] {
        pending := pending + [Frame(r.buf, r.width, r.height, r.width as int * PIXEL % U32_RANGE)];
      }
      v := Done;
    }

    /** Copies into the buffer of the resource, first grown to its size if it is shorter. */
    method TransferToHost(req: seq<byte>) returns (v: Verdict)
      requires Good(Table()) && |req| >= HEADER_LEN && ReadLe32(req, 0) == CMD_TRANSFER
      requires CommandOk(Table(), Decode(req), cfg.base, ram.Length)
      modifies `resources
      ensures (Table(), v) == Apply(old(Table()), Decode(req), Here())
    {
      hide Entries, ReadLe32, ReadLe64, Area, BackingOk, Transfer, Flat;
      if |req| < 56 {
        return Failed(ERR_UNSPEC);
      }
      var rect := Rect(ReadLe32(req, 24), ReadLe32(req, 28), ReadLe32(req, 32), ReadLe32(req, 36));
      var offset, id := ReadLe64(req, 40), ReadLe32(req, 48);
      assert Decode(req) == GpuCommands.TransferToHost(rect, offset, id);
      if id !in resources {
        return Failed(ERR_RESOURCE);
      }
      var r := resources[id];
      assert GoodResource(id, r);
      var bytes := Grown(r.buf, Area(r.width, r.height));
      var buf := new byte[|bytes|](i requires 0 <= i < |bytes| => bytes[i]);
      assert buf[..] == bytes;
      TransferRows(r.backing, ram, cfg.base, buf, r.width, r.height, rect, offset);
      resources := resources[id := r.(buf := buf[..])];
      v := Done;
    }

    /** The entries of an attach request, as far as they are there. */
    static method ParseEntries(req: seq<byte>, announced: u32) returns (entries: seq<Entry>)
      requires |req| >= ENTRIES_AT
      ensures entries == Entries(req, EntryCount(|req|, announced))
    {
      entries := [];
      var i: nat := 0;
      while i < announced
        invariant i <= announced && ENTRIES_AT + i * ENTRY_LEN <= |req|
        invariant entries == Entries(req, i)
      {
        var off := ENTRIES_AT + i * ENTRY_LEN;
        if off + ENTRY_LEN > |req| {
          break;
        }
        entries := entries + [Entry(ReadLe64(req, off), ReadLe32(req, off + 8))];
        i := i + 1;
      }
      assert i == EntryCount(|req|, announced);
    }

    method Attach(req: seq<byte>) returns (v: Verdict)
      requires Good(Table()) && |req| >= HEADER_LEN && ReadLe32(req, 0) == CMD_ATTACH
      modifies `resources
      ensures (Table(), v) == Apply(old(Table()), Decode(req), Here())
    {
      hide Good, Entries, ReadLe32, ReadLe64, EntryCount;
      if |req| < ENTRIES_AT {
        return Failed(ERR_UNSPEC);
      }
      var id := ReadLe32(req, 24);
      var entries := ParseEntries(req, ReadLe32(req, 28));
      if id !in resources {
        return Failed(ERR_RESOURCE);
      }
      var r := resources[id];
      resources := resources[id := r.(backing := r.backing + entries)];
      v := Done;
    }

    method Detach(req: seq<byte>) returns (v: Verdict)
      requires Good(Table()) && |req| >= HEADER_LEN && ReadLe32(req, 0) == CMD_DETACH
      modifies `resources
      ensures (Table(), v) == Apply(old(Table()), Decode(req), Here())
    {
      hide Good, Entries, ReadLe32, ReadLe64;
      if |req| < 32 {
        return Failed(ERR_UNSPEC);
      }
      var id := ReadLe32(req, 24);
      if id in resources {
        resources := resources[id := resources[id].(backing := [])];
      }
      v := Done;
    }

    /** The switch over the commands. */
    method Dispatch(req: seq<byte>) returns (v: Verdict)
      requires Good(Table()) && CommandOk(Table(), Decode(req), cfg.base, ram.Length)
      modifies `resources, `scanout, `pending
      ensures (Table(), v) == Apply(old(Table()), Decode(req), Here())
    {
      if |req| < HEADER_LEN {
        return Silent;
      }
      hide Good, CommandOk, Entries, ReadLe32, ReadLe64;
      var kind := ReadLe32(req, 0);
      if kind == CMD_DISPLAY_INFO {
        v := Info;
      } else if kind == CMD_CREATE {
        v := Create(req);
      } else if kind == CMD_UNREF {
        v := Unref(req);
      } else if kind == CMD_SET_SCANOUT {
        v := SetScanout(req);
      } else if kind == CMD_FLUSH {
        v := Flush(req);
      } else if kind == CMD_TRANSFER {
        v := TransferToHost(req);
      } else if kind == CMD_ATTACH {
        v := Attach(req);
      } else if kind == CMD_DETACH {
        v := Detach(req);
      } else {
        v := Failed(ERR_UNSPEC);
      }
    }

    /** Carries a request out and writes the response. */
    method HandleCommand(req: seq<byte>, at: nat, cap: nat) returns (len: u32)
      requires Good(Table()) && CommandOk(Table(), Decode(req), cfg.base, ram.Length)
      requires cap >= HEADER_LEN && at + cap <= ram.Length && cap < U32_RANGE
      modifies `resources, `scanout, `pending, ram
      ensures (Machine(Table(), ram[..]), len) == Execute(cfg, old(Machine(Table(), ram[..])), req, at, cap)
    {
      ghost var s, env := Table(), Here();
      VerdictOf(s, req, env);
      var v := Dispatch(req);
      ResponseFits(v, req, cap, cfg.width, cfg.height);
      hide Decode, Apply, CommandOk, Good, Splice;
      var resp := Response(v, req, cap, cfg.width, cfg.height);
      Put(ram, at, resp);
      len := |resp|;
    }

    /** Gathers the request of a chain, and finds the buffer for its response: at most 64 steps, cycles or not. */
    method Collect(head: u16) returns (req: seq<byte>, resp: Option<nat>)
      requires ChainOk(cfg, ram.Length, head)
      ensures req == RequestOf(cfg, ram[..], head) && resp == ReplyTo(cfg, ram.Length, head)
    {
      ghost var path := Walk(cfg.desc, head);
      CollectStart(cfg, ram[..], head);
      hide *;
      req, resp := [], None;
      var c: u16 := head;
      var step, more := 0, true;
      while more && step < MAX_STEPS
        invariant step <= MAX_STEPS && c < |cfg.desc|
        invariant if more && step < MAX_STEPS then Collecting(cfg, ram[..], path, step, req, resp, c)
                  else req == RequestOf(cfg, ram[..], head) && resp == ReplyTo(cfg, ram.Length, head)
        decreases MAX_STEPS - step, more
      {
        if !Maps(cfg.base, ram.Length, cfg.desc[c].addr) {
          CollectEnd(cfg, ram[..], head, step, req, resp, c);
          break;
        }
        req, resp, c, more := Look(head, path, step, req, resp, c);
        step := step + 1;
      }
    }

    /** One descriptor; `more` says whether it has a successor. */
    method Look(head: u16, ghost path: seq<nat>, ghost step: nat, req: seq<byte>, resp: Option<nat>, c: u16)
      returns (req': seq<byte>, resp': Option<nat>, c': u16, more: bool)
      requires ChainOk(cfg, ram.Length, head) && path == Walk(cfg.desc, head)
      requires c < |cfg.desc| && Collecting(cfg, ram[..], path, step, req, resp, c) && step < MAX_STEPS
      requires Maps(cfg.base, ram.Length, cfg.desc[c].addr)
      ensures c' < |cfg.desc|
      ensures if more && step + 1 < MAX_STEPS then Collecting(cfg, ram[..], path, step + 1, req', resp', c')
              else req' == RequestOf(cfg, ram[..], head) && resp' == ReplyTo(cfg, ram.Length, head)
    {
      hide *;
      CollectStep(cfg, ram[..], head, step, req, resp, c);
      var piece := ReadPiece(cfg.desc[c]);
      req', resp', c' := req + piece, resp, c;
      if DeviceWrites(cfg.desc[c]) {
        resp' := Some(c);
      }
      more := HasNext(cfg.desc[c]);
      if more {
        c' := cfg.desc[c].next;
      }
    }

    /** The bytes of a buffer the device reads; none of one it may write. */
    method ReadPiece(d: Desc) returns (bytes: seq<byte>)
      requires Maps(cfg.base, ram.Length, d.addr) && Whole(d, cfg.base, ram.Length)
      ensures bytes == Piece(d, cfg.base, ram[..])
    {
      bytes := [];
      if !DeviceWrites(d) {
        bytes := ram[d.addr - cfg.base..d.addr - cfg.base + d.len];
      }
    }

    /** Serves one chain and returns it. */
    method ServeNext(ghost r: VirtQueue.Ring, ghost was: Machine, ghost heads: seq<u16>, ghost lens: seq<u32>) returns (len: u32)
      requires VirtQueue.Sized(r) && VirtQueue.Sized(q.View()) && q.View() == VirtQueue.Serve(r, lens)
      requires Resumed(cfg, was, heads, lens, Now()) && |lens| < |heads|
      requires heads[|lens|] == VirtQueue.NextHead(q.View())
      modifies q`usedIdx, q`lastAvail, q.used, ram, `resources, `scanout, `pending
      ensures Resumed(cfg, was, heads, lens + [len], Now())
      ensures VirtQueue.Sized(q.View()) && q.View() == VirtQueue.Serve(r, lens + [len])
    {
      ResumedNext(cfg, was, heads, lens, Now());
      hide Resumed, Request, Sensible, VirtQueue.Serve, VirtQueue.NextHead, VirtQueue.ServeLast;
      VirtQueue.ServeOne(r, lens, Request(cfg, Now(), heads[|lens|]).1);
      var head := q.Head();
      len := ServeRequest(head);
      VirtQueue.ReturnServes(q.View(), len);
      q.Return(head, len);
    }

    /** The request of one chain, if it has one and a response has somewhere to go. */
    method ServeRequest(head: u16) returns (len: u32)
      requires Sensible(cfg, Now(), head)
      modifies ram, `resources, `scanout, `pending
      ensures (Now(), len) == Request(cfg, old(Now()), head)
    {
      var req, resp := Collect(head);
      hide Decode, Apply, CommandOk, Good, Execute, RequestOf, ReplyTo;
      len := 0;
      if req != [] && resp.Some? && cfg.desc[resp.value].len >= HEADER_LEN {
        len := HandleCommand(req, cfg.desc[resp.value].addr - cfg.base, cfg.desc[resp.value].len);
      }
    }

    /** The loop of the drain. */
    method ServeAll()
      requires VirtQueue.Sized(q.View()) && AllSensible(cfg, Now(), VirtQueue.PendingHeads(q.View()))
      modifies q`usedIdx, q`lastAvail, q.used, ram, `resources, `scanout, `pending
      ensures Served(cfg, old(Now()), old(q.View()), Now(), q.View())
    {
      ghost var r, was := q.View(), Now();
      ghost var heads := VirtQueue.PendingHeads(r);
      ghost var lens: seq<u32> := [];
      ResumedStart(cfg, was, heads);
      hide Resumed, AllSensible, Drain, Request, Sensible, VirtQueue.Serve, VirtQueue.Sized;
      while q.lastAvail != q.availIdx
        invariant Resumed(cfg, was, heads, lens, Now()) && |lens| <= |heads|
        invariant VirtQueue.Sized(q.View()) && q.View() == VirtQueue.Serve(r, lens)
        decreases |heads| - |lens|
      {
        VirtQueue.NextInDrain(r, lens);
        var len := ServeNext(r, was, heads, lens);
        lens := lens + [len];
      }
      VirtQueue.NextInDrain(r, lens);
      ResumedEnd(cfg, was, heads, lens, Now());
    }

    /** A notification of the control queue: the drain, and an interrupt in any case. */
    method ProcessControlq()
      requires VirtQueue.Sized(q.View()) && (ready ==> AllSensible(cfg, Now(), VirtQueue.PendingHeads(q.View())))
      modifies q`usedIdx, q`lastAvail, q.used, ram, `resources, `scanout, `pending, `irq
      ensures !ready ==> unchanged(q, q.used, ram, this)
      ensures ready ==> irq && Served(cfg, old(Now()), old(q.View()), Now(), q.View())
    {
      if !ready {
        return;
      }
      ServeAll();
      irq := true;
    }

    /** After a register write: hands over the frames staged by it. */
    method DeliverFrames()
      requires Good(Table())
      modifies `pending, `delivered
      ensures !cfg.shown ==> pending == [] && delivered == old(delivered)
      ensures cfg.shown ==> History(Table(), delivered) == Happen(History(old(Table()), old(delivered)), Deliver)
      ensures cfg.shown ==> delivered == old(delivered) + old(pending) && pending == [] && resources == old(resources)
    {
      var frames := pending;
      pending := [];
      if cfg.shown {
        var i := 0;
        while i < |frames|
          invariant i <= |frames| && delivered == old(delivered) + frames[..i] && pending == []
          invariant resources == old(resources) && scanout == old(scanout)
        {
          delivered := delivered + [frames[i]];
          i := i + 1;
        }
      }
    }

    /** Writing zero to the status register. */
    method ResetDevice()
      modifies q`lastAvail, `resources, `scanout, `pending, `ready, `irq
      requires Good(Table())
      ensures History(Table(), delivered) == Happen(History(old(Table()), delivered), Reset)
      ensures Good(Table()) && !ready && !irq && q.lastAvail == 0
    {
      q.lastAvail := 0;
      resources, scanout, pending, ready, irq := map[], 0, [], false, false;
    }
  }
}
