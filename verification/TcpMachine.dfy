/**
 The TCP side of network.cpp as a system of atomic steps. The frame handler, each connection's
 connect thread and IO thread, and the port-forward threads share the connection table under one
 mutex and the connections' atomics without it; every access to an atomic that another thread can
 observe is a step of its own, so a run is any interleaving of those threads.
 */
module TcpMachine {
  import opened Bytes

  const FIN: byte := 0x01
  const SYN: byte := 0x02
  const RST: byte := 0x04
  const PSH: byte := 0x08
  const ACK: byte := 0x10

  /** What fits a frame of 2048 bytes behind its Ethernet, IPv4 and TCP headers. */
  const MAX_DATA := 2048 - 14 - 20 - 20

  const HOST_ISN: u32 := 0x4000_0000
  const FORWARD_ISN: u32 := 0x5000_0000

  predicate Has(flags: byte, bit: byte)
    requires bit > 0
  {
    flags / bit % 2 == 1
  }

  function Add32(a: u32, n: nat): u32
  {
    (a as int + n) % U32_RANGE
  }

  // ── State ─────────────────────────────────────────────────────────────────

  /** Addresses and ports as the guest sends them. */
  datatype Key = Key(sip: u32, dip: u32, sp: u16, dp: u16)

  datatype Segment = Segment(key: Key, seqNo: u32, ackNo: u32, flags: byte, data: seq<byte>)

  datatype Phase = CONNECTING | SYNACK_SENT | ESTABLISHED

  /** A stretch of the host's sequence numbers, taken by one `h_nxt.fetch_add`. */
  datatype Range = SynRange | DataRange(bytes: seq<byte>) | FinRange

  /** A segment sent to the guest; `range` is the reservation whose first number is its `seqNo`, if any. */
  datatype Sent = Sent(seqNo: u32, ackNo: u32, flags: byte, data: seq<byte>, range: Option<nat>)

  datatype ConnectThread = NoConnect | Opening | FdStored | StateStored | SynReserved(range: nat, seqNo: u32) | SynReady(sent: Sent)

  datatype IoThread =
    | NotLaunched
    | AtTop
    | Polling
    | HasRead(bytes: seq<byte>)
    | DataReserved(range: nat, seqNo: u32, bytes: seq<byte>)
    | DataReady(sent: Sent)
    | Leaving
    | FinDue
    | FinReserved(range: nat, seqNo: u32)
    | FinReady(sent: Sent)
    | Finished
    | Exited

  /** A connection object with its threads; the fields after `stop` are history. */
  datatype Conn = Conn(
    key: Key,
    srcIp: u32, srcPort: u16, dstIp: u32, dstPort: u16,
    gNxt: u32, hNxt: u32, fd: int, phase: Phase, stop: bool,
    connect: ConnectThread, io: IoThread,
    guestIsn: Option<u32>,   // the SYN's sequence number, if the guest opened the connection
    accepted: seq<byte>,     // data taken from the guest's segments
    written: seq<byte>,      // data written to the host socket
    fins: nat,               // FINs processed
    held: seq<u32>,          // every value g_nxt has had
    isn: u32,
    ranges: seq<Range>,      // every reservation of h_nxt, in order
    hostRead: seq<byte>,     // data read from the host socket
    launches: nat)           // IO threads started

  /** Where the frame handler is with a segment of connection `id`, holding the mutex until `Writing`. */
  datatype Handler =
    | Idle
    | FinBump(id: nat, data: seq<byte>)
    | FinStop(id: nat, data: seq<byte>)
    | FinErase(id: nat, data: seq<byte>)
    | Acking(id: nat, data: seq<byte>, fin: bool)
    | Writing(id: nat, data: seq<byte>, reply: Option<Sent>)

  datatype World = World(
    conns: map<Key, nat>,    // the table; a connection object outlives its entry
    objs: seq<Conn>,
    doneQueue: seq<Key>,
    handler: Handler,
    sent: seq<(nat, Sent)>,  // segments sent, each with its connection
    resets: seq<Sent>)       // RSTs for segments of unknown connections

  const EMPTY := World(map[], [], [], Idle, [], [])

  predicate MutexFree(w: World)
  {
    w.handler.Idle? || w.handler.Writing?
  }

  // ── Reservations ──────────────────────────────────────────────────────────

  function Width(r: Range): nat
  {
    if r.DataRange? then |r.bytes| else 1
  }

  function Total(rs: seq<Range>): nat
  {
    if rs == [] then 0 else Total(rs[..|rs| - 1]) + Width(rs[|rs| - 1])
  }

  /** The host data in a list of reservations. */
  function DataOf(rs: seq<Range>): seq<byte>
  {
    if rs == [] then []
    else DataOf(rs[..|rs| - 1]) + (if rs[|rs| - 1].DataRange? then rs[|rs| - 1].bytes else [])
  }

  /** First sequence number of reservation `i`. */
  function Start(c: Conn, i: nat): u32
    requires i <= |c.ranges|
  {
    Add32(c.isn, Total(c.ranges[..i]))
  }

  function Reserve(c: Conn, r: Range): Conn
  {
    c.(hNxt := Add32(c.hNxt, Width(r)), ranges := c.ranges + [r])
  }

  // ── The frame handler ─────────────────────────────────────────────────────

  function Reap(conns: map<Key, nat>, done: seq<Key>): map<Key, nat>
  {
    map k | k in conns && k !in done :: conns[k]
  }

  /** The connection object made for a SYN; its connect thread starts with it. */
  function OpenedByGuest(seg: Segment): Conn
  {
    var k, g := seg.key, Add32(seg.seqNo, 1);
    Conn(k, k.dip, k.dp, k.sip, k.sp, g, HOST_ISN, -1, CONNECTING, false, Opening, NotLaunched,
         Some(seg.seqNo), [], [], 0, [g], HOST_ISN, [], [], 0)
  }

  function SetG(c: Conn, g: u32): Conn
  {
    c.(gNxt := g, held := c.held + [g])
  }

  /** Data is taken only if it starts exactly at g_nxt. */
  predicate InOrder(c: Conn, seg: Segment)
  {
    seg.data != [] && seg.seqNo == c.gNxt
  }

  function TakeData(c: Conn, data: seq<byte>): Conn
  {
    SetG(c, Add32(c.gNxt, |data|)).(accepted := c.accepted + data)
  }

  function With(w: World, id: nat, c: Conn): World
    requires id < |w.objs|
  {
    w.(objs := w.objs[id := c])
  }

  function Erase(w: World, k: Key): World
  {
    w.(conns := w.conns - {k})
  }

  function HandleSyn(w: World, seg: Segment): World
  {
    if seg.key in w.conns then w
    else w.(conns := w.conns[seg.key := |w.objs|], objs := w.objs + [OpenedByGuest(seg)])
  }

  function HandleKnown(w: World, id: nat, seg: Segment): World
    requires id < |w.objs|
  {
    var c := w.objs[id];
    if Has(seg.flags, RST) then Erase(With(w, id, c.(stop := true)), seg.key)
    else if c.phase == SYNACK_SENT then
      if Has(seg.flags, ACK) then With(w, id, c.(phase := ESTABLISHED, io := AtTop, launches := c.launches + 1))
      else w
    else if c.phase != ESTABLISHED then w
    else
      var take := InOrder(c, seg);
      var w' := if take then With(w, id, TakeData(c, seg.data)) else w;
      var data := if take then seg.data else [];
      w'.(handler := if Has(seg.flags, FIN) then FinBump(id, data) else Acking(id, data, false))
  }

  /** `handle_tcp` from taking the mutex to the first point where other threads can see a difference. */
  function Deliver(w: World, seg: Segment): (w': World)
    requires Bound(w)
    ensures Bound(w')
  {
    if !w.handler.Idle? then w
    else
      var v := w.(conns := Reap(w.conns, w.doneQueue), doneQueue := []);
      if Has(seg.flags, SYN) && !Has(seg.flags, ACK) then HandleSyn(v, seg)
      else if seg.key in v.conns then HandleKnown(v, v.conns[seg.key], seg)
      else if Has(seg.flags, RST) then v
      else v.(resets := v.resets + [Sent(seg.ackNo, 0, RST, [], None)])
  }

  /** The handler's further steps with a segment of an established connection. */
  function HandlerStep(w: World): (w': World)
    requires Bound(w)
    ensures Bound(w')
  {
    match w.handler
    case Idle => w
    case FinBump(id, data) =>
      var c := w.objs[id];
      With(w, id, SetG(c, Add32(c.gNxt, 1)).(fins := c.fins + 1)).(handler := FinStop(id, data))
    case FinStop(id, data) =>
      With(w, id, w.objs[id].(stop := true)).(handler := FinErase(id, data))
    case FinErase(id, data) =>
      Erase(w, w.objs[id].key).(handler := Acking(id, data, true))
    case Acking(id, data, fin) =>
      var c := w.objs[id];
      if fin then
        With(w, id, Reserve(c, FinRange)).(
          handler := Writing(id, data, Some(Sent(c.hNxt, c.gNxt, FIN + ACK, [], Some(|c.ranges|)))))
      else if data != [] then
        w.(handler := Writing(id, data, Some(Sent(c.hNxt, c.gNxt, ACK, [], None))))
      else
        w.(handler := Writing(id, data, None))
    case Writing(id, data, reply) =>
      var c := w.objs[id];
      var v := With(w, id, c.(written := c.written + data)).(handler := Idle);
      if reply.Some? then v.(sent := v.sent + [(id, reply.value)]) else v
  }

  // ── The connect thread ────────────────────────────────────────────────────

  function Send(w: World, id: nat, s: Sent): World
  {
    w.(sent := w.sent + [(id, s)])
  }

  /** The socket became writable and has descriptor `fd`. */
  function Connected(w: World, id: nat, fd: nat): (w': World)
    requires Bound(w)
    ensures Bound(w')
  {
    if id < |w.objs| && w.objs[id].connect == Opening
    then With(w, id, w.objs[id].(fd := fd, connect := FdStored)) else w
  }

  function ConnectFailed(w: World, id: nat): (w': World)
    requires Bound(w)
    ensures Bound(w')
  {
    if id < |w.objs| && w.objs[id].connect == Opening && MutexFree(w)
    then Erase(With(w, id, w.objs[id].(connect := NoConnect)), w.objs[id].key) else w
  }

  function ConnectStep(w: World, id: nat): (w': World)
    requires Bound(w)
    ensures Bound(w')
  {
    if id >= |w.objs| then w
    else
      var c := w.objs[id];
      match c.connect
      case FdStored => With(w, id, c.(phase := SYNACK_SENT, connect := StateStored))
      case StateStored => With(w, id, Reserve(c, SynRange).(connect := SynReserved(|c.ranges|, c.hNxt)))
      case SynReserved(i, n) => With(w, id, c.(connect := SynReady(Sent(n, c.gNxt, SYN + ACK, [], Some(i)))))
      case SynReady(s) => Send(With(w, id, c.(connect := NoConnect)), id, s)
      case _ => w
  }

  // ── The IO thread ─────────────────────────────────────────────────────────

  /** `read` returned `bytes`, or the end of the stream if there are none. Assumed: they fit one frame. */
  function IoRead(w: World, id: nat, bytes: seq<byte>): (w': World)
    requires Bound(w)
    ensures Bound(w')
  {
    if id >= |w.objs| || w.objs[id].io != Polling || |bytes| > MAX_DATA then w
    else
      var c := w.objs[id];
      With(w, id, if bytes == [] then c.(io := Leaving)
                  else c.(io := HasRead(bytes), hostRead := c.hostRead + bytes))
  }

  function IoStep(w: World, id: nat): (w': World)
    requires Bound(w)
    ensures Bound(w')
  {
    if id >= |w.objs| then w
    else
      var c := w.objs[id];
      match c.io
      case AtTop => With(w, id, c.(io := if c.stop then Leaving else Polling))
      case Polling => With(w, id, c.(io := AtTop))   // the poll timed out
      case HasRead(bytes) => With(w, id, Reserve(c, DataRange(bytes)).(io := DataReserved(|c.ranges|, c.hNxt, bytes)))
      case DataReserved(i, n, bytes) =>
        With(w, id, c.(io := DataReady(Sent(n, c.gNxt, PSH + ACK, bytes, Some(i)))))
      case DataReady(s) => Send(With(w, id, c.(io := AtTop)), id, s)
      case Leaving => With(w, id, c.(io := if c.stop then Finished else FinDue))
      case FinDue => With(w, id, Reserve(c, FinRange).(io := FinReserved(|c.ranges|, c.hNxt)))
      case FinReserved(i, n) => With(w, id, c.(io := FinReady(Sent(n, c.gNxt, FIN + ACK, [], Some(i)))))
      case FinReady(s) => Send(With(w, id, c.(io := Finished)), id, s)
      case Finished =>
        if MutexFree(w) then With(w, id, c.(io := Exited)).(doneQueue := w.doneQueue + [c.key]) else w
      case _ => w
  }

  // ── Port forwarding ───────────────────────────────────────────────────────

  /** `inbound_fwd` up to the insertion, which leaves an entry that is there already. */
  function ForwardOpen(w: World, k: Key, fd: nat): (w': World)
    requires Bound(w)
    ensures Bound(w')
  {
    if !MutexFree(w) then w
    else
      var isn := FORWARD_ISN + k.dp as int * 0x100;
      var c := Conn(k, k.dip, k.dp, k.sip, k.sp, 0, isn + 1, fd, SYNACK_SENT, false, NoConnect, NotLaunched,
                    None, [], [], 0, [0], isn, [SynRange], [], 0);
      w.(conns := if k in w.conns then w.conns else w.conns[k := |w.objs|], objs := w.objs + [c])
  }

  function ForwardSyn(w: World, id: nat): (w': World)
    requires Bound(w)
    ensures Bound(w')
  {
    if id < |w.objs| && w.objs[id].guestIsn == None
    then Send(w, id, Sent(w.objs[id].isn, 0, SYN, [], Some(0))) else w
  }

  function ForwardTimeout(w: World, id: nat): (w': World)
    requires Bound(w)
    ensures Bound(w')
  {
    if id < |w.objs| && w.objs[id].guestIsn == None && MutexFree(w) then Erase(w, w.objs[id].key) else w
  }

  // ── Runs ──────────────────────────────────────────────────────────────────

  datatype Step =
    | StepDeliver(seg: Segment)
    | StepHandler
    | StepConnected(id: nat, fd: nat)
    | StepConnectFailed(id: nat)
    | StepConnect(id: nat)
    | StepRead(id: nat, bytes: seq<byte>)
    | StepIo(id: nat)
    | StepForwardOpen(key: Key, fd: nat)
    | StepForwardSyn(id: nat)
    | StepForwardTimeout(id: nat)

  /** The table and the handler refer to objects that exist. */
  ghost predicate Bound(w: World)
  {
    && (forall k :: k in w.conns ==> w.conns[k] < |w.objs|)
    && (!w.handler.Idle? ==> w.handler.id < |w.objs|)
  }

  ghost function Apply(w: World, s: Step): (w': World)
    requires Bound(w)
    ensures Bound(w')
  {
    hide *;
    match s
    case StepDeliver(seg) => Deliver(w, seg)
    case StepHandler => HandlerStep(w)
    case StepConnected(id, fd) => Connected(w, id, fd)
    case StepConnectFailed(id) => ConnectFailed(w, id)
    case StepConnect(id) => ConnectStep(w, id)
    case StepRead(id, bytes) => IoRead(w, id, bytes)
    case StepIo(id) => IoStep(w, id)
    case StepForwardOpen(k, fd) => ForwardOpen(w, k, fd)
    case StepForwardSyn(id) => ForwardSyn(w, id)
    case StepForwardTimeout(id) => ForwardTimeout(w, id)
  }

  ghost function Run(w: World, steps: seq<Step>): (w': World)
    requires Bound(w)
    ensures Bound(w')
    decreases steps
  {
    if steps == [] then w else Run(Apply(w, steps[0]), steps[1..])
  }

  lemma {:induction false} RunConcat(w: World, xs: seq<Step>, ys: seq<Step>)
    requires Bound(w)
    ensures Run(w, xs + ys) == Run(Run(w, xs), ys)
    decreases xs
  {
    hide Apply, Bound;
    if xs == [] {
      assert xs + ys == ys;
    } else {
      assert (xs + ys)[1..] == xs[1..] + ys;
      RunConcat(Apply(w, xs[0]), xs[1..], ys);
    }
  }
}
