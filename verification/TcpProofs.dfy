/** What every interleaving of `TcpMachine` keeps, and what follows from it. */
module TcpProofs {
  import opened Bytes
  import opened TcpMachine

  // ── The invariant ─────────────────────────────────────────────────────────

  /** Reservation `i` is `r`, and `n` is its first number. */
  predicate Holds(c: Conn, i: nat, n: u32, r: Range)
  {
    i < |c.ranges| && c.ranges[i] == r && n == Start(c, i)
  }

  /** The sequence number starts a reservation or is a past value of h_nxt. */
  predicate Numbered(c: Conn, s: Sent)
  {
    match s.range
    case Some(i) => i < |c.ranges| && s.seqNo == Start(c, i)
    case None => exists j :: 0 <= j <= |c.ranges| && s.seqNo == Start(c, j)
  }

  /** The flags and the data are those of the segment's own reservation. */
  predicate Carries(s: Sent, r: Option<Range>)
  {
    && |s.data| <= MAX_DATA
    && s.data == (if r.Some? && r.value.DataRange? then r.value.bytes else [])
    && (Has(s.flags, SYN) <==> r == Some(SynRange))
    && (Has(s.flags, FIN) <==> r == Some(FinRange))
  }

  predicate SentOk(c: Conn, s: Sent)
  {
    && Numbered(c, s)
    && Carries(s, if s.range.Some? then Some(c.ranges[s.range.value]) else None)
    && (Has(s.flags, ACK) ==> s.ackNo in c.held)
  }

  /** The addresses and ports the stack uses are the guest's, mirrored. */
  predicate Mirrors(c: Conn)
  {
    c.srcIp == c.key.dip && c.srcPort == c.key.dp && c.dstIp == c.key.sip && c.dstPort == c.key.sp
  }

  predicate ConnectOk(c: Conn)
  {
    match c.connect
    case NoConnect => true
    case Opening => c.phase == CONNECTING
    case FdStored => c.phase == CONNECTING && c.fd >= 0
    case StateStored => true
    case SynReserved(i, n) => Holds(c, i, n, SynRange)
    case SynReady(s) => SentOk(c, s)
  }

  predicate IoOk(c: Conn)
  {
    match c.io
    case HasRead(bytes) => |bytes| <= MAX_DATA
    case DataReserved(i, n, bytes) => Holds(c, i, n, DataRange(bytes)) && |bytes| <= MAX_DATA
    case FinReserved(i, n) => Holds(c, i, n, FinRange)
    case DataReady(s) => SentOk(c, s)
    case FinReady(s) => SentOk(c, s)
    case _ => true
  }

  /** Host data read but not yet given sequence numbers. */
  function Unreserved(io: IoThread): seq<byte>
  {
    if io.HasRead? then io.bytes else []
  }

  predicate GuestSideOk(c: Conn)
  {
    && c.gNxt in c.held
    && (c.guestIsn.Some? ==> c.gNxt == Add32(c.guestIsn.value, 1 + |c.accepted| + c.fins))
  }

  predicate HostSideOk(c: Conn)
  {
    && c.hNxt == Add32(c.isn, Total(c.ranges))
    && c.hostRead == DataOf(c.ranges) + Unreserved(c.io)
    && (c.guestIsn.None? ==> c.ranges != [] && c.ranges[0] == SynRange)
  }

  predicate LifecycleOk(c: Conn)
  {
    && (c.phase != CONNECTING ==> c.fd >= 0)
    && c.launches == (if c.phase == ESTABLISHED then 1 else 0)
    && (c.io == NotLaunched <==> c.phase != ESTABLISHED)
  }

  predicate ConnOk(c: Conn)
  {
    Mirrors(c) && LifecycleOk(c) && ConnectOk(c) && IoOk(c) && GuestSideOk(c) && HostSideOk(c)
  }

  /** Data the handler has taken for connection `i` and not yet written to its socket. */
  function Unwritten(h: Handler, i: nat): seq<byte>
  {
    if !h.Idle? && h.id == i then h.data else []
  }

  /** The handler has counted a FIN of connection `i` and not yet erased its entry. */
  predicate Finishing(h: Handler, i: nat)
  {
    (h.FinStop? || h.FinErase?) && h.id == i
  }

  /** Only a connection whose FIN is just being processed has an entry after its FIN. */
  ghost predicate TableOk(w: World)
  {
    && (forall k :: k in w.conns ==>
          && w.conns[k] < |w.objs| && w.objs[w.conns[k]].key == k
          && (w.objs[w.conns[k]].fins == 0 || Finishing(w.handler, w.conns[k])))
    && (!w.handler.Idle? ==> w.handler.id < |w.objs| && w.objs[w.handler.id].phase == ESTABLISHED)
    && (w.handler.FinBump? ==> w.objs[w.handler.id].fins == 0)
  }

  ghost predicate ObjectsOk(w: World)
  {
    && (forall i :: 0 <= i < |w.objs| ==> ConnOk(w.objs[i]))
    && (forall i :: 0 <= i < |w.objs| ==> w.objs[i].written + Unwritten(w.handler, i) == w.objs[i].accepted)
  }

  ghost predicate TrafficOk(w: World)
  {
    && (forall j :: 0 <= j < |w.sent| ==> w.sent[j].0 < |w.objs| && SentOk(w.objs[w.sent[j].0], w.sent[j].1))
    && (w.handler.Writing? && w.handler.reply.Some? ==>
          w.handler.id < |w.objs| && SentOk(w.objs[w.handler.id], w.handler.reply.value))
  }

  ghost predicate WorldOk(w: World)
  {
    TableOk(w) && ObjectsOk(w) && TrafficOk(w)
  }

  // ── How a connection object may change ────────────────────────────────────

  predicate PhaseMoves(p: Phase, q: Phase)
  {
    q == p || (p == CONNECTING && q == SYNACK_SENT) || (p == SYNACK_SENT && q == ESTABLISHED)
  }

  /**
     History only grows, the identity of the connection stays, the phase only moves forward one
     step at a time, and an IO thread is launched exactly at the move to ESTABLISHED.
   */
  predicate Evolves(c: Conn, d: Conn)
  {
    && d.key == c.key && d.isn == c.isn && d.guestIsn == c.guestIsn
    && c.ranges <= d.ranges && c.held <= d.held
    && c.accepted <= d.accepted && c.written <= d.written && c.hostRead <= d.hostRead
    && c.fins <= d.fins
    && PhaseMoves(c.phase, d.phase)
    && d.launches == c.launches + (if c.phase != ESTABLISHED && d.phase == ESTABLISHED then 1 else 0)
  }

  /** No object goes away, and each only evolves. */
  ghost predicate AllEvolve(before: seq<Conn>, after: seq<Conn>)
  {
    |before| <= |after| && forall i :: 0 <= i < |before| ==> Evolves(before[i], after[i])
  }

  lemma Unchanged(objs: seq<Conn>)
    ensures AllEvolve(objs, objs)
  {
  }

  lemma StartKept(c: Conn, d: Conn, i: nat)
    requires c.isn == d.isn && c.ranges <= d.ranges && i <= |c.ranges|
    ensures Start(d, i) == Start(c, i)
  {
    assert d.ranges[..i] == c.ranges[..i];
  }

  lemma SentKept(c: Conn, d: Conn, s: Sent)
    requires SentOk(c, s) && c.isn == d.isn && c.ranges <= d.ranges && c.held <= d.held
    ensures SentOk(d, s)
  {
    hide Start;
    match s.range
    case Some(i) => StartKept(c, d, i);
    case None =>
      var j :| 0 <= j <= |c.ranges| && s.seqNo == Start(c, j);
      StartKept(c, d, j);
  }

  lemma HoldsKept(c: Conn, d: Conn, i: nat, n: u32, r: Range)
    requires Holds(c, i, n, r) && c.isn == d.isn && c.ranges <= d.ranges
    ensures Holds(d, i, n, r)
  {
    StartKept(c, d, i);
  }

  /** What a reservation does to one connection object. */
  lemma ReserveKept(c: Conn, r: Range)
    requires HostSideOk(c)
    ensures var d := Reserve(c, r);
            && d.hNxt == Add32(d.isn, Total(d.ranges))
            && DataOf(d.ranges) == DataOf(c.ranges) + (if r.DataRange? then r.bytes else [])
            && Holds(d, |c.ranges|, c.hNxt, r)
  {
    var d := Reserve(c, r);
    assert d.ranges[..|d.ranges| - 1] == c.ranges;
    assert d.ranges[..|c.ranges|] == c.ranges;
  }

  /** Threads' pending segments stay right when a connection's history grows. */
  lemma PendingKept(c: Conn, d: Conn)
    requires ConnectOk(c) && IoOk(c) && c.isn == d.isn && c.ranges <= d.ranges && c.held <= d.held
    ensures d.connect == c.connect && d.phase == c.phase && d.fd == c.fd ==> ConnectOk(d)
    ensures c.connect !in {Opening, FdStored} && d.connect == c.connect ==> ConnectOk(d)
    ensures d.io == c.io ==> IoOk(d)
  {
    hide SentOk, Holds;
    match c.connect {
      case SynReserved(i, n) => HoldsKept(c, d, i, n, SynRange);
      case SynReady(s) => SentKept(c, d, s);
      case _ =>
    }
    match c.io {
      case DataReserved(i, n, bytes) => HoldsKept(c, d, i, n, DataRange(bytes));
      case FinReserved(i, n) => HoldsKept(c, d, i, n, FinRange);
      case DataReady(s) => SentKept(c, d, s);
      case FinReady(s) => SentKept(c, d, s);
      case _ =>
    }
  }

  // ── Changing one object ───────────────────────────────────────────────────

  lemma WithEvolves(w: World, id: nat, d: Conn)
    requires id < |w.objs| && Evolves(w.objs[id], d)
    ensures AllEvolve(w.objs, With(w, id, d).objs)
  {
  }

  // The three parts of WithKeeps: the table, the objects, and what was sent.

  lemma WithTable(w: World, id: nat, d: Conn, h: Handler)
    requires TableOk(w) && id < |w.objs| && d.key == w.objs[id].key
    requires w.objs[id].phase == ESTABLISHED ==> d.phase == ESTABLISHED
    requires h == w.handler || h.Idle? || (h.id == id && d.phase == ESTABLISHED)
    requires d.fins == w.objs[id].fins || Finishing(h, id)
    requires forall i :: Finishing(w.handler, i) ==> Finishing(h, i)
    requires h.FinBump? && h != w.handler ==> d.fins == 0
    ensures TableOk(With(w, id, d).(handler := h))
  {
  }

  lemma WithObjects(w: World, id: nat, d: Conn, h: Handler)
    requires ObjectsOk(w) && id < |w.objs| && ConnOk(d)
    requires d.written + Unwritten(h, id) == d.accepted
    requires forall i :: 0 <= i < |w.objs| && i != id ==> Unwritten(h, i) == Unwritten(w.handler, i)
    ensures ObjectsOk(With(w, id, d).(handler := h))
  {
    hide ConnOk, Unwritten;
  }

  lemma WithTraffic(w: World, id: nat, d: Conn, h: Handler)
    requires TrafficOk(w) && id < |w.objs| && Evolves(w.objs[id], d)
    requires h == w.handler || h.Idle? || (h.id == id && d.phase == ESTABLISHED && (w.handler.Idle? || w.handler.id == id))
    requires h.Writing? && h.reply.Some? ==> (h.id == id && SentOk(d, h.reply.value)) || h == w.handler
    ensures TrafficOk(With(w, id, d).(handler := h))
  {
    var w' := With(w, id, d).(handler := h);
    hide SentOk;
    forall j | 0 <= j < |w'.sent| ensures w'.sent[j].0 < |w'.objs| && SentOk(w'.objs[w'.sent[j].0], w'.sent[j].1) {
      if w.sent[j].0 == id {
        SentKept(w.objs[id], d, w.sent[j].1);
      }
    }
    if h.Writing? && h.reply.Some? && h == w.handler && h.id == id {
      SentKept(w.objs[id], d, h.reply.value);
    }
  }

  /** Replacing one object by an evolved one keeps the world, if the handler's claim on it still holds. */
  lemma WithKeeps(w: World, id: nat, d: Conn, h: Handler)
    requires WorldOk(w) && id < |w.objs| && ConnOk(d) && Evolves(w.objs[id], d)
    requires h == w.handler || h.Idle? || (h.id == id && d.phase == ESTABLISHED && (w.handler.Idle? || w.handler.id == id))
    requires d.fins == w.objs[id].fins || Finishing(h, id)
    requires forall i :: Finishing(w.handler, i) ==> Finishing(h, i)
    requires h.FinBump? && h != w.handler ==> d.fins == 0
    requires d.written + Unwritten(h, id) == d.accepted
    requires forall i :: 0 <= i < |w.objs| && i != id ==> Unwritten(h, i) == Unwritten(w.handler, i)
    requires h.Writing? && h.reply.Some? ==> (h.id == id && SentOk(d, h.reply.value)) || h == w.handler
    ensures WorldOk(With(w, id, d).(handler := h))
  {
    WithTraffic(w, id, d, h);
    WithTable(w, id, d, h);
    WithObjects(w, id, d, h);
    hide ConnOk, SentOk, TrafficOk, TableOk, ObjectsOk, With, Evolves, Finishing, Unwritten;
  }

  /** The same for steps of the other threads, which leave the handler alone. */
  lemma ThreadKeeps(w: World, id: nat, d: Conn)
    requires WorldOk(w) && id < |w.objs| && ConnOk(d) && Evolves(w.objs[id], d)
    requires d.written == w.objs[id].written && d.accepted == w.objs[id].accepted && d.fins == w.objs[id].fins
    ensures WorldOk(With(w, id, d))
    ensures AllEvolve(w.objs, With(w, id, d).objs)
  {
    WithKeeps(w, id, d, w.handler);
    WithEvolves(w, id, d);
    assert With(w, id, d) == With(w, id, d).(handler := w.handler);
  }

  lemma SendKeeps(w: World, id: nat, s: Sent)
    requires WorldOk(w) && id < |w.objs| && SentOk(w.objs[id], s)
    ensures WorldOk(TcpMachine.Send(w, id, s))
    ensures AllEvolve(w.objs, TcpMachine.Send(w, id, s).objs)
  {
    hide ConnOk, SentOk;
  }

  /** Removing entries, or adding one that names a matching object, keeps the table. */
  lemma TableKeeps(w: World, w': World)
    requires WorldOk(w) && w'.objs == w.objs && w'.handler == w.handler && w'.sent == w.sent
    requires forall k :: k in w'.conns ==> k in w.conns && w'.conns[k] == w.conns[k]
    ensures WorldOk(w')
    ensures AllEvolve(w.objs, w'.objs)
  {
    hide ConnOk, SentOk;
  }

  /** A new connection object, entered in the table under its own key or not at all. */
  lemma NewObjectKeeps(w: World, c: Conn, w': World)
    requires WorldOk(w) && ConnOk(c) && c.written == c.accepted == [] && c.fins == 0
    requires w'.objs == w.objs + [c] && w'.handler == w.handler && w'.sent == w.sent
    requires w'.conns == w.conns || w'.conns == w.conns[c.key := |w.objs|]
    ensures WorldOk(w')
    ensures AllEvolve(w.objs, w'.objs)
  {
    hide ConnOk, SentOk;
    assert forall i :: 0 <= i < |w.objs| ==> w'.objs[i] == w.objs[i];
    assert w'.objs[|w.objs|] == c;
  }

  // ── The connect thread ────────────────────────────────────────────────────

  lemma ConnectConnKeeps(c: Conn, d: Conn)
    requires ConnOk(c) && d.(connect := c.connect) == c && ConnectOk(d)
    ensures ConnOk(d) && Evolves(c, d)
  {
    PendingKept(c, d);
    hide SentOk;
  }

  lemma ConnectMoves(c: Conn, d: Conn)
    requires ConnOk(c)
    requires (c.connect == FdStored && d == c.(phase := SYNACK_SENT, connect := StateStored))
          || (c.connect == StateStored && d == Reserve(c, SynRange).(connect := SynReserved(|c.ranges|, c.hNxt)))
    ensures ConnOk(d) && Evolves(c, d)
  {
    ReserveKept(c, SynRange);
    PendingKept(c, d);
    hide SentOk, Start, Holds;
  }

  lemma ConnectStepKeeps(w: World, id: nat)
    requires WorldOk(w)
    ensures WorldOk(ConnectStep(w, id))
    ensures AllEvolve(w.objs, ConnectStep(w, id).objs)
  {
    if id < |w.objs| {
      var c := w.objs[id];
      assert ConnOk(c);
      hide WorldOk, ConnOk, Start, Reserve;
      match c.connect
      case FdStored =>
        ConnectMoves(c, c.(phase := SYNACK_SENT, connect := StateStored));
        ThreadKeeps(w, id, c.(phase := SYNACK_SENT, connect := StateStored));
      case StateStored =>
        var d := Reserve(c, SynRange).(connect := SynReserved(|c.ranges|, c.hNxt));
        ConnectMoves(c, d);
        assert d.written == c.written && d.accepted == c.accepted && d.fins == c.fins by { ReserveFrame(c, SynRange); }
        ThreadKeeps(w, id, d);
      case SynReserved(i, n) =>
        SynReadyOk(c, i, n);
        ConnectConnKeeps(c, c.(connect := SynReady(Sent(n, c.gNxt, SYN + ACK, [], Some(i)))));
        ThreadKeeps(w, id, c.(connect := SynReady(Sent(n, c.gNxt, SYN + ACK, [], Some(i)))));
      case SynReady(s) =>
        var d := c.(connect := NoConnect);
        ConnectConnKeeps(c, d);
        assert SentOk(c, s) by { assert ConnOk(c); ConnectThreadOk(c); }
        SentKept(c, d, s);
        ThreadKeeps(w, id, d);
        SendKeeps(With(w, id, d), id, s);
      case _ =>
    }
  }

  lemma ReserveFrame(c: Conn, r: Range)
    ensures var d := Reserve(c, r); d.written == c.written && d.accepted == c.accepted && d.fins == c.fins
  {
  }

  lemma ConnectThreadOk(c: Conn)
    requires ConnOk(c)
    ensures ConnectOk(c)
  {
  }

  lemma SynReadyOk(c: Conn, i: nat, n: u32)
    requires ConnOk(c) && c.connect == SynReserved(i, n)
    ensures ConnectOk(c.(connect := SynReady(Sent(n, c.gNxt, SYN + ACK, [], Some(i)))))
  {
  }

  lemma ConnectedKeeps(w: World, id: nat, fd: nat)
    requires WorldOk(w)
    ensures WorldOk(Connected(w, id, fd))
    ensures AllEvolve(w.objs, Connected(w, id, fd).objs)
  {
    if id < |w.objs| && w.objs[id].connect == Opening {
      var c := w.objs[id];
      var d := c.(fd := fd, connect := FdStored);
      assert ConnOk(c);
      hide WorldOk;
      PendingKept(c, d);
      ThreadKeeps(w, id, d);
    }
  }

  lemma ConnectFailedKeeps(w: World, id: nat)
    requires WorldOk(w)
    ensures WorldOk(ConnectFailed(w, id))
    ensures AllEvolve(w.objs, ConnectFailed(w, id).objs)
  {
    if id < |w.objs| && w.objs[id].connect == Opening && MutexFree(w) {
      var c := w.objs[id];
      assert ConnOk(c);
      hide WorldOk;
      ConnectConnKeeps(c, c.(connect := NoConnect));
      var v := With(w, id, c.(connect := NoConnect));
      ThreadKeeps(w, id, c.(connect := NoConnect));
      TableKeeps(v, Erase(v, c.key));
    }
  }

  // ── The IO thread ─────────────────────────────────────────────────────────

  /** The IO thread moves on without touching anything else. */
  lemma IoConnKeeps(c: Conn, d: Conn)
    requires ConnOk(c) && d.(io := c.io) == c && IoOk(d)
    requires c.io != NotLaunched && d.io != NotLaunched && Unreserved(c.io) == Unreserved(d.io)
    ensures ConnOk(d) && Evolves(c, d)
  {
    PendingKept(c, d);
    hide SentOk;
  }

  lemma IoReserveKeeps(c: Conn, r: Range, d: Conn)
    requires ConnOk(c) && d == Reserve(c, r).(io := d.io)
    requires c.io != NotLaunched && Unreserved(c.io) == (if r.DataRange? then r.bytes else [])
    requires d.io == (if r.DataRange? then DataReserved(|c.ranges|, c.hNxt, r.bytes) else FinReserved(|c.ranges|, c.hNxt))
    requires r != SynRange
    ensures ConnOk(d) && Evolves(c, d)
  {
    ReserveKept(c, r);
    PendingKept(c, d);
    hide SentOk, Start;
    assert d.hostRead == DataOf(d.ranges) + [];
  }

  lemma IoSetKeeps(w: World, id: nat, io: IoThread)
    requires WorldOk(w) && id < |w.objs| && IoOk(w.objs[id].(io := io))
    requires w.objs[id].io != NotLaunched && io != NotLaunched && Unreserved(w.objs[id].io) == Unreserved(io)
    ensures WorldOk(With(w, id, w.objs[id].(io := io)))
    ensures AllEvolve(w.objs, With(w, id, w.objs[id].(io := io)).objs)
  {
    var c := w.objs[id];
    assert ConnOk(c);
    hide WorldOk, IoOk;
    IoConnKeeps(c, c.(io := io));
    ThreadKeeps(w, id, c.(io := io));
  }

  lemma IoSendKeeps(w: World, id: nat, s: Sent, io: IoThread)
    requires WorldOk(w) && id < |w.objs| && w.objs[id].io in {DataReady(s), FinReady(s)}
    requires io in {AtTop, Finished}
    ensures WorldOk(TcpMachine.Send(With(w, id, w.objs[id].(io := io)), id, s))
    ensures AllEvolve(w.objs, TcpMachine.Send(With(w, id, w.objs[id].(io := io)), id, s).objs)
  {
    var c, d := w.objs[id], w.objs[id].(io := io);
    assert ConnOk(c);
    IoSetKeeps(w, id, io);
    hide WorldOk;
    SentKept(c, d, s);
    SendKeeps(With(w, id, d), id, s);
  }

  lemma IoTakeKeeps(w: World, id: nat, r: Range, d: Conn)
    requires WorldOk(w) && id < |w.objs| && r != SynRange
    requires w.objs[id].io == (if r.DataRange? then HasRead(r.bytes) else FinDue)
    requires var c := w.objs[id];
             d == Reserve(c, r).(io := if r.DataRange? then DataReserved(|c.ranges|, c.hNxt, r.bytes) else FinReserved(|c.ranges|, c.hNxt))
    ensures WorldOk(With(w, id, d))
    ensures AllEvolve(w.objs, With(w, id, d).objs)
  {
    var c := w.objs[id];
    assert ConnOk(c);
    hide WorldOk;
    IoReserveKeeps(c, r, d);
    ReserveFrame(c, r);
    hide ConnOk, Reserve;
    ThreadKeeps(w, id, d);
  }

  lemma IoReadyKeeps(w: World, id: nat, s: Sent)
    requires WorldOk(w) && id < |w.objs|
    requires var c := w.objs[id];
             || (c.io.DataReserved? && s == Sent(c.io.seqNo, c.gNxt, PSH + ACK, c.io.bytes, Some(c.io.range)))
             || (c.io.FinReserved? && s == Sent(c.io.seqNo, c.gNxt, FIN + ACK, [], Some(c.io.range)))
    ensures var io := if w.objs[id].io.DataReserved? then DataReady(s) else FinReady(s);
            WorldOk(With(w, id, w.objs[id].(io := io))) && AllEvolve(w.objs, With(w, id, w.objs[id].(io := io)).objs)
  {
    var c := w.objs[id];
    assert ConnOk(c);
    hide WorldOk, Start;
    var io := if c.io.DataReserved? then DataReady(s) else FinReady(s);
    assert IoOk(c.(io := io));
    hide IoOk, ConnOk;
    IoSetKeeps(w, id, io);
  }

  lemma IoStepKeeps(w: World, id: nat)
    requires WorldOk(w)
    ensures WorldOk(IoStep(w, id))
    ensures AllEvolve(w.objs, IoStep(w, id).objs)
  {
    if id < |w.objs| {
      var c := w.objs[id];
      hide WorldOk, Start, SentOk, Holds, Reserve;
      match c.io
      case AtTop => IoSetKeeps(w, id, if c.stop then Leaving else Polling);
      case Polling => IoSetKeeps(w, id, AtTop);
      case HasRead(bytes) => IoTakeKeeps(w, id, DataRange(bytes), Reserve(c, DataRange(bytes)).(io := DataReserved(|c.ranges|, c.hNxt, bytes)));
      case DataReserved(i, n, bytes) => IoReadyKeeps(w, id, Sent(n, c.gNxt, PSH + ACK, bytes, Some(i)));
      case DataReady(s) => IoSendKeeps(w, id, s, AtTop);
      case Leaving => IoSetKeeps(w, id, if c.stop then Finished else FinDue);
      case FinDue => IoTakeKeeps(w, id, FinRange, Reserve(c, FinRange).(io := FinReserved(|c.ranges|, c.hNxt)));
      case FinReserved(i, n) => IoReadyKeeps(w, id, Sent(n, c.gNxt, FIN + ACK, [], Some(i)));
      case FinReady(s) => IoSendKeeps(w, id, s, Finished);
      case Finished =>
        if MutexFree(w) {
          IoSetKeeps(w, id, Exited);
          var v := With(w, id, c.(io := Exited));
          TableKeeps(v, v.(doneQueue := w.doneQueue + [c.key]));
        }
      case _ =>
    }
  }

  lemma IoReadKeeps(w: World, id: nat, bytes: seq<byte>)
    requires WorldOk(w)
    ensures WorldOk(IoRead(w, id, bytes))
    ensures AllEvolve(w.objs, IoRead(w, id, bytes).objs)
  {
    if id < |w.objs| && w.objs[id].io == Polling && |bytes| <= MAX_DATA {
      if bytes == [] {
        IoSetKeeps(w, id, Leaving);
      } else {
        var c := w.objs[id];
        var d := c.(io := HasRead(bytes), hostRead := c.hostRead + bytes);
        assert ConnOk(c);
        hide WorldOk;
        PendingKept(c, d);
        assert d.hostRead == (DataOf(c.ranges) + []) + bytes == DataOf(c.ranges) + bytes;
        ThreadKeeps(w, id, d);
      }
    }
  }

  // ── The frame handler ─────────────────────────────────────────────────────

  lemma OpenedOk(seg: Segment)
    ensures ConnOk(OpenedByGuest(seg))
  {
  }

  lemma TakeDataKeeps(c: Conn, data: seq<byte>)
    requires ConnOk(c)
    ensures ConnOk(TakeData(c, data)) && Evolves(c, TakeData(c, data))
  {
    PendingKept(c, TakeData(c, data));
    hide SentOk, Holds, DataOf, Total;
  }

  lemma LaunchKeeps(c: Conn)
    requires ConnOk(c) && c.phase == SYNACK_SENT
    ensures var d := c.(phase := ESTABLISHED, io := AtTop, launches := c.launches + 1); ConnOk(d) && Evolves(c, d)
  {
    PendingKept(c, c.(phase := ESTABLISHED, io := AtTop, launches := c.launches + 1));
    hide SentOk, Holds, DataOf, Total;
  }

  lemma StopKeeps(c: Conn)
    requires ConnOk(c)
    ensures ConnOk(c.(stop := true)) && Evolves(c, c.(stop := true))
  {
    PendingKept(c, c.(stop := true));
    hide SentOk, Holds, DataOf, Total;
  }

  lemma BumpKeeps(c: Conn)
    requires ConnOk(c)
    ensures var d := SetG(c, Add32(c.gNxt, 1)).(fins := c.fins + 1); ConnOk(d) && Evolves(c, d)
  {
    PendingKept(c, SetG(c, Add32(c.gNxt, 1)).(fins := c.fins + 1));
    hide SentOk, Holds, DataOf, Total;
  }

  lemma SameEvolves(c: Conn)
    ensures Evolves(c, c)
  {
  }

  lemma EstablishedKeeps(w: World, id: nat, seg: Segment)
    requires WorldOk(w) && w.handler == Idle && id < |w.objs| && w.objs[id].phase == ESTABLISHED
    requires !Has(seg.flags, RST) && w.objs[id].fins == 0
    ensures WorldOk(HandleKnown(w, id, seg))
    ensures AllEvolve(w.objs, HandleKnown(w, id, seg).objs)
  {
    var c := w.objs[id];
    assert ConnOk(c) && c.written + [] == c.accepted;
    SameEvolves(c);
    hide WorldOk, ConnOk, Evolves, Add32;
    var data := if InOrder(c, seg) then seg.data else [];
    var h := if Has(seg.flags, FIN) then FinBump(id, data) else Acking(id, data, false);
    if InOrder(c, seg) {
      TakeDataKeeps(c, data);
      HandingKeeps(w, id, TakeData(c, data), h);
    } else {
      assert c.written + data == c.accepted;
      HandingKeeps(w, id, c, h);
      assert With(w, id, c) == w;
    }
  }

  /** The handler takes a connection in hand, with the data it has just accepted. */
  lemma HandingKeeps(w: World, id: nat, d: Conn, h: Handler)
    requires WorldOk(w) && w.handler == Idle && id < |w.objs| && ConnOk(d) && Evolves(w.objs[id], d)
    requires d.phase == ESTABLISHED && d.fins == w.objs[id].fins == 0
    requires (h.FinBump? || h.Acking?) && h.id == id && d.written + h.data == d.accepted
    ensures WorldOk(With(w, id, d).(handler := h))
    ensures AllEvolve(w.objs, With(w, id, d).objs)
  {
    hide WorldOk, ConnOk, Evolves;
    WithKeeps(w, id, d, h);
    WithEvolves(w, id, d);
  }

  lemma HandleKnownKeeps(w: World, id: nat, seg: Segment)
    requires WorldOk(w) && w.handler == Idle && id < |w.objs| && w.objs[id].fins == 0
    ensures WorldOk(HandleKnown(w, id, seg))
    ensures AllEvolve(w.objs, HandleKnown(w, id, seg).objs)
  {
    var c := w.objs[id];
    assert ConnOk(c);
    hide WorldOk, ConnOk;
    if Has(seg.flags, RST) {
      var d := c.(stop := true);
      StopKeeps(c);
      ThreadKeeps(w, id, d);
      TableKeeps(With(w, id, d), Erase(With(w, id, d), seg.key));
    } else if c.phase == SYNACK_SENT {
      LaunchKeeps(c);
      if Has(seg.flags, ACK) {
        ThreadKeeps(w, id, c.(phase := ESTABLISHED, io := AtTop, launches := c.launches + 1));
      }
    } else if c.phase == ESTABLISHED {
      EstablishedKeeps(w, id, seg);
    }
  }

  lemma DeliverKeeps(w: World, seg: Segment)
    requires WorldOk(w)
    ensures WorldOk(Deliver(w, seg))
    ensures AllEvolve(w.objs, Deliver(w, seg).objs)
  {
    if w.handler.Idle? {
      var v := w.(conns := Reap(w.conns, w.doneQueue), doneQueue := []);
      TableKeeps(w, v);
      EntryFacts(v);
      hide WorldOk, HandleKnown;
      if Has(seg.flags, SYN) && !Has(seg.flags, ACK) {
        OpenedOk(seg);
        if seg.key !in v.conns {
          NewObjectKeeps(v, OpenedByGuest(seg), HandleSyn(v, seg));
        }
      } else if seg.key in v.conns {
        HandleKnownKeeps(v, v.conns[seg.key], seg);
      } else if !Has(seg.flags, RST) {
        TableKeeps(v, Deliver(w, seg));
      }
    }
  }

  lemma EntryFacts(w: World)
    requires WorldOk(w) && w.handler.Idle?
    ensures forall k :: k in w.conns ==> w.conns[k] < |w.objs| && w.objs[w.conns[k]].fins == 0
  {
    hide ObjectsOk, TrafficOk;
  }

  lemma HandlerStepKeeps(w: World)
    requires WorldOk(w)
    ensures WorldOk(HandlerStep(w))
    ensures AllEvolve(w.objs, HandlerStep(w).objs)
  {
    match w.handler
    case Idle =>
    case FinBump(id, data) => FinBumpKeeps(w, id, data);
    case FinStop(id, data) => FinStopKeeps(w, id, data);
    case FinErase(id, data) => FinEraseKeeps(w, id, data);
    case Acking(id, data, fin) => AckingKeeps(w, id, data, fin);
    case Writing(id, data, reply) => WritingKeeps(w, id, data, reply);
  }

  lemma FinBumpKeeps(w: World, id: nat, data: seq<byte>)
    requires WorldOk(w) && w.handler == FinBump(id, data)
    ensures WorldOk(HandlerStep(w))
    ensures AllEvolve(w.objs, HandlerStep(w).objs)
  {
    var c := w.objs[id];
    var d := SetG(c, Add32(c.gNxt, 1)).(fins := c.fins + 1);
    BumpKeeps(c);
    assert HandlerStep(w) == With(w, id, d).(handler := FinStop(id, data));
    hide ConnOk, HandlerStep, Evolves, TrafficOk;
    WithKeeps(w, id, d, FinStop(id, data));
    WithEvolves(w, id, d);
  }

  lemma FinStopKeeps(w: World, id: nat, data: seq<byte>)
    requires WorldOk(w) && w.handler == FinStop(id, data)
    ensures WorldOk(HandlerStep(w))
    ensures AllEvolve(w.objs, HandlerStep(w).objs)
  {
    StopKeeps(w.objs[id]);
    hide ConnOk;
    WithKeeps(w, id, w.objs[id].(stop := true), FinErase(id, data));
    WithEvolves(w, id, w.objs[id].(stop := true));
  }

  lemma FinEraseKeeps(w: World, id: nat, data: seq<byte>)
    requires WorldOk(w) && w.handler == FinErase(id, data)
    ensures WorldOk(HandlerStep(w))
    ensures AllEvolve(w.objs, HandlerStep(w).objs)
  {
    hide ConnOk, SentOk;
    var v := Erase(w, w.objs[id].key);
    TableKeeps(w, v);
    SameObjectKeeps(v, Acking(id, data, true));
  }

  /** The handler moves on with the same object and the same data. */
  lemma SameObjectKeeps(w: World, h: Handler)
    requires WorldOk(w) && !w.handler.Idle? && !h.Idle? && h.id == w.handler.id && h.data == w.handler.data
    requires h.Acking? || h.Writing?
    requires forall k :: k in w.conns ==> !Finishing(w.handler, w.conns[k])
    requires h.Writing? && h.reply.Some? ==> SentOk(w.objs[h.id], h.reply.value)
    ensures WorldOk(w.(handler := h))
    ensures AllEvolve(w.objs, w.objs)
  {
    hide ConnOk, SentOk;
    Unchanged(w.objs);
  }

  lemma AckingKeeps(w: World, id: nat, data: seq<byte>, fin: bool)
    requires WorldOk(w) && w.handler == Acking(id, data, fin)
    ensures WorldOk(HandlerStep(w))
    ensures AllEvolve(w.objs, HandlerStep(w).objs)
  {
    var c := w.objs[id];
    assert ConnOk(c);
    if fin {
      var d, s := Reserve(c, FinRange), Sent(c.hNxt, c.gNxt, FIN + ACK, [], Some(|c.ranges|));
      FinReserveKeeps(c);
      hide ConnOk, SentOk, Reserve;
      ReserveFrame(c, FinRange);
      WithKeeps(w, id, d, Writing(id, data, Some(s)));
      WithEvolves(w, id, d);
    } else if data != [] {
      var s := Sent(c.hNxt, c.gNxt, ACK, [], None);
      assert c.ranges[..|c.ranges|] == c.ranges;
      assert s.seqNo == Start(c, |c.ranges|);
      assert SentOk(c, s);
      hide WorldOk, SentOk, ConnOk;
      SameObjectKeeps(w, Writing(id, data, Some(s)));
    } else {
      SameObjectKeeps(w, Writing(id, data, None));
    }
  }

  lemma FinReserveKeeps(c: Conn)
    requires ConnOk(c)
    ensures var d := Reserve(c, FinRange);
            ConnOk(d) && Evolves(c, d) && SentOk(d, Sent(c.hNxt, c.gNxt, FIN + ACK, [], Some(|c.ranges|)))
  {
    var d := Reserve(c, FinRange);
    ReserveKept(c, FinRange);
    PendingKept(c, d);
    assert DataOf(d.ranges) == DataOf(c.ranges) + [];
    hide Start, DataOf, Total;
  }

  lemma WritingKeeps(w: World, id: nat, data: seq<byte>, reply: Option<Sent>)
    requires WorldOk(w) && w.handler == Writing(id, data, reply)
    ensures WorldOk(HandlerStep(w))
    ensures AllEvolve(w.objs, HandlerStep(w).objs)
  {
    var c := w.objs[id];
    var d := c.(written := c.written + data);
    assert ConnOk(c);
    WriteKeeps(c, data);
    WithKeeps(w, id, d, Idle);
    WithEvolves(w, id, d);
    if reply.Some? {
      SentKept(c, d, reply.value);
      hide WorldOk, SentOk;
      SendKeeps(With(w, id, d).(handler := Idle), id, reply.value);
    }
  }

  lemma WriteKeeps(c: Conn, data: seq<byte>)
    requires ConnOk(c)
    ensures ConnOk(c.(written := c.written + data)) && Evolves(c, c.(written := c.written + data))
  {
    PendingKept(c, c.(written := c.written + data));
    hide SentOk, Holds, DataOf, Total;
  }

  // ── Port forwarding, and all steps ────────────────────────────────────────

  lemma ForwardOpenKeeps(w: World, k: Key, fd: nat)
    requires WorldOk(w)
    ensures WorldOk(ForwardOpen(w, k, fd))
    ensures AllEvolve(w.objs, ForwardOpen(w, k, fd).objs)
  {
    if MutexFree(w) {
      var w' := ForwardOpen(w, k, fd);
      var c := w'.objs[|w.objs|];
      assert c.ranges[..0] == [];
      assert ConnOk(c);
      hide WorldOk, ConnOk;
      NewObjectKeeps(w, c, w');
    }
  }

  lemma ForwardSynKeeps(w: World, id: nat)
    requires WorldOk(w)
    ensures WorldOk(ForwardSyn(w, id))
    ensures AllEvolve(w.objs, ForwardSyn(w, id).objs)
  {
    if id < |w.objs| && w.objs[id].guestIsn == None {
      var c := w.objs[id];
      assert ConnOk(c);
      assert c.ranges[..0] == [];
      assert SentOk(c, Sent(c.isn, 0, SYN, [], Some(0)));
      hide WorldOk, SentOk;
      SendKeeps(w, id, Sent(c.isn, 0, SYN, [], Some(0)));
    }
  }

  lemma StepKeeps(w: World, s: Step)
    requires WorldOk(w)
    ensures WorldOk(Apply(w, s))
    ensures AllEvolve(w.objs, Apply(w, s).objs)
  {
    hide WorldOk;
    match s
    case StepDeliver(seg) => DeliverKeeps(w, seg);
    case StepHandler => HandlerStepKeeps(w);
    case StepConnected(id, fd) => ConnectedKeeps(w, id, fd);
    case StepConnectFailed(id) => ConnectFailedKeeps(w, id);
    case StepConnect(id) => ConnectStepKeeps(w, id);
    case StepRead(id, bytes) => IoReadKeeps(w, id, bytes);
    case StepIo(id) => IoStepKeeps(w, id);
    case StepForwardOpen(k, fd) => ForwardOpenKeeps(w, k, fd);
    case StepForwardSyn(id) => ForwardSynKeeps(w, id);
    case StepForwardTimeout(id) => if id < |w.objs| { TableKeeps(w, Erase(w, w.objs[id].key)); }
  }

  /** In every run of the stack, whatever the interleaving. */
  lemma {:induction false} RunKeeps(w: World, steps: seq<Step>)
    requires WorldOk(w)
    ensures WorldOk(Run(w, steps))
    decreases steps
  {
    if steps != [] {
      StepKeeps(w, steps[0]);
      hide WorldOk, Apply;
      RunKeeps(Apply(w, steps[0]), steps[1..]);
    }
  }

  // ── Consequences ──────────────────────────────────────────────────────────

  /**
     The connection table over all runs: entries mirror their keys, past CONNECTING there is a
     descriptor, and a connection has an IO thread exactly when it is ESTABLISHED, and only one.
   */
  lemma TableInvariant(steps: seq<Step>, k: Key)
    requires k in Run(EMPTY, steps).conns
    ensures var w := Run(EMPTY, steps); var c := w.objs[w.conns[k]];
            && c.srcIp == k.dip && c.srcPort == k.dp && c.dstIp == k.sip && c.dstPort == k.sp
            && (c.phase != CONNECTING ==> c.fd >= 0)
            && c.launches == (if c.phase == ESTABLISHED then 1 else 0)
  {
    RunKeeps(EMPTY, steps);
    var w := Run(EMPTY, steps);
    hide Run;
    assert ConnOk(w.objs[w.conns[k]]);
  }

  // ── Host to guest: the reservations partition the sequence space ──────────

  lemma {:induction false} TotalMonotone(rs: seq<Range>, i: nat, j: nat)
    requires i <= j <= |rs|
    ensures Total(rs[..i]) <= Total(rs[..j])
    ensures i < j ==> Total(rs[..i]) + Width(rs[i]) <= Total(rs[..j])
    decreases j
  {
    if i < j {
      assert rs[..j][..j - 1] == rs[..j - 1];
      TotalMonotone(rs, i, j - 1);
    }
  }

  /**
     Every offset below the total lies in exactly one reservation: there is no gap between the
     reservations and no overlap, and in order they start where the previous one ended.
   */
  lemma RangesTile(rs: seq<Range>, x: nat) returns (i: nat)
    requires x < Total(rs)
    ensures i < |rs| && Total(rs[..i]) <= x < Total(rs[..i]) + Width(rs[i])
    ensures forall j :: 0 <= j < |rs| && Total(rs[..j]) <= x < Total(rs[..j]) + Width(rs[j]) ==> j == i
    ensures Total(rs[..i + 1]) == Total(rs[..i]) + Width(rs[i])
  {
    i := RangeOf(rs, x);
    hide Total, Width;
    forall j | 0 <= j < |rs| && Total(rs[..j]) <= x < Total(rs[..j]) + Width(rs[j]) ensures j == i {
      if j < i {
        TotalMonotone(rs, j, i);
      } else if i < j {
        TotalMonotone(rs, i, j);
      }
    }
  }

  lemma {:induction false} RangeOf(rs: seq<Range>, x: nat) returns (i: nat)
    requires x < Total(rs)
    ensures i < |rs| && Total(rs[..i]) <= x < Total(rs[..i]) + Width(rs[i])
    ensures Total(rs[..i + 1]) == Total(rs[..i]) + Width(rs[i])
    decreases |rs|
  {
    var n := |rs| - 1;
    if x >= Total(rs[..n]) {
      i := n;
      assert rs[..n + 1] == rs;
    } else {
      i := RangeOf(rs[..n], x);
      hide Total, Width;
      assert rs[..n][..i] == rs[..i] && rs[..n][..i + 1] == rs[..i + 1];
    }
  }

  /** Offset `x` from the initial number lies in reservation `i`. */
  predicate Covers(rs: seq<Range>, i: nat, x: nat)
  {
    i < |rs| && Total(rs[..i]) <= x < Total(rs[..i]) + Width(rs[i])
  }

  ghost predicate Covered(rs: seq<Range>, x: nat)
  {
    exists i :: Covers(rs, i, x)
  }

  /** Every offset below the total lies in one reservation and in no two. */
  ghost predicate Partitioned(rs: seq<Range>)
  {
    && (forall x: nat :: x < Total(rs) ==> Covered(rs, x))
    && (forall x: nat, i, j :: Covers(rs, i, x) && Covers(rs, j, x) ==> i == j)
  }

  lemma Partition(rs: seq<Range>)
    ensures Partitioned(rs)
  {
    hide Total, Width;
    forall x: nat {:trigger Covered(rs, x)} | x < Total(rs) ensures Covered(rs, x) {
      var i := RangesTile(rs, x);
      assert Covers(rs, i, x);
    }
    forall x: nat, i, j | Covers(rs, i, x) && Covers(rs, j, x) ensures i == j {
      if i < j {
        TotalMonotone(rs, i, j);
      } else if j < i {
        TotalMonotone(rs, j, i);
      }
    }
  }

  /**
     Segment `s` starts at its own reservation and has its data and flags; with none of its own it
     has no data, no SYN and no FIN.
   */
  predicate FromReservation(c: Conn, s: Sent)
  {
    match s.range
    case Some(i) =>
      && i < |c.ranges| && s.seqNo == Start(c, i)
      && s.data == (if c.ranges[i].DataRange? then c.ranges[i].bytes else [])
      && (Has(s.flags, SYN) <==> c.ranges[i] == SynRange) && (Has(s.flags, FIN) <==> c.ranges[i] == FinRange)
    case None => s.data == [] && !Has(s.flags, SYN) && !Has(s.flags, FIN)
  }

  /**
     In every run and for every connection: the reservations made partition the sequence numbers from
     the initial one up to h_nxt, with no gap and no overlap, and each segment sent, SYN-ACK, data or
     FIN, has the first number, the data and the flags of its own reservation.
   */
  lemma ReservationsPartition(steps: seq<Step>, id: nat)
    requires id < |Run(EMPTY, steps).objs|
    ensures var w := Run(EMPTY, steps); var c := w.objs[id];
            && c.hNxt == Add32(c.isn, Total(c.ranges)) && Partitioned(c.ranges)
            && (forall j :: 0 <= j < |w.sent| && w.sent[j].0 == id ==> FromReservation(c, w.sent[j].1))
  {
    RunKeeps(EMPTY, steps);
    var w := Run(EMPTY, steps);
    Partition(w.objs[id].ranges);
    ObjectFacts(w, id);
    hide Run, Partitioned, FromReservation, WorldOk;
    forall j | 0 <= j < |w.sent| && w.sent[j].0 == id ensures FromReservation(w.objs[id], w.sent[j].1) {
      SentFacts(w, j);
    }
  }

  lemma SentFacts(w: World, j: nat)
    requires WorldOk(w) && j < |w.sent|
    ensures w.sent[j].0 < |w.objs| && FromReservation(w.objs[w.sent[j].0], w.sent[j].1)
    ensures |w.sent[j].1.data| <= MAX_DATA
  {
    assert SentOk(w.objs[w.sent[j].0], w.sent[j].1);
    hide Start, WorldOk;
  }

  /** Reservation `i` of data is the stretch of the host's stream that follows the data before it. */
  lemma {:induction false} DataInPlace(rs: seq<Range>, i: nat)
    requires i < |rs| && rs[i].DataRange?
    ensures var at := |DataOf(rs[..i])|;
            at + |rs[i].bytes| <= |DataOf(rs)| && DataOf(rs)[at..at + |rs[i].bytes|] == rs[i].bytes
    decreases |rs|
  {
    var n := |rs| - 1;
    if i < n {
      assert rs[..n][..i] == rs[..i];
      DataInPlace(rs[..n], i);
      assert DataOf(rs)[..|DataOf(rs[..n])|] == DataOf(rs[..n]);
    }
  }

  /**
     In every run: h_nxt stands at the end of the reservations made so far, and each data segment
     sent starts at its own reservation and carries exactly the bytes read from the host socket
     at that place of the stream.
   */
  lemma HostStreamInPlace(steps: seq<Step>, j: nat)
    requires j < |Run(EMPTY, steps).sent|
    ensures var w := Run(EMPTY, steps); var (id, s) := w.sent[j];
            && id < |w.objs|
            && w.objs[id].hNxt == Add32(w.objs[id].isn, Total(w.objs[id].ranges))
            && (s.data != [] ==>
                  && s.range.Some? && s.range.value < |w.objs[id].ranges|
                  && s.seqNo == Start(w.objs[id], s.range.value)
                  && var at := |DataOf(w.objs[id].ranges[..s.range.value])|;
                     at + |s.data| <= |w.objs[id].hostRead| && w.objs[id].hostRead[at..at + |s.data|] == s.data)
  {
    RunKeeps(EMPTY, steps);
    var w := Run(EMPTY, steps);
    hide Run;
    var (id, s) := w.sent[j];
    var c := w.objs[id];
    assert ConnOk(c) && SentOk(c, s);
    hide WorldOk;
    if s.data != [] {
      DataInPlace(c.ranges, s.range.value);
      assert c.hostRead[..|DataOf(c.ranges)|] == DataOf(c.ranges);
    }
  }

  /** Every segment sent in a run fits a frame, so `send_tcp` can emit it. */
  lemma SegmentsFit(steps: seq<Step>, j: nat)
    requires j < |Run(EMPTY, steps).sent|
    ensures |Run(EMPTY, steps).sent[j].1.data| <= MAX_DATA
  {
    RunKeeps(EMPTY, steps);
    hide *;
    SentFacts(Run(EMPTY, steps), j);
  }

  // ── Guest to host: a prefix of the guest's stream ─────────────────────────

  /** Every ACK sent carries a value g_nxt has had. */
  lemma AcksAreHeld(steps: seq<Step>, j: nat)
    requires j < |Run(EMPTY, steps).sent|
    ensures var w := Run(EMPTY, steps); var (id, s) := w.sent[j];
            id < |w.objs| && (Has(s.flags, ACK) ==> s.ackNo in w.objs[id].held)
  {
    RunKeeps(EMPTY, steps);
    var w := Run(EMPTY, steps);
    hide Run;
    assert SentOk(w.objs[w.sent[j].0], w.sent[j].1);
  }

  /** `data` lies in `stream` at `a`. */
  predicate LiesAt(stream: seq<byte>, a: nat, data: seq<byte>)
  {
    a + |data| <= |stream| && stream[a..a + |data|] == data
  }

  /**
     A segment of the guest's stream: its sequence number is that of its first byte, and it is
     less than a full turn of the sequence space away from what has been accepted. Lost, repeated,
     reordered and re-cut segments all are of this kind.
   */
  ghost predicate Genuine(c: Conn, seg: Segment, stream: seq<byte>)
  {
    c.guestIsn.Some? && exists a: nat ::
      && LiesAt(stream, a, seg.data)
      && seg.seqNo == Add32(c.guestIsn.value, 1 + a)
      && -U32_RANGE < a - |c.accepted| < U32_RANGE
  }

  /** The table, once finished connections are reaped, finds connection `id` for the segment. */
  predicate FoundAs(w: World, seg: Segment, id: nat)
  {
    var conns := Reap(w.conns, w.doneQueue); seg.key in conns && conns[seg.key] == id
  }

  /**
     If step `s` brings data for connection `id`, it is genuine. Segments that arrive when its entry
     is gone, or when its addresses and ports belong to another connection, may hold anything.
   */
  ghost predicate GenuineStep(w: World, s: Step, id: nat, stream: seq<byte>)
  {
    s.StepDeliver? && id < |w.objs| && FoundAs(w, s.seg, id) && s.seg.data != [] ==>
      Genuine(w.objs[id], s.seg, stream)
  }

  ghost predicate GenuineRun(w: World, steps: seq<Step>, id: nat, stream: seq<byte>)
    requires Bound(w)
    decreases steps
  {
    steps != [] ==> GenuineStep(w, steps[0], id, stream) && GenuineRun(Apply(w, steps[0]), steps[1..], id, stream)
  }

  lemma SameTurn(base: u32, x: nat, y: nat)
    requires Add32(base, 1 + x) == Add32(base, 1 + y) && -U32_RANGE < x - y < U32_RANGE
    ensures x == y
  {
    var p, q := base as int + 1 + x, base as int + 1 + y;
    assert p == U32_RANGE * (p / U32_RANGE) + p % U32_RANGE;
    assert q == U32_RANGE * (q / U32_RANGE) + q % U32_RANGE;
    assert p - q == U32_RANGE * (p / U32_RANGE - q / U32_RANGE);
  }

  /** Data is accepted only from a segment that starts at g_nxt, before any FIN. */
  lemma AcceptedStep(w: World, s: Step, id: nat)
    requires WorldOk(w) && id < |w.objs|
    ensures id < |Apply(w, s).objs|
    ensures var c, d := w.objs[id], Apply(w, s).objs[id];
            d.accepted == c.accepted
            || (s.StepDeliver? && FoundAs(w, s.seg, id) && InOrder(c, s.seg) && c.fins == 0 && d.accepted == c.accepted + s.seg.data)
  {
    assert TableOk(w) && Bound(w);
    hide WorldOk, TableOk, Deliver, HandlerStep, ConnectStep, IoStep, FoundAs;
    match s
    case StepDeliver(seg) => AcceptedDeliver(w, seg, id);
    case StepHandler => AcceptedHandler(w, id);
    case StepConnect(i) => AcceptedConnect(w, i, id);
    case StepIo(i) => AcceptedIo(w, i, id);
    case _ =>
  }

  lemma AcceptedHandler(w: World, id: nat)
    requires Bound(w) && id < |w.objs|
    ensures id < |HandlerStep(w).objs| && HandlerStep(w).objs[id].accepted == w.objs[id].accepted
  {
    hide Add32, Reserve;
    if w.handler.Acking? {
      ReserveFrame(w.objs[w.handler.id], FinRange);
    }
  }

  lemma AcceptedConnect(w: World, i: nat, id: nat)
    requires Bound(w) && id < |w.objs|
    ensures id < |ConnectStep(w, i).objs| && ConnectStep(w, i).objs[id].accepted == w.objs[id].accepted
  {
  }

  lemma AcceptedIo(w: World, i: nat, id: nat)
    requires Bound(w) && id < |w.objs|
    ensures id < |IoStep(w, i).objs| && IoStep(w, i).objs[id].accepted == w.objs[id].accepted
  {
  }

  lemma AcceptedDeliver(w: World, seg: Segment, id: nat)
    requires TableOk(w) && id < |w.objs|
    ensures id < |Deliver(w, seg).objs|
    ensures var c, d := w.objs[id], Deliver(w, seg).objs[id];
            d.accepted == c.accepted
            || (FoundAs(w, seg, id) && InOrder(c, seg) && c.fins == 0 && d.accepted == c.accepted + seg.data)
  {
  }

  /** What is accepted stays a prefix of the guest's stream. */
  lemma PrefixStep(w: World, s: Step, id: nat, stream: seq<byte>)
    requires WorldOk(w) && id < |w.objs| && w.objs[id].guestIsn.Some?
    requires w.objs[id].accepted <= stream && GenuineStep(w, s, id, stream)
    ensures id < |Apply(w, s).objs| && Apply(w, s).objs[id].accepted <= stream
  {
    AcceptedStep(w, s, id);
    var c := w.objs[id];
    assert ConnOk(c);
    hide WorldOk, Apply, ConnOk, Genuine, InOrder, FoundAs;
    if Apply(w, s).objs[id].accepted != c.accepted {
      InOrderFits(c, s.seg, stream);
    }
  }

  /** A genuine segment that starts at g_nxt holds the next bytes of the stream. */
  lemma InOrderFits(c: Conn, seg: Segment, stream: seq<byte>)
    requires ConnOk(c) && c.fins == 0 && c.accepted <= stream && InOrder(c, seg) && Genuine(c, seg, stream)
    ensures c.accepted + seg.data <= stream
  {
    GuestNext(c);
    hide ConnOk, Add32;
    var a: nat :| LiesAt(stream, a, seg.data) && seg.seqNo == Add32(c.guestIsn.value, 1 + a)
                  && -U32_RANGE < a - |c.accepted| < U32_RANGE;
    SameTurn(c.guestIsn.value, a, |c.accepted|);
  }

  lemma GuestNext(c: Conn)
    requires ConnOk(c) && c.guestIsn.Some?
    ensures c.gNxt == Add32(c.guestIsn.value, 1 + |c.accepted| + c.fins)
  {
  }

  lemma {:induction false} PrefixRun(w: World, steps: seq<Step>, id: nat, stream: seq<byte>)
    requires WorldOk(w) && id < |w.objs| && w.objs[id].guestIsn.Some?
    requires w.objs[id].accepted <= stream && GenuineRun(w, steps, id, stream)
    ensures var v := Run(w, steps);
            WorldOk(v) && id < |v.objs| && v.objs[id].accepted <= stream && v.objs[id].guestIsn == w.objs[id].guestIsn
    decreases steps
  {
    if steps != [] {
      var s := steps[0];
      PrefixStep(w, s, id, stream);
      StepKeeps(w, s);
      assert Evolves(w.objs[id], Apply(w, s).objs[id]);
      hide WorldOk, Apply, GenuineStep;
      PrefixRun(Apply(w, s), steps[1..], id, stream);
    }
  }

  /**
     For a connection the guest opens with sequence number `isn`, whatever happens to its segments
     on the way and however the threads interleave: what reaches the host socket, and what waits to
     be written to it, is a prefix of the guest's stream, and until a FIN is processed g_nxt is
     one more than `isn` plus the number of bytes accepted, modulo 2^32.
   */
  lemma GuestStreamIsPrefix(before: seq<Step>, seg: Segment, after: seq<Step>, stream: seq<byte>)
    requires var w := Run(EMPTY, before);
             && w.handler == Idle && seg.key !in Reap(w.conns, w.doneQueue)
             && Has(seg.flags, SYN) && !Has(seg.flags, ACK)
             && GenuineRun(Apply(w, StepDeliver(seg)), after, |w.objs|, stream)
    ensures var w := Run(EMPTY, before); var id := |w.objs|;
            var v := Run(Apply(w, StepDeliver(seg)), after);
            && id < |v.objs| && v.objs[id].written <= v.objs[id].accepted <= stream
            && v.objs[id].gNxt == Add32(seg.seqNo, 1 + |v.objs[id].accepted| + v.objs[id].fins)
  {
    RunKeeps(EMPTY, before);
    var w := Run(EMPTY, before);
    var id := |w.objs|;
    StepKeeps(w, StepDeliver(seg));
    var u := Apply(w, StepDeliver(seg));
    assert u.objs[id] == OpenedByGuest(seg);
    hide Apply, Run, WorldOk;
    PrefixRun(u, after, id, stream);
    var v := Run(u, after);
    ObjectFacts(v, id);
  }

  lemma ObjectFacts(w: World, id: nat)
    requires WorldOk(w) && id < |w.objs|
    ensures w.objs[id].written <= w.objs[id].accepted
    ensures w.objs[id].hNxt == Add32(w.objs[id].isn, Total(w.objs[id].ranges))
    ensures w.objs[id].guestIsn.Some? ==>
              w.objs[id].gNxt == Add32(w.objs[id].guestIsn.value, 1 + |w.objs[id].accepted| + w.objs[id].fins)
  {
    assert ConnOk(w.objs[id]);
  }
}
