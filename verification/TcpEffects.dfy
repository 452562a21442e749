/**
 What the TCP code does with a segment, with a connected socket and with data from the host, told from
 outside: by flag bits, sequence numbers and the bytes moved. `TcpProofs` says what never goes wrong;
 this says what does happen.
 */
module TcpEffects {
  import opened Bytes
  import opened TcpMachine
  import opened TcpProofs
  import opened TcpStack

  predicate FinBit(flags: byte)
  {
    flags % 2 == 1
  }

  predicate SynBit(flags: byte)
  {
    flags / 2 % 2 == 1
  }

  predicate RstBit(flags: byte)
  {
    flags / 4 % 2 == 1
  }

  predicate AckBit(flags: byte)
  {
    flags / 16 % 2 == 1
  }

  /** The segment is a first SYN. */
  predicate Opens(seg: Segment)
  {
    SynBit(seg.flags) && !AckBit(seg.flags)
  }

  lemma Bits(flags: byte)
    ensures Has(flags, FIN) == FinBit(flags) && Has(flags, SYN) == SynBit(flags)
    ensures Has(flags, RST) == RstBit(flags) && Has(flags, TcpMachine.ACK) == AckBit(flags)
  {
  }

  /** An entry of a connection whose IO thread has not finished. */
  predicate Found(w: World, k: Key, id: nat)
  {
    k in w.conns && k !in w.doneQueue && w.conns[k] == id
  }

  predicate Unknown(w: World, k: Key)
  {
    k !in w.conns || k in w.doneQueue
  }

  /** The table after finished connections are reaped. */
  ghost predicate Reaped(w: World, conns: map<Key, nat>)
  {
    && (forall k :: k in conns <==> k in w.conns && k !in w.doneQueue)
    && (forall k :: k in conns ==> conns[k] == w.conns[k])
  }

  /** The same, but for one key. */
  ghost predicate ReapedBut(w: World, conns: map<Key, nat>, key: Key)
  {
    && (forall k :: k != key ==> (k in conns <==> k in w.conns && k !in w.doneQueue))
    && (forall k :: k != key && k in conns ==> conns[k] == w.conns[k])
  }

  /** What handling a segment comes to, when nothing interrupts it. */
  ghost function Handled(w: World, seg: Segment): (v: World)
    requires Bound(w)
    ensures Bound(v)
  {
    Run(w, [StepDeliver(seg), StepHandler, StepHandler, StepHandler, StepHandler, StepHandler])
  }

  lemma HandledIs(w: World, seg: Segment)
    requires Bound(w)
    ensures Handled(w, seg) == Finish(Deliver(w, seg))
  {
    FinishIsRun(w, seg);
    hide Finish, Run, Deliver;
  }

  /** A handler that is idle has nothing left to do. */
  lemma FinishIdle(w: World)
    requires Bound(w) && w.handler == Idle
    ensures Finish(w) == w
  {
  }

  // ── Segments of established connections ───────────────────────────────────

  /** The bytes a segment adds: its data, if that starts where the last data ended. */
  function Taken(c: Conn, seg: Segment): seq<byte>
  {
    if seg.seqNo == c.gNxt then seg.data else []
  }

  /** Everything but connection `id` is as before. */
  ghost predicate OnlyTouches(w: World, v: World, id: nat)
  {
    |v.objs| == |w.objs| && forall i :: 0 <= i < |w.objs| && i != id ==> v.objs[i] == w.objs[i]
  }

  /**
     Data that starts at g_nxt is accepted, written to the socket and counted, data that does not is not;
     a FIN counts as one more number, ends the connection and is answered with a FIN; else what was
     taken is acknowledged up to its end.
   */
  ghost predicate EstablishedEffect(w: World, v: World, id: nat, seg: Segment)
    requires id < |w.objs| && |v.objs| == |w.objs|
  {
    var c, d, data := w.objs[id], v.objs[id], Taken(w.objs[id], seg);
    && d.accepted == c.accepted + data && d.written == c.written + data
    && v.handler == Idle && v.doneQueue == [] && v.resets == w.resets && OnlyTouches(w, v, id)
    && d.phase == c.phase && d.io == c.io && d.connect == c.connect && d.fd == c.fd
    && (if FinBit(seg.flags) then
          && d.gNxt == (c.gNxt as int + |data| + 1) % 0x1_0000_0000 && d.hNxt == (c.hNxt as int + 1) % 0x1_0000_0000
          && d.stop && d.ranges == c.ranges + [FinRange]
          && v.sent == w.sent + [(id, Sent(c.hNxt, d.gNxt, 0x11, [], Some(|c.ranges|)))]
        else
          && d.gNxt == (c.gNxt as int + |data|) % 0x1_0000_0000 && d.hNxt == c.hNxt
          && d.stop == c.stop && d.ranges == c.ranges
          && v.sent == (if data != [] then w.sent + [(id, Sent(c.hNxt, d.gNxt, 0x10, [], None))] else w.sent))
  }

  lemma EstablishedSegment(w: World, id: nat, seg: Segment)
    requires WorldOk(w) && w.handler == Idle && Found(w, seg.key, id) && w.objs[id].phase == ESTABLISHED
    requires !RstBit(seg.flags) && !Opens(seg)
    ensures var v := Handled(w, seg);
            && |v.objs| == |w.objs| && EstablishedEffect(w, v, id, seg)
            && (if FinBit(seg.flags) then seg.key !in v.conns && ReapedBut(w, v.conns, seg.key) else Reaped(w, v.conns))
  {
    assert Bound(w) && w.objs[id].key == seg.key;
    HandledIs(w, seg);
    Bits(seg.flags);
    var v := w.(conns := Reap(w.conns, w.doneQueue), doneQueue := []);
    assert Deliver(w, seg) == HandleKnown(v, id, seg);
    var c, data := w.objs[id], Taken(w.objs[id], seg);
    hide Deliver, WorldOk, Handled, Reap, Finish, HandleKnown, Accepted, Taken;
    KnownSegment(v, id, seg);
    ReapedBy(w);
    ErasedToo(w, v.conns, seg.key);
    hide Reaped, ReapedBut, EstablishedEffect, FinResult, AckResult, Bound;
    if FinBit(seg.flags) {
      EffectOfFin(w, v, id, seg);
    } else {
      EffectOfData(w, v, id, seg);
    }
  }

  lemma ReapedBy(w: World)
    ensures Reaped(w, Reap(w.conns, w.doneQueue))
  {
  }

  lemma ErasedToo(w: World, conns: map<Key, nat>, k: Key)
    requires Reaped(w, conns)
    ensures k !in conns - {k} && ReapedBut(w, conns - {k}, k)
  {
  }

  lemma ReserveIs(c: Conn, r: Range)
    ensures var d := Reserve(c, r);
            d.hNxt == (c.hNxt as int + (if r.DataRange? then |r.bytes| else 1)) % 0x1_0000_0000 && d == c.(hNxt := d.hNxt, ranges := c.ranges + [r])
  {
  }

  /** The connection with the data taken. */
  function Accepted(c: Conn, data: seq<byte>): Conn
  {
    if data == [] then c else TakeData(c, data)
  }

  lemma KnownSegment(v: World, id: nat, seg: Segment)
    requires Bound(v) && v.handler == Idle && id < |v.objs| && v.objs[id].phase == ESTABLISHED && !Has(seg.flags, RST)
    ensures var data := Taken(v.objs[id], seg);
            var u := With(v, id, Accepted(v.objs[id], data));
            Finish(HandleKnown(v, id, seg)) == if Has(seg.flags, FIN) then FinResult(u, id, data) else AckResult(u, id, data)
  {
    KnownEstablished(v, id, seg);
    var data := Taken(v.objs[id], seg);
    var u := HandleKnown(v, id, seg);
    assert u.(handler := Idle) == With(v, id, Accepted(v.objs[id], data));
    hide HandleKnown, Finish, FinResult, AckResult, Accepted;
    if Has(seg.flags, FIN) {
      FinishFin(u, id, data);
    } else {
      FinishAck(u, id, data);
    }
  }

  lemma AddTwice(a: u32, m: nat, n: nat)
    ensures Add32(Add32(a, m), n) == (a as int + m + n) % 0x1_0000_0000
  {
    var s := a as int + m;
    assert s == 0x1_0000_0000 * (s / 0x1_0000_0000) + s % 0x1_0000_0000;
  }

  lemma AcceptedIs(c: Conn, data: seq<byte>)
    ensures var d := Accepted(c, data);
            && d.accepted == c.accepted + data && d.written == c.written && d.gNxt == (c.gNxt as int + |data|) % 0x1_0000_0000
            && d.gNxt == Add32(c.gNxt, |data|)
            && d.hNxt == c.hNxt && d.stop == c.stop && d.ranges == c.ranges && d.key == c.key
            && d.phase == c.phase && d.io == c.io && d.connect == c.connect && d.fd == c.fd
  {
    assert data == [] ==> c.accepted + data == c.accepted;
  }

  lemma EffectOfData(w: World, v: World, id: nat, seg: Segment)
    requires id < |w.objs| && v == w.(conns := v.conns, doneQueue := []) && w.handler == Idle && !FinBit(seg.flags)
    ensures var data := Taken(w.objs[id], seg);
            var u := AckResult(With(v, id, Accepted(w.objs[id], data)), id, data);
            |u.objs| == |w.objs| && EstablishedEffect(w, u, id, seg) && u.conns == v.conns
  {
    AcceptedIs(w.objs[id], Taken(w.objs[id], seg));
    hide Accepted, Add32, Taken;
  }

  lemma EffectOfFin(w: World, v: World, id: nat, seg: Segment)
    requires id < |w.objs| && v == w.(conns := v.conns, doneQueue := []) && w.handler == Idle && FinBit(seg.flags)
    ensures var data := Taken(w.objs[id], seg);
            var u := FinResult(With(v, id, Accepted(w.objs[id], data)), id, data);
            |u.objs| == |w.objs| && EstablishedEffect(w, u, id, seg) && u.conns == v.conns - {w.objs[id].key}
  {
    var c, data := w.objs[id], Taken(w.objs[id], seg);
    AcceptedIs(c, data);
    AddTwice(c.gNxt, |data|, 1);
    assert Add32(c.hNxt, 1) == (c.hNxt as int + 1) % 0x1_0000_0000;
    hide Accepted, Add32, Taken;
  }

  // ── All other segments ────────────────────────────────────────────────────

  /** A first SYN for unknown addresses and ports opens a connection; for known ones it changes nothing. */
  lemma SynSegment(w: World, seg: Segment)
    requires Bound(w) && w.handler == Idle && Opens(seg)
    ensures var v := Handled(w, seg);
            && v.sent == w.sent && v.resets == w.resets && v.handler == Idle
            && (if Unknown(w, seg.key) then
                  && |v.objs| == |w.objs| + 1 && v.objs[..|w.objs|] == w.objs
                  && seg.key in v.conns && v.conns[seg.key] == |w.objs| && ReapedBut(w, v.conns, seg.key)
                  && var c := v.objs[|w.objs|];
                     && c.key == seg.key && c.phase == CONNECTING && c.connect == Opening && c.accepted == c.written == []
                     && c.gNxt == (seg.seqNo as int + 1) % 0x1_0000_0000 && c.hNxt == 0x4000_0000
                     && c.srcIp == seg.key.dip && c.srcPort == seg.key.dp && c.dstIp == seg.key.sip && c.dstPort == seg.key.sp
                else v.objs == w.objs && Reaped(w, v.conns))
  {
    HandledIs(w, seg);
    Bits(seg.flags);
    ReapedBy(w);
    hide Handled, Finish;
    FinishIdle(Deliver(w, seg));
  }

  /** A segment of an unknown connection is answered with a RST that has its ACK as number; a RST is not. */
  lemma UnknownSegment(w: World, seg: Segment)
    requires Bound(w) && w.handler == Idle && Unknown(w, seg.key) && !Opens(seg)
    ensures var v := Handled(w, seg);
            && v.objs == w.objs && v.sent == w.sent && v.handler == Idle && Reaped(w, v.conns)
            && v.resets == if RstBit(seg.flags) then w.resets else w.resets + [Sent(seg.ackNo, 0, 0x04, [], None)]
  {
    HandledIs(w, seg);
    Bits(seg.flags);
    ReapedBy(w);
    hide Handled, Finish;
    FinishIdle(Deliver(w, seg));
  }

  /** A RST ends a known connection at once. */
  lemma ResetSegment(w: World, id: nat, seg: Segment)
    requires Bound(w) && w.handler == Idle && Found(w, seg.key, id) && RstBit(seg.flags) && !Opens(seg)
    ensures var v := Handled(w, seg);
            && |v.objs| == |w.objs| && v.objs[id] == w.objs[id].(stop := true) && OnlyTouches(w, v, id)
            && seg.key !in v.conns && ReapedBut(w, v.conns, seg.key) && v.sent == w.sent && v.resets == w.resets && v.handler == Idle
  {
    HandledIs(w, seg);
    Bits(seg.flags);
    hide Handled, Finish;
    FinishIdle(Deliver(w, seg));
  }

  /**
     On a connection that is not established yet: an ACK after the SYN-ACK establishes it and starts its
     IO thread; any other segment changes nothing.
   */
  lemma EarlySegment(w: World, id: nat, seg: Segment)
    requires Bound(w) && w.handler == Idle && Found(w, seg.key, id) && !RstBit(seg.flags) && !Opens(seg)
    requires w.objs[id].phase != ESTABLISHED
    ensures var v := Handled(w, seg); var c := w.objs[id];
            && |v.objs| == |w.objs| && OnlyTouches(w, v, id) && Reaped(w, v.conns)
            && v.sent == w.sent && v.resets == w.resets && v.handler == Idle
            && v.objs[id] == if c.phase == SYNACK_SENT && AckBit(seg.flags)
                             then c.(phase := ESTABLISHED, io := AtTop, launches := c.launches + 1) else c
  {
    HandledIs(w, seg);
    Bits(seg.flags);
    ReapedBy(w);
    hide Handled, Finish;
    FinishIdle(Deliver(w, seg));
  }

  // ── The other threads ─────────────────────────────────────────────────────

  /** Once the socket is connected, the connect thread sends a SYN-ACK that takes one sequence number. */
  lemma SocketConnected(w: World, id: nat, fd: nat)
    requires Bound(w) && id < |w.objs| && w.objs[id].connect == Opening
    ensures var s := StepConnect(id);
            var v := Run(w, [StepConnected(id, fd), s, s, s, s]); var c := w.objs[id];
            && |v.objs| == |w.objs| && OnlyTouches(w, v, id) && v.conns == w.conns
            && v.objs[id].phase == SYNACK_SENT && v.objs[id].fd == fd && v.objs[id].hNxt == (c.hNxt as int + 1) % 0x1_0000_0000
            && v.sent == w.sent + [(id, Sent(c.hNxt, c.gNxt, 0x12, [], Some(|c.ranges|)))]
  {
    var s, c := StepConnect(id), w.objs[id];
    var t := Sent(c.hNxt, c.gNxt, 0x12, [], Some(|c.ranges|));
    ConnectTurns(w, id, fd, t);
    RunTwo(w, StepConnected(id, fd), s);
    var w2 := With(w, id, c.(fd := fd, phase := SYNACK_SENT, connect := StateStored));
    RunThree(w2, s, s, s);
    ReserveIs(c.(fd := fd, phase := SYNACK_SENT), SynRange);
    hide Apply, Bound, Reserve, Run;
    RunConcat(w, [StepConnected(id, fd), s], [s, s, s]);
    assert [StepConnected(id, fd), s] + [s, s, s] == [StepConnected(id, fd), s, s, s, s];
  }

  /** The five steps, one by one. */
  lemma ConnectTurns(w: World, id: nat, fd: nat, t: Sent)
    requires Bound(w) && id < |w.objs| && w.objs[id].connect == Opening
    requires var c := w.objs[id]; t == Sent(c.hNxt, c.gNxt, 0x12, [], Some(|c.ranges|))
    ensures var s, c := StepConnect(id), w.objs[id];
            var w2 := With(w, id, c.(fd := fd, phase := SYNACK_SENT, connect := StateStored));
            && Bound(w2) && Apply(Apply(w, StepConnected(id, fd)), s) == w2
            && Apply(Apply(Apply(w2, s), s), s)
               == With(w, id, Reserve(c.(fd := fd, phase := SYNACK_SENT), SynRange).(connect := NoConnect)).(sent := w.sent + [(id, t)])
  {
    var c := w.objs[id];
    var w1 := With(w, id, c.(fd := fd, connect := FdStored));
    assert Apply(w, StepConnected(id, fd)) == w1;
    var d := c.(fd := fd, phase := SYNACK_SENT, connect := StateStored);
    ConnectTurn(w1, id);
    ConnectTurn(With(w, id, d), id);
    var e := Reserve(d, SynRange).(connect := SynReserved(|c.ranges|, c.hNxt));
    hide Reserve, Apply, ConnectStep, Bound;
    ReserveIs(d, SynRange);
    ReserveIs(c.(fd := fd, phase := SYNACK_SENT), SynRange);
    ConnectTurn(With(w, id, e), id);
    ConnectTurn(With(w, id, e.(connect := SynReady(t))), id);
  }

  lemma ConnectTurn(w: World, id: nat)
    requires Bound(w) && id < |w.objs|
    ensures var c := w.objs[id];
            Apply(w, StepConnect(id)) == match c.connect
              case FdStored => With(w, id, c.(phase := SYNACK_SENT, connect := StateStored))
              case StateStored => With(w, id, Reserve(c, SynRange).(connect := SynReserved(|c.ranges|, c.hNxt)))
              case SynReserved(i, n) => With(w, id, c.(connect := SynReady(Sent(n, c.gNxt, 0x12, [], Some(i)))))
              case SynReady(s) => With(w, id, c.(connect := NoConnect)).(sent := w.sent + [(id, s)])
              case _ => w
  {
  }

  /** A connection whose socket cannot be connected loses its entry, and no more. */
  lemma SocketFails(w: World, id: nat)
    requires Bound(w) && id < |w.objs| && w.objs[id].connect == Opening && MutexFree(w)
    ensures var v := Run(w, [StepConnectFailed(id)]);
            && |v.objs| == |w.objs| && OnlyTouches(w, v, id) && v.objs[id] == w.objs[id].(connect := NoConnect)
            && v.sent == w.sent && w.objs[id].key !in v.conns
            && (forall k :: k != w.objs[id].key ==> (k in v.conns <==> k in w.conns))
            && (forall k :: k in v.conns ==> v.conns[k] == w.conns[k])
  {
    assert Run(Apply(w, StepConnectFailed(id)), []) == Apply(w, StepConnectFailed(id));
    assert Run(w, [StepConnectFailed(id)]) == Apply(w, StepConnectFailed(id));
  }

  /** What the host sends is passed on in a segment with PSH and ACK, and takes its length in sequence numbers. */
  lemma HostDataIsSent(w: World, id: nat, bytes: seq<byte>)
    requires Bound(w) && id < |w.objs| && w.objs[id].io == AtTop && !w.objs[id].stop && 0 < |bytes| <= 1994
    ensures var s := StepIo(id);
            var v := Run(w, [s, StepRead(id, bytes), s, s, s]); var c := w.objs[id];
            && |v.objs| == |w.objs| && OnlyTouches(w, v, id) && v.conns == w.conns
            && v.objs[id].hostRead == c.hostRead + bytes && v.objs[id].hNxt == (c.hNxt as int + |bytes|) % 0x1_0000_0000
            && v.objs[id].io == AtTop
            && v.sent == w.sent + [(id, Sent(c.hNxt, c.gNxt, 0x18, bytes, Some(|c.ranges|)))]
  {
    ReadPass(w, id, bytes);
    ReserveIs(w.objs[id], DataRange(bytes));
    hide Run, Bound, Reserve, Add32;
  }

  /** At the end of the host's stream a FIN is sent, and the connection is left for reaping. */
  lemma HostCloses(w: World, id: nat)
    requires Bound(w) && id < |w.objs| && w.objs[id].io == AtTop && !w.objs[id].stop && MutexFree(w)
    ensures var s := StepIo(id);
            var v := Run(w, [s, StepRead(id, []), s, s, s, s, s]); var c := w.objs[id];
            && |v.objs| == |w.objs| && OnlyTouches(w, v, id) && v.conns == w.conns
            && v.objs[id].hNxt == (c.hNxt as int + 1) % 0x1_0000_0000 && v.objs[id].io == Exited
            && v.doneQueue == w.doneQueue + [c.key]
            && v.sent == w.sent + [(id, Sent(c.hNxt, c.gNxt, 0x11, [], Some(|c.ranges|)))]
  {
    LeaveWithFin(w, id);
    ReserveIs(w.objs[id], FinRange);
    hide Run, Bound, Reserve, Add32;
  }

  /** A thread told to stop sends nothing more, and is left for reaping. */
  lemma StoppedLeaves(w: World, id: nat)
    requires Bound(w) && id < |w.objs| && w.objs[id].io == AtTop && w.objs[id].stop && MutexFree(w)
    ensures var s := StepIo(id);
            var v := Run(w, [s, s, s]); var c := w.objs[id];
            && |v.objs| == |w.objs| && OnlyTouches(w, v, id) && v.conns == w.conns && v.sent == w.sent
            && v.objs[id] == c.(io := Exited) && v.doneQueue == w.doneQueue + [c.key]
  {
    LeaveStopped(w, id);
    hide Run, Bound;
  }

  /** A forwarded connection starts with a SYN of its own number, from the gateway's side of the key. */
  lemma ForwardStarts(w: World, k: Key, fd: nat)
    requires Bound(w) && w.handler == Idle
    ensures var v, isn := Run(w, [StepForwardOpen(k, fd), StepForwardSyn(|w.objs|)]), 0x5000_0000 + k.dp as int * 0x100;
            && |v.objs| == |w.objs| + 1 && v.objs[..|w.objs|] == w.objs
            && v.conns == (if k in w.conns then w.conns else w.conns[k := |w.objs|])
            && v.sent == w.sent + [(|w.objs|, Sent(isn, 0, 0x02, [], Some(0)))]
            && var c := v.objs[|w.objs|];
               && c.phase == SYNACK_SENT && c.fd == fd && c.hNxt == isn + 1 && c.gNxt == 0
               && c.srcIp == k.dip && c.srcPort == k.dp && c.dstIp == k.sip && c.dstPort == k.sp
  {
    RunTwo(w, StepForwardOpen(k, fd), StepForwardSyn(|w.objs|));
    ForwardOpened(w, k, fd);
    ForwardSynSent(Apply(w, StepForwardOpen(k, fd)), |w.objs|);
    hide Run, Apply;
  }

  lemma ForwardOpened(w: World, k: Key, fd: nat)
    requires Bound(w) && w.handler == Idle
    ensures var v, isn := Apply(w, StepForwardOpen(k, fd)), 0x5000_0000 + k.dp as int * 0x100;
            && |v.objs| == |w.objs| + 1 && v.objs[..|w.objs|] == w.objs && v.sent == w.sent
            && v.conns == (if k in w.conns then w.conns else w.conns[k := |w.objs|])
            && var c := v.objs[|w.objs|];
               && c.phase == SYNACK_SENT && c.fd == fd && c.hNxt == isn + 1 && c.gNxt == 0 && c.isn == isn && c.guestIsn == None
               && c.srcIp == k.dip && c.srcPort == k.dp && c.dstIp == k.sip && c.dstPort == k.sp
  {
    hide Bound;
  }

  lemma ForwardSynSent(w: World, id: nat)
    requires Bound(w) && id < |w.objs| && w.objs[id].guestIsn == None
    ensures Apply(w, StepForwardSyn(id)) == w.(sent := w.sent + [(id, Sent(w.objs[id].isn, 0, 0x02, [], Some(0)))])
  {
    hide Bound;
  }

  /** One that the guest does not answer in time loses its entry. */
  lemma ForwardEnds(w: World, id: nat)
    requires Bound(w) && id < |w.objs| && w.objs[id].guestIsn == None && MutexFree(w)
    ensures Run(w, [StepForwardTimeout(id)]) == w.(conns := w.conns - {w.objs[id].key})
  {
    assert Run(Apply(w, StepForwardTimeout(id)), []) == Apply(w, StepForwardTimeout(id));
    assert Run(w, [StepForwardTimeout(id)]) == Apply(w, StepForwardTimeout(id));
  }
}
