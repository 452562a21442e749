/**
 `handle_tcp` and the body of the IO thread as the source writes them, over the stack's fields.
 Each is proved to do what its thread's steps in `TcpMachine` do one after the other, so that the
 machine's steps are the source's code, cut where other threads may run in between.
 */
module TcpStack {
  import opened Bytes
  import opened TcpMachine

  /** The handler's steps with one segment, once it is delivered. */
  ghost function Finish(w: World): (w': World)
    requires Bound(w)
    ensures Bound(w')
  {
    HandlerStep(HandlerStep(HandlerStep(HandlerStep(HandlerStep(w)))))
  }

  /** Handling a segment without interruption is a run of the machine. */
  lemma FinishIsRun(w: World, seg: Segment)
    requires Bound(w)
    ensures Finish(Deliver(w, seg))
         == Run(w, [StepDeliver(seg), StepHandler, StepHandler, StepHandler, StepHandler, StepHandler])
  {
    var h := StepHandler;
    var w0 := Deliver(w, seg);
    var w1 := HandlerStep(w0);
    var w2 := HandlerStep(w1);
    var w3 := HandlerStep(w2);
    var w4 := HandlerStep(w3);
    hide Deliver, HandlerStep, Bound;
    assert Run(w4, [h]) == HandlerStep(w4);
    assert Run(w3, [h, h]) == Run(w4, [h]);
    assert Run(w2, [h, h, h]) == Run(w3, [h, h]);
    assert Run(w1, [h, h, h, h]) == Run(w2, [h, h, h]);
    assert Run(w0, [h, h, h, h, h]) == Run(w1, [h, h, h, h]);
    assert [StepDeliver(seg), h, h, h, h, h][1..] == [h, h, h, h, h];
  }

  lemma KnownEstablished(w: World, id: nat, seg: Segment)
    requires Bound(w) && id < |w.objs| && w.objs[id].phase == ESTABLISHED && !Has(seg.flags, RST)
    ensures var take, v := InOrder(w.objs[id], seg), HandleKnown(w, id, seg);
            var data := if take then seg.data else [];
            && Bound(v)
            && v == w.(objs := if take then w.objs[id := TakeData(w.objs[id], data)] else w.objs,
                       handler := if Has(seg.flags, FIN) then FinBump(id, data) else Acking(id, data, false))
  {
  }

  /** What is left of a segment without a FIN: the write to the socket, and an ACK if data was taken. */
  function AckResult(w: World, id: nat, data: seq<byte>): World
    requires id < |w.objs|
  {
    var c := w.objs[id];
    With(w, id, c.(written := c.written + data)).(
      sent := if data != [] then w.sent + [(id, Sent(c.hNxt, c.gNxt, ACK, [], None))] else w.sent)
  }

  /** And with one: five effects on the connection, its entry gone, and a FIN in reply. */
  function FinResult(w: World, id: nat, data: seq<byte>): World
    requires id < |w.objs|
  {
    var c := w.objs[id];
    var d := Reserve(SetG(c, Add32(c.gNxt, 1)).(fins := c.fins + 1, stop := true), FinRange);
    With(w, id, d.(written := c.written + data)).(
      conns := w.conns - {c.key},
      sent := w.sent + [(id, Sent(c.hNxt, d.gNxt, FIN + ACK, [], Some(|c.ranges|)))])
  }

  lemma FinishAck(w: World, id: nat, data: seq<byte>)
    requires Bound(w) && w.handler == Acking(id, data, false)
    ensures Finish(w) == AckResult(w.(handler := Idle), id, data)
  {
    var w1 := HandlerStep(w);
    var w2 := HandlerStep(w1);
    assert HandlerStep(w2) == w2;
  }

  lemma FinishFin(w: World, id: nat, data: seq<byte>)
    requires Bound(w) && w.handler == FinBump(id, data)
    ensures Finish(w) == FinResult(w.(handler := Idle), id, data)
  {
    hide Add32;
    var c := w.objs[id];
    var c1 := SetG(c, Add32(c.gNxt, 1)).(fins := c.fins + 1);
    var w1 := HandlerStep(w);
    assert w1.objs == w.objs[id := c1] && w1.handler == FinStop(id, data);
    var w2 := HandlerStep(w1);
    assert w2.objs == w.objs[id := c1.(stop := true)] && w2.handler == FinErase(id, data);
    var w3 := HandlerStep(w2);
    assert w3.objs == w2.objs && w3.handler == Acking(id, data, true) && w3.conns == w.conns - {c.key};
    var w4 := HandlerStep(w3);
    assert w4.objs == w.objs[id := Reserve(c1.(stop := true), FinRange)];
  }

  // ── The IO thread, without interruption ───────────────────────────────────

  /** The steps of one pass of the loop, when `read` returns `bytes`. */
  function ReadSteps(id: nat, bytes: seq<byte>): seq<Step>
  {
    [StepIo(id), StepRead(id, bytes), StepIo(id), StepIo(id), StepIo(id)]
  }

  /** The steps after the loop: end of stream, then a FIN; or straight out, if the guest side stopped it. */
  function LeaveSteps(id: nat, stopped: bool): seq<Step>
  {
    if stopped then [StepIo(id), StepIo(id), StepIo(id)]
    else [StepIo(id), StepRead(id, []), StepIo(id), StepIo(id), StepIo(id), StepIo(id), StepIo(id)]
  }

  function LoopSteps(id: nat, chunks: seq<seq<byte>>): seq<Step>
  {
    if chunks == [] then [] else LoopSteps(id, chunks[..|chunks| - 1]) + ReadSteps(id, chunks[|chunks| - 1])
  }

  lemma RunThree(w: World, a: Step, b: Step, c: Step)
    requires Bound(w)
    ensures Run(w, [a, b, c]) == Apply(Apply(Apply(w, a), b), c)
  {
    var v := Apply(Apply(w, a), b);
    hide Apply, Bound;
    assert Run(v, [c]) == Apply(v, c);
    assert Run(Apply(w, a), [b, c]) == Run(v, [c]);
    assert Run(w, [a, b, c]) == Run(Apply(w, a), [b, c]);
  }

  lemma RunTwo(w: World, a: Step, b: Step)
    requires Bound(w)
    ensures Run(w, [a, b]) == Apply(Apply(w, a), b)
  {
    hide Apply, Bound;
    assert Run(w, [a, b]) == Run(Apply(w, a), [b]);
  }

  // One step of the thread at a time.

  lemma IoMoves(w: World, id: nat, io: IoThread)
    requires Bound(w) && id < |w.objs|
    requires var c := w.objs[id];
             || (c.io == AtTop && io == if c.stop then Leaving else Polling)
             || (c.io == Leaving && io == if c.stop then Finished else FinDue)
             || (c.io.DataReserved? && io == DataReady(Sent(c.io.seqNo, c.gNxt, PSH + ACK, c.io.bytes, Some(c.io.range))))
             || (c.io.FinReserved? && io == FinReady(Sent(c.io.seqNo, c.gNxt, FIN + ACK, [], Some(c.io.range))))
    ensures Apply(w, StepIo(id)) == With(w, id, w.objs[id].(io := io))
  {
    hide Bound;
  }

  lemma IoSends(w: World, id: nat, s: Sent)
    requires Bound(w) && id < |w.objs| && w.objs[id].io in {DataReady(s), FinReady(s)}
    ensures Apply(w, StepIo(id))
         == With(w, id, w.objs[id].(io := if w.objs[id].io.DataReady? then AtTop else Finished)).(sent := w.sent + [(id, s)])
  {
    hide Bound;
  }

  lemma IoReserves(w: World, id: nat)
    requires Bound(w) && id < |w.objs| && (w.objs[id].io.HasRead? || w.objs[id].io == FinDue)
    ensures var c := w.objs[id];
            Apply(w, StepIo(id))
            == With(w, id, if c.io == FinDue then Reserve(c, FinRange).(io := FinReserved(|c.ranges|, c.hNxt))
                           else Reserve(c, DataRange(c.io.bytes)).(io := DataReserved(|c.ranges|, c.hNxt, c.io.bytes)))
  {
    hide Bound, Add32;
  }

  lemma IoReads(w: World, id: nat, bytes: seq<byte>)
    requires Bound(w) && id < |w.objs| && w.objs[id].io == Polling && |bytes| <= MAX_DATA
    ensures var c := w.objs[id];
            Apply(w, StepRead(id, bytes))
            == With(w, id, if bytes == [] then c.(io := Leaving)
                           else c.(io := HasRead(bytes), hostRead := c.hostRead + bytes))
  {
    hide Bound;
  }

  lemma IoLeaves(w: World, id: nat)
    requires Bound(w) && id < |w.objs| && w.objs[id].io == Finished && MutexFree(w)
    ensures Apply(w, StepIo(id))
         == With(w, id, w.objs[id].(io := Exited)).(doneQueue := w.doneQueue + [w.objs[id].key])
  {
    hide Bound;
  }

  // The same, run together.

  lemma ReadAndReserve(w: World, id: nat, bytes: seq<byte>)
    requires Bound(w) && id < |w.objs| && w.objs[id].io == AtTop && !w.objs[id].stop && 0 < |bytes| <= MAX_DATA
    ensures var c := w.objs[id];
            Run(w, [StepIo(id), StepRead(id, bytes), StepIo(id)])
            == With(w, id, Reserve(c, DataRange(bytes)).(hostRead := c.hostRead + bytes,
                                                         io := DataReserved(|c.ranges|, c.hNxt, bytes)))
  {
    RunThree(w, StepIo(id), StepRead(id, bytes), StepIo(id));
    hide Run, Bound, Add32, Apply;
    var c := w.objs[id];
    var w1 := With(w, id, c.(io := Polling));
    var w2 := With(w, id, c.(io := HasRead(bytes), hostRead := c.hostRead + bytes));
    IoMoves(w, id, Polling);
    IoReads(w1, id, bytes);
    assert Apply(w1, StepRead(id, bytes)) == w2;
    IoReserves(w2, id);
  }

  lemma LoadAndSend(w: World, id: nat)
    requires Bound(w) && id < |w.objs| && (w.objs[id].io.DataReserved? || w.objs[id].io.FinReserved?)
    ensures var c := w.objs[id];
            Run(w, [StepIo(id), StepIo(id)])
            == (if c.io.DataReserved? then
                  With(w, id, c.(io := AtTop)).(
                    sent := w.sent + [(id, Sent(c.io.seqNo, c.gNxt, PSH + ACK, c.io.bytes, Some(c.io.range)))])
                else
                  With(w, id, c.(io := Finished)).(
                    sent := w.sent + [(id, Sent(c.io.seqNo, c.gNxt, FIN + ACK, [], Some(c.io.range)))]))
  {
    RunTwo(w, StepIo(id), StepIo(id));
    hide Run, Bound, Apply;
    var c := w.objs[id];
    var s := if c.io.DataReserved? then Sent(c.io.seqNo, c.gNxt, PSH + ACK, c.io.bytes, Some(c.io.range))
             else Sent(c.io.seqNo, c.gNxt, FIN + ACK, [], Some(c.io.range));
    var io := if c.io.DataReserved? then DataReady(s) else FinReady(s);
    IoMoves(w, id, io);
    IoSends(With(w, id, c.(io := io)), id, s);
  }

  /** One pass reserves, and sends, exactly what was read. */
  lemma ReadPass(w: World, id: nat, bytes: seq<byte>)
    requires Bound(w) && id < |w.objs| && w.objs[id].io == AtTop && !w.objs[id].stop && 0 < |bytes| <= MAX_DATA
    ensures var c := w.objs[id];
            Run(w, ReadSteps(id, bytes))
            == w.(objs := w.objs[id := Reserve(c, DataRange(bytes)).(hostRead := c.hostRead + bytes)],
                  sent := w.sent + [(id, Sent(c.hNxt, c.gNxt, PSH + ACK, bytes, Some(|c.ranges|)))])
  {
    var s := StepIo(id);
    ReadAndReserve(w, id, bytes);
    RunConcat(w, [s, StepRead(id, bytes), s], [s, s]);
    assert ReadSteps(id, bytes) == [s, StepRead(id, bytes), s] + [s, s];
    var v := Run(w, [s, StepRead(id, bytes), s]);
    hide Run, Bound, Add32;
    LoadAndSend(v, id);
  }

  /** Told to stop: the thread only queues its key for reaping. */
  lemma LeaveStopped(w: World, id: nat)
    requires Bound(w) && id < |w.objs| && w.objs[id].io == AtTop && MutexFree(w) && w.objs[id].stop
    ensures Run(w, LeaveSteps(id, true))
         == With(w, id, w.objs[id].(io := Exited)).(doneQueue := w.doneQueue + [w.objs[id].key])
  {
    RunThree(w, StepIo(id), StepIo(id), StepIo(id));
    hide Run, Bound, Apply;
    var c := w.objs[id];
    var w1 := With(w, id, c.(io := Leaving));
    var w2 := With(w, id, c.(io := Finished));
    IoMoves(w, id, Leaving);
    IoMoves(w1, id, Finished);
    assert With(w1, id, w1.objs[id].(io := Finished)) == w2;
    IoLeaves(w2, id);
  }

  lemma EndOfStream(w: World, id: nat)
    requires Bound(w) && id < |w.objs| && w.objs[id].io == AtTop && !w.objs[id].stop
    ensures Run(w, [StepIo(id), StepRead(id, []), StepIo(id)]) == With(w, id, w.objs[id].(io := FinDue))
  {
    RunThree(w, StepIo(id), StepRead(id, []), StepIo(id));
    hide Run, Bound, Apply;
    var c := w.objs[id];
    var w1 := With(w, id, c.(io := Polling));
    var w2 := With(w, id, c.(io := Leaving));
    IoMoves(w, id, Polling);
    IoReads(w1, id, []);
    assert With(w1, id, w1.objs[id].(io := Leaving)) == w2;
    IoMoves(w2, id, FinDue);
  }

  lemma FinAndLeave(w: World, id: nat)
    requires Bound(w) && id < |w.objs| && w.objs[id].io == FinDue && MutexFree(w)
    ensures var c := w.objs[id];
            Run(w, [StepIo(id), StepIo(id), StepIo(id), StepIo(id)])
            == With(w, id, Reserve(c, FinRange).(io := Exited)).(
                 doneQueue := w.doneQueue + [c.key],
                 sent := w.sent + [(id, Sent(c.hNxt, c.gNxt, FIN + ACK, [], Some(|c.ranges|)))])
  {
    var s, c := StepIo(id), w.objs[id];
    var w1 := Apply(w, s);
    assert Run(w, [s, s, s, s]) == Run(w1, [s, s, s]);
    RunConcat(w1, [s, s], [s]);
    assert [s, s, s] == [s, s] + [s];
    var w2 := Run(w1, [s, s]);
    assert Run(w2, [s]) == Run(Apply(w2, s), []) == Apply(w2, s);
    hide Run, Bound, Apply, Add32;
    IoReserves(w, id);
    LoadAndSend(w1, id);
    assert w2.objs == w.objs[id := Reserve(c, FinRange).(io := Finished)];
    IoLeaves(w2, id);
  }

  /** Otherwise it sends a FIN first. */
  lemma LeaveWithFin(w: World, id: nat)
    requires Bound(w) && id < |w.objs| && w.objs[id].io == AtTop && MutexFree(w) && !w.objs[id].stop
    ensures var c := w.objs[id];
            Run(w, LeaveSteps(id, false))
            == With(w, id, Reserve(c, FinRange).(io := Exited)).(
                 doneQueue := w.doneQueue + [c.key],
                 sent := w.sent + [(id, Sent(c.hNxt, c.gNxt, FIN + ACK, [], Some(|c.ranges|)))])
  {
    var s := StepIo(id);
    RunConcat(w, [s, StepRead(id, []), s], [s, s, s, s]);
    assert LeaveSteps(id, false) == [s, StepRead(id, []), s] + [s, s, s, s];
    EndOfStream(w, id);
    var v := Run(w, [s, StepRead(id, []), s]);
    hide Run, Bound, Add32, Apply;
    FinAndLeave(v, id);
  }

  class Stack {
    var conns: map<Key, nat>
    var objs: seq<Conn>
    var doneQueue: seq<Key>
    var sent: seq<(nat, Sent)>
    var resets: seq<Sent>

    /** The stack between two frames. */
    function View(): World
      reads this
    {
      World(conns, objs, doneQueue, Idle, sent, resets)
    }

    constructor ()
      ensures View() == EMPTY
    {
      conns, objs, doneQueue, sent, resets := map[], [], [], [], [];
    }

    /** The loop over `done_queue`. */
    method ReapDone()
      modifies this`conns, this`doneQueue
      ensures conns == Reap(old(conns), old(doneQueue)) && doneQueue == []
    {
      var i := 0;
      while i < |doneQueue|
        modifies this`conns
        invariant i <= |doneQueue|
        invariant conns == Reap(old(conns), doneQueue[..i])
      {
        conns := conns - {doneQueue[i]};
        i := i + 1;
      }
      assert doneQueue[..i] == doneQueue;
      doneQueue := [];
    }

    /** `handle_tcp`: reap, then SYN, unknown, RST, handshake, or data and FIN. */
    method HandleTcp(seg: Segment)
      requires Bound(View())
      modifies this
      ensures Bound(View())
      ensures View() == Run(old(View()), [StepDeliver(seg), StepHandler, StepHandler, StepHandler, StepHandler, StepHandler])
    {
      FinishIsRun(View(), seg);
      ghost var w := View();
      ReapDone();
      hide Run;
      if Has(seg.flags, SYN) && !Has(seg.flags, ACK) {
        if seg.key !in conns {
          conns := conns[seg.key := |objs|];
          objs := objs + [OpenedByGuest(seg)];
        }
        return;
      }
      if seg.key !in conns {
        if !Has(seg.flags, RST) {
          resets := resets + [Sent(seg.ackNo, 0, RST, [], None)];
        }
        return;
      }
      var id := conns[seg.key];
      if Has(seg.flags, RST) {
        objs := objs[id := objs[id].(stop := true)];
        conns := conns - {seg.key};
        return;
      }
      if objs[id].phase == SYNACK_SENT {
        if Has(seg.flags, ACK) {
          objs := objs[id := objs[id].(phase := ESTABLISHED, io := AtTop, launches := objs[id].launches + 1)];
        }
        return;
      }
      if objs[id].phase != ESTABLISHED {
        return;
      }
      HandleEstablished(id, seg);
    }

    /** The data and FIN part of `handle_tcp`, and the write and reply after the mutex is released. */
    method HandleEstablished(id: nat, seg: Segment)
      requires Bound(View()) && id < |objs| && objs[id].phase == ESTABLISHED && !Has(seg.flags, RST)
      modifies this
      ensures Bound(View())
      ensures var v := HandleKnown(old(View()), id, seg); Bound(v) && View() == Finish(v)
    {
      ghost var w, v := View(), HandleKnown(View(), id, seg);
      KnownEstablished(w, id, seg);
      hide HandleKnown, TakeData, Finish, HandlerStep, Bound, AckResult, FinResult;
      var toWrite: seq<byte> := [];
      if seg.data != [] && seg.seqNo == objs[id].gNxt {
        toWrite := seg.data;
        objs := objs[id := TakeData(objs[id], toWrite)];
      }
      assert View() == v.(handler := Idle);
      if Has(seg.flags, FIN) {
        FinishFin(v, id, toWrite);
        ReplyFin(id, toWrite);
      } else {
        FinishAck(v, id, toWrite);
        ReplyAck(id, toWrite);
      }
    }

    method ReplyAck(id: nat, toWrite: seq<byte>)
      requires id < |objs|
      modifies this`objs, this`sent
      ensures View() == AckResult(old(View()), id, toWrite)
    {
      var ackOut, hSeq := objs[id].gNxt, objs[id].hNxt;
      objs := objs[id := objs[id].(written := objs[id].written + toWrite)];
      if toWrite != [] {
        sent := sent + [(id, Sent(hSeq, ackOut, ACK, [], None))];
      }
    }

    method ReplyFin(id: nat, toWrite: seq<byte>)
      requires id < |objs|
      modifies this`objs, this`sent, this`conns
      ensures View() == FinResult(old(View()), id, toWrite)
    {
      hide Add32;
      var c := objs[id];
      c := SetG(c, Add32(c.gNxt, 1)).(fins := c.fins + 1);
      c := c.(stop := true);
      conns := conns - {c.key};
      var ackOut, hSeq, range := c.gNxt, c.hNxt, |c.ranges|;
      c := Reserve(c, FinRange);
      c := c.(written := c.written + toWrite);
      objs := objs[id := c];
      sent := sent + [(id, Sent(hSeq, ackOut, FIN + ACK, [], Some(range)))];
    }

    /** One pass of the IO thread's loop: `read`, `fetch_add`, `load`, `send_tcp`. */
    method IoPass(id: nat, buf: seq<byte>)
      requires Bound(View()) && id < |objs| && objs[id].io == AtTop && !objs[id].stop && 0 < |buf| <= MAX_DATA
      modifies this`objs, this`sent
      ensures View() == Run(old(View()), ReadSteps(id, buf))
      ensures id < |objs| && objs[id].io == AtTop && !objs[id].stop
    {
      ReadPass(View(), id, buf);
      hide Run, Bound, ReadSteps;
      var c := objs[id];
      c := c.(hostRead := c.hostRead + buf);
      var seqNo, range := c.hNxt, |c.ranges|;
      c := Reserve(c, DataRange(buf));
      var ack := c.gNxt;
      objs := objs[id := c];
      sent := sent + [(id, Sent(seqNo, ack, PSH + ACK, buf, Some(range)))];
    }

    /** What the IO thread does after its loop. */
    method IoLeave(id: nat)
      requires Bound(View()) && id < |objs| && objs[id].io == AtTop
      modifies this`objs, this`sent, this`doneQueue
      ensures View() == Run(old(View()), LeaveSteps(id, old(objs)[id].stop))
    {
      var c := objs[id];
      if c.stop {
        LeaveStopped(View(), id);
      } else {
        LeaveWithFin(View(), id);
      }
      hide Run, Bound, LeaveSteps;
      if !c.stop {
        var seqNo, range := c.hNxt, |c.ranges|;
        c := Reserve(c, FinRange);
        sent := sent + [(id, Sent(seqNo, c.gNxt, FIN + ACK, [], Some(range)))];
      }
      objs := objs[id := c.(io := Exited)];
      doneQueue := doneQueue + [c.key];
    }

    /** The IO thread of connection `id`, to which the host socket gives `chunks` and then its end. */
    method IoThread(id: nat, chunks: seq<seq<byte>>)
      requires Bound(View()) && id < |objs| && objs[id].io == AtTop
      requires forall i :: 0 <= i < |chunks| ==> 0 < |chunks[i]| <= MAX_DATA
      modifies this
      ensures View() == Run(old(View()), LoopSteps(id, if old(objs)[id].stop then [] else chunks)
                                         + LeaveSteps(id, old(objs)[id].stop))
    {
      hide Bound, ReadSteps, LeaveSteps;
      ghost var w, stopped := View(), objs[id].stop;
      var i := 0;
      assert chunks[..0] == [];
      while !objs[id].stop && i < |chunks|
        modifies `objs, `sent
        invariant i <= |chunks| && (stopped ==> i == 0)
        invariant id < |objs| && objs[id].io == AtTop && objs[id].stop == stopped
        invariant View() == Run(w, LoopSteps(id, chunks[..i]))
      {
        hide Run;
        assert chunks[..i + 1][..i] == chunks[..i];
        RunConcat(w, LoopSteps(id, chunks[..i]), ReadSteps(id, chunks[i]));
        IoPass(id, chunks[i]);
        i := i + 1;
      }
      hide Run;
      assert chunks[..i] == if stopped then [] else chunks;
      RunConcat(w, LoopSteps(id, chunks[..i]), LeaveSteps(id, stopped));
      IoLeave(id);
    }
  }
}
