/**
 Many senders, one reader and closes at either end, sharing one in-process pipe, as a system of
 atomic steps: every access to the pipe's queue, its mark of being closed, a `connected_` flag or the write lock is
 a step of its own, so a run is any interleaving of the threads.
 */
module IpcSystem {
  import opened Bytes
  import opened IpcFraming

  /** How far the sender that holds the write lock has got in `send_raw`. */
  datatype Stage = CheckHeader | PushHeader | CheckPayload | PushPayload | Unlock

  datatype Holder = Holder(sender: nat, msg: Message, stage: Stage)

  /** Where the reader thread is in `read_loop`; `got` is what the current `read` has filled so far. */
  datatype Phase =
    | Top
    | InHeader(got: seq<byte>)
    | InPayload(hdr: FrameHeader, got: seq<byte>)
    | Stopped

  datatype System = System(
    holder: Option<Holder>,
    sent: seq<Message>,        // messages in the order their senders took the lock
    dropped: bool,             // some write has been discarded
    queue: seq<seq<byte>>,
    closed: bool,
    writerConnected: bool,
    readerConnected: bool,
    closing: bool,             // a close() of the reading end has cleared its flag and not yet closed the pipe
    current: seq<byte>,
    currentPos: nat,
    phase: Phase,
    delivered: seq<Message>,
    failure: Failure)

  const INITIAL := System(None, [], false, [], false, true, true, false, [], 0, Top, [], NoFailure)

  datatype Step =
    | Lock(sender: nat, msg: Message)
    | Send
    | DisconnectWriter   // the sending end closes, or its own reader saw a disconnect
    | DisconnectReader   // a write of the reading end finds its own outgoing pipe closed
    | BeginClose         // the reading end's close() exchanges its flag
    | EndClose           // and then marks the pipe closed
    | Read               // one iteration of the reader's innermost loop

  // ── Senders ───────────────────────────────────────────────────────────────

  /** The push of `write` under the pipe's mutex. */
  function Push(s: System, data: seq<byte>): (s': System)
    ensures Ready(s) ==> Ready(s')
  {
    if s.closed then s.(writerConnected := false, dropped := true)
    else s.(queue := s.queue + [data])
  }

  function At(s: System, h: Holder, stage: Stage): (s': System)
    ensures Ready(s) ==> Ready(s')
  {
    s.(holder := Some(h.(stage := stage)))
  }

  /** A `write` that finds its end disconnected does nothing. */
  function Discard(s: System): (s': System)
    ensures Ready(s) ==> Ready(s')
  {
    s.(dropped := true)
  }

  function Release(s: System): (s': System)
    ensures Ready(s) ==> Ready(s')
  {
    s.(holder := None)
  }

  function SendStep(s: System): (s': System)
    ensures Ready(s) ==> Ready(s')
  {
    hide *;
    match s.holder
    case None => s
    case Some(h) =>
      var afterHeader := if h.msg.payload == [] then Unlock else CheckPayload;
      match h.stage
      case CheckHeader => if s.writerConnected then At(s, h, PushHeader) else At(Discard(s), h, afterHeader)
      case PushHeader => At(Push(s, HeaderOf(h.msg)), h, afterHeader)
      case CheckPayload => if s.writerConnected then At(s, h, PushPayload) else At(Discard(s), h, Unlock)
      case PushPayload => At(Push(s, h.msg.payload), h, Unlock)
      case Unlock => Release(s)
  }

  // ── The reader ────────────────────────────────────────────────────────────

  datatype Fetched = Fetched(state: System, bytes: seq<byte>)

  /** One iteration of `read`, for at most `want` more bytes; it is blocked when nothing changes. */
  function Fetch(s: System, want: nat): (r: Fetched)
    requires s.currentPos <= |s.current|
    ensures |r.bytes| <= want && r.state.currentPos <= |r.state.current|
    ensures r.state.phase == s.phase || (r.state.phase == Stopped && r.bytes == [])
  {
    if s.currentPos < |s.current| then
      var n := Min(|s.current| - s.currentPos, want);
      Fetched(s.(currentPos := s.currentPos + n), s.current[s.currentPos..s.currentPos + n])
    else if s.queue != [] then
      Fetched(s.(current := s.queue[0], currentPos := 0, queue := s.queue[1..]), [])
    else if s.closed then
      Fetched(s.(readerConnected := false, phase := Stopped), [])
    else
      Fetched(s, [])
  }

  function Deliver(s: System, m: Message): System
  {
    s.(delivered := s.delivered + [m], phase := Top)
  }

  /** The checks on a complete header. */
  function Validate(s: System, h: FrameHeader): System
  {
    if Check(h) != NoFailure then s.(failure := Check(h), phase := Stopped)
    else if h.payloadLen == 0 then Deliver(s, Message(h.kind, []))
    else s.(phase := InPayload(h, []))
  }

  function HeaderStep(s: System, got: seq<byte>): (s': System)
    requires Ready(s) && s.phase == InHeader(got)
    ensures Ready(s')
  {
    if |got| == HEADER_LEN then Validate(s, DecodeHeader(got))
    else
      var f := Fetch(s, HEADER_LEN - |got|);
      if f.state.phase == Stopped then f.state else f.state.(phase := InHeader(got + f.bytes))
  }

  function PayloadStep(s: System, h: FrameHeader, got: seq<byte>): (s': System)
    requires Ready(s) && s.phase == InPayload(h, got)
    ensures Ready(s')
  {
    if |got| == h.payloadLen then Deliver(s, Message(h.kind, got))
    else
      var f := Fetch(s, h.payloadLen - |got|);
      if f.state.phase == Stopped then f.state else f.state.(phase := InPayload(h, got + f.bytes))
  }

  function ReadStep(s: System): (s': System)
    requires Ready(s)
    ensures Ready(s')
  {
    hide HeaderStep, PayloadStep;
    match s.phase
    case Top => s.(phase := if s.readerConnected then InHeader([]) else Stopped)
    case InHeader(got) => HeaderStep(s, got)
    case InPayload(h, got) => PayloadStep(s, h, got)
    case Stopped => s
  }

  /** What `read` relies on: its position lies in the chunk, and it never overfills its buffer. */
  predicate Ready(s: System)
  {
    && s.currentPos <= |s.current|
    && (s.phase.InHeader? ==> |s.phase.got| <= HEADER_LEN)
    && (s.phase.InPayload? ==> |s.phase.got| <= s.phase.hdr.payloadLen)
  }

  // ── Runs ──────────────────────────────────────────────────────────────────

  function Apply(s: System, step: Step): (s': System)
    requires Ready(s)
    ensures Ready(s')
  {
    hide SendStep, ReadStep;
    match step
    case Lock(sender, msg) =>
      if s.holder.Some? then s
      else s.(holder := Some(Holder(sender, msg, CheckHeader)), sent := s.sent + [msg])
    case Send => SendStep(s)
    case DisconnectWriter => s.(writerConnected := false)
    case DisconnectReader => s.(readerConnected := false)
    case BeginClose => if s.readerConnected then s.(readerConnected := false, closing := true) else s
    case EndClose => if s.closing then s.(closing := false, closed := true) else s
    case Read => ReadStep(s)
  }

  function Run(s: System, steps: seq<Step>): (s': System)
    requires Ready(s)
    ensures Ready(s')
    decreases steps
  {
    if steps == [] then s else Run(Apply(s, steps[0]), steps[1..])
  }

  // ── The invariant ─────────────────────────────────────────────────────────

  /** Bytes the reader has taken of a frame it has not delivered yet. */
  function Taken(p: Phase): seq<byte>
  {
    match p
    case InHeader(got) => got
    case InPayload(h, got) => EncodeHeader(h) + got
    case _ => []
  }

  /** Everything written but not delivered: in the reader's buffer, in its chunk, in the queue. */
  function InFlight(s: System): seq<byte>
    requires Ready(s)
  {
    Taken(s.phase) + s.current[s.currentPos..] + Concat(s.queue)
  }

  /** What the lock holder has still to write. */
  function ToWrite(s: System): seq<byte>
  {
    match s.holder
    case None => []
    case Some(h) =>
      match h.stage
      case CheckHeader => Frame(h.msg)
      case PushHeader => Frame(h.msg)
      case CheckPayload => h.msg.payload
      case PushPayload => h.msg.payload
      case Unlock => []
  }

  ghost predicate AllSendable(ms: seq<Message>)
  {
    forall m :: m in ms ==> Sendable(m)
  }

  /** The messages sent and not yet delivered. */
  function Todo(s: System): seq<Message>
    requires s.delivered <= s.sent
  {
    s.sent[|s.delivered|..]
  }

  ghost predicate Streams(inFlight: seq<byte>, toWrite: seq<byte>, todo: seq<Message>, dropped: bool)
  {
    && inFlight <= Frames(todo)
    && (!dropped ==> inFlight + toWrite == Frames(todo))
  }

  /**
     The bytes in flight are the frames of the messages sent and not yet delivered, cut short only
     if writes have been discarded; and once one write is discarded, all later ones are.
   */
  ghost predicate Invariant(s: System)
  {
    && Ready(s)
    && AllSendable(s.sent)
    && s.failure == NoFailure
    && s.delivered <= s.sent
    && (s.dropped ==> !s.writerConnected)
    && (s.holder.Some? && s.holder.value.stage in {PushHeader, PushPayload} ==> !s.dropped)
    && (s.phase != Stopped ==> Streams(InFlight(s), ToWrite(s), Todo(s), s.dropped))
  }

  // ── Every step keeps it ───────────────────────────────────────────────────

  lemma SendKeeps(s: System)
    requires Invariant(s)
    ensures Invariant(SendStep(s))
  {
    hide Invariant, SendStep;
    match s.holder
    case None => assert SendStep(s) == s by { IdleSends(s); }
    case Some(h) =>
      match h.stage
      case CheckHeader => CheckKeeps(s, h);
      case PushHeader => PushStepKeeps(s, h);
      case CheckPayload => CheckKeeps(s, h);
      case PushPayload => PushStepKeeps(s, h);
      case Unlock => CheckKeeps(s, h);
  }

  lemma IdleSends(s: System)
    requires s.holder == None
    ensures SendStep(s) == s
  {
  }

  lemma CheckKeeps(s: System, h: Holder)
    requires Invariant(s) && s.holder == Some(h) && h.stage in {CheckHeader, CheckPayload, Unlock}
    ensures Invariant(SendStep(s))
  {
    HolderFacts(s);
    hide Invariant, Frame, HeaderOf;
    var s' := SendStep(s);
    assert s' == s.(holder := s'.holder, dropped := s'.dropped);
    WriterKeeps(s, s');
  }

  lemma PushStepKeeps(s: System, h: Holder)
    requires Invariant(s) && s.holder == Some(h) && h.stage in {PushHeader, PushPayload}
    ensures Invariant(SendStep(s))
  {
    HolderFacts(s);
    hide Invariant, HeaderOf, Push;
    if h.stage == PushHeader {
      PushKeeps(s, HeaderOf(h.msg), if h.msg.payload == [] then Unlock else CheckPayload);
    } else {
      PushKeeps(s, h.msg.payload, Unlock);
    }
  }

  lemma HolderFacts(s: System)
    requires Invariant(s)
    ensures s.dropped ==> !s.writerConnected
    ensures s.holder.Some? && s.holder.value.stage in {PushHeader, PushPayload} ==> !s.dropped
  {
    hide InFlight, AllSendable, Streams;
  }

  /** Steps of the lock holder that leave the pipe alone. */
  lemma WriterKeeps(s: System, s': System)
    requires Invariant(s) && s' == s.(holder := s'.holder, dropped := s'.dropped)
    requires (s'.dropped ==> !s.writerConnected) && (s.dropped ==> s'.dropped)
    requires s'.holder.Some? && s'.holder.value.stage in {PushHeader, PushPayload} ==> !s'.dropped
    requires !s'.dropped ==> ToWrite(s') == ToWrite(s)
    ensures Invariant(s')
  {
    assert InFlight(s') == InFlight(s);
    hide InFlight, ToWrite, AllSendable, Frames;
  }

  lemma PushKeeps(s: System, data: seq<byte>, next: Stage)
    requires Invariant(s) && s.holder.Some? && !s.dropped && next in {CheckPayload, Unlock}
    requires ToWrite(s) == data + ToWrite(At(s, s.holder.value, next))
    ensures Invariant(At(Push(s, data), s.holder.value, next))
  {
    hide Frames, AllSendable;
    var s' := At(Push(s, data), s.holder.value, next);
    if !s.closed {
      PushedBytes(s, data);
      hide InFlight, ToWrite;
      Regroup(InFlight(s), data, ToWrite(s'));
    } else {
      hide ToWrite;
      assert InFlight(s') == InFlight(s);
    }
  }

  lemma PushedBytes(s: System, data: seq<byte>)
    requires Ready(s) && !s.closed
    ensures InFlight(Push(s, data)) == InFlight(s) + data
  {
    ConcatAppend(s.queue, [data]);
    ConcatSingle(data);
    hide Concat, Taken;
    Regroup(Taken(s.phase) + s.current[s.currentPos..], Concat(s.queue), data);
  }

  lemma LockKeeps(s: System, sender: nat, msg: Message)
    requires Invariant(s) && s.holder == None && Sendable(msg)
    ensures Invariant(Apply(s, Lock(sender, msg)))
  {
    hide Frame, Sendable;
    var s' := Apply(s, Lock(sender, msg));
    assert Todo(s') == Todo(s) + [msg];
    FramesAppend(Todo(s), msg);
    hide Frames;
    assert InFlight(s') == InFlight(s);
    assert InFlight(s) + [] == InFlight(s);
  }

  /** Fetching moves bytes between the queue, the chunk and the reader's buffer, and loses none. */
  lemma FetchKeepsBytes(s: System, want: nat)
    requires Ready(s)
    ensures var f := Fetch(s, want);
            f.state.phase != Stopped ==>
              f.bytes + f.state.current[f.state.currentPos..] + Concat(f.state.queue)
              == s.current[s.currentPos..] + Concat(s.queue)
  {
    if s.currentPos < |s.current| {
      FetchFromChunk(s, want);
    } else if s.queue != [] {
      FetchNextChunk(s, want);
    } else {
      assert Fetch(s, want).bytes == [];
    }
    hide *;
  }

  lemma FetchFromChunk(s: System, want: nat)
    requires s.currentPos < |s.current|
    ensures var f := Fetch(s, want);
            f.bytes + f.state.current[f.state.currentPos..] + Concat(f.state.queue) == s.current[s.currentPos..] + Concat(s.queue)
  {
    var f := Fetch(s, want);
    var n := Min(|s.current| - s.currentPos, want);
    assert f.state.current == s.current && f.state.currentPos == s.currentPos + n && f.state.queue == s.queue;
    assert f.bytes == s.current[s.currentPos..s.currentPos + n];
    hide *;
    SplitAt(s.current, s.currentPos, n);
  }

  lemma FetchNextChunk(s: System, want: nat)
    requires s.currentPos == |s.current| && s.queue != []
    ensures var f := Fetch(s, want);
            f.bytes + f.state.current[f.state.currentPos..] + Concat(f.state.queue) == s.current[s.currentPos..] + Concat(s.queue)
  {
    var f := Fetch(s, want);
    assert f.bytes == [] && f.state.current == s.queue[0] && f.state.currentPos == 0 && f.state.queue == s.queue[1..];
    assert Concat(s.queue) == s.queue[0] + Concat(s.queue[1..]);
    hide *;
    assert s.queue[0][0..] == s.queue[0] && s.current[s.currentPos..] == [];
  }

  lemma SplitAt(s: seq<byte>, at: nat, n: nat)
    requires at + n <= |s|
    ensures s[at..at + n] + s[at + n..] == s[at..]
  {
  }

  lemma FetchedBytes(s: System, s': System, f: Fetched)
    requires Ready(s) && Ready(s') && s' == f.state.(phase := s'.phase)
    requires Taken(s'.phase) == Taken(s.phase) + f.bytes
    requires f.bytes + f.state.current[s'.currentPos..] + Concat(f.state.queue)
          == s.current[s.currentPos..] + Concat(s.queue)
    ensures InFlight(s') == InFlight(s)
  {
    var t, b, c, q := Taken(s.phase), f.bytes, f.state.current[s'.currentPos..], Concat(f.state.queue);
    hide Concat, Taken;
    Regroup(t, s.current[s.currentPos..], Concat(s.queue));
    Regroup(t, b + c, q);
    Regroup(t, b, c);
  }

  /** What the reader leaves alone. */
  predicate SameOutside(s: System, s': System)
  {
    && s'.sent == s.sent && s'.delivered == s.delivered && s'.failure == s.failure
    && s'.holder == s.holder && s'.dropped == s.dropped && s'.writerConnected == s.writerConnected
  }

  lemma SameStream(s: System, s': System)
    requires Invariant(s) && Ready(s') && s.phase != Stopped
    requires s'.phase != Stopped ==> InFlight(s') == InFlight(s)
    requires SameOutside(s, s')
    ensures Invariant(s')
  {
    hide InFlight, AllSendable, Streams;
  }

  /** The state after a fetch: stopped because the pipe is closed and empty, or going on with what was got. */
  function After(f: Fetched, phase: Phase): System
  {
    if f.state.phase == Stopped then f.state else f.state.(phase := phase)
  }

  lemma FetchOutside(s: System, want: nat)
    requires s.currentPos <= |s.current|
    ensures SameOutside(s, Fetch(s, want).state)
  {
  }

  lemma AfterOutside(s: System, f: Fetched, phase: Phase)
    requires SameOutside(s, f.state)
    ensures SameOutside(s, After(f, phase))
  {
  }

  lemma FetchingKeeps(s: System, want: nat, phase: Phase)
    requires Invariant(s) && s.phase != Stopped && phase != Stopped
    requires Taken(phase) == Taken(s.phase) + Fetch(s, want).bytes && Ready(After(Fetch(s, want), phase))
    ensures Invariant(After(Fetch(s, want), phase))
  {
    var f := Fetch(s, want);
    var s' := After(f, phase);
    FetchKeepsBytes(s, want);
    FetchOutside(s, want);
    AfterOutside(s, f, phase);
    hide InFlight, Taken, Concat, Invariant, Fetch;
    if s'.phase != Stopped {
      FetchedBytes(s, s', f);
    }
    SameStream(s, s');
  }

  /** A complete header is the header of the next message, so it passes the checks. */
  lemma ValidateKeeps(s: System)
    requires Invariant(s) && s.phase.InHeader? && |s.phase.got| == HEADER_LEN
    ensures Invariant(HeaderStep(s, s.phase.got))
  {
    var got, more := s.phase.got, s.current[s.currentPos..] + Concat(s.queue);
    NextHeader(s, got, more);
    ReaderFacts(s);
    var m, s' := Todo(s)[0], HeaderStep(s, got);
    hide Invariant, InFlight, Frame, DecodeHeader, EncodeHeader, Concat, Todo;
    if m.payload == [] {
      assert got + more == Frame(m) + more;
      DeliverKeeps(s, s', m, more);
    } else {
      assert s' == s.(phase := InPayload(DecodeHeader(got), []));
      PayloadBegins(s, s');
      SameStream(s, s');
    }
  }

  lemma NextHeader(s: System, got: seq<byte>, more: seq<byte>)
    requires Invariant(s) && s.phase == InHeader(got) && |got| == HEADER_LEN
    requires more == s.current[s.currentPos..] + Concat(s.queue)
    ensures InFlight(s) == got + more && Todo(s) != []
    ensures var m := Todo(s)[0];
            && |m.payload| <= MAX_PAYLOAD && DecodeHeader(got) == FrameHeader(MAGIC, VERSION, m.kind, |m.payload|)
            && EncodeHeader(DecodeHeader(got)) == got && (m.payload == [] ==> Frame(m) == got)
  {
    HeaderIsNext(Todo(s), got, more);
    hide Frames, AllSendable, DecodeHeader, EncodeHeader, Concat, Streams;
    DecodeHeaderInverse(FrameHeader(MAGIC, VERSION, Todo(s)[0].kind, |Todo(s)[0].payload|));
    assert got + [] == got;
  }

  lemma PayloadBegins(s: System, s': System)
    requires Ready(s) && s.phase.InHeader? && |s.phase.got| == HEADER_LEN
    requires EncodeHeader(DecodeHeader(s.phase.got)) == s.phase.got
    requires s' == s.(phase := InPayload(DecodeHeader(s.phase.got), []))
    ensures InFlight(s') == InFlight(s)
  {
    hide EncodeHeader, DecodeHeader, Concat;
    assert s.phase.got + [] == s.phase.got;
  }

  /** A complete payload is the payload of the next message. */
  lemma PayloadKeeps(s: System)
    requires Invariant(s) && s.phase.InPayload? && |s.phase.got| == s.phase.hdr.payloadLen
    ensures Invariant(PayloadStep(s, s.phase.hdr, s.phase.got))
  {
    var head, got := EncodeHeader(s.phase.hdr), s.phase.got;
    var more := s.current[s.currentPos..] + Concat(s.queue);
    var todo := Todo(s);
    assert InFlight(s) == head + (got + more);
    HeaderIsNext(todo, head, got + more);
    DecodeHeaderInverse(s.phase.hdr);
    SplitPrefix(got, more, todo[0].payload, Frames(todo[1..]));
    hide Frames, Frame, Sendable, DecodeHeader, EncodeHeader, Concat;
    DeliverKeeps(s, PayloadStep(s, s.phase.hdr, got), todo[0], more);
  }

  lemma DeliverKeeps(s: System, s': System, m: Message, more: seq<byte>)
    requires Invariant(s) && s.phase != Stopped && s' == Deliver(s, m)
    requires Todo(s) != [] && m == Todo(s)[0]
    requires more == s.current[s.currentPos..] + Concat(s.queue) && InFlight(s) == Frame(m) + more
    ensures Invariant(s')
  {
    var todo := Todo(s);
    assert Todo(s') == todo[1..] && s'.delivered <= s'.sent && Taken(s'.phase) == [];
    assert InFlight(s') == more by {
      hide Concat;
      assert [] + s.current[s.currentPos..] == s.current[s.currentPos..];
    }
    StreamsTail(Frame(m), more, ToWrite(s), todo, s.dropped);
    hide Streams, InFlight, Frame, Concat, AllSendable;
  }

  /** When the first frame in flight is taken, the rest is what is left of the streams. */
  lemma StreamsTail(frame: seq<byte>, more: seq<byte>, toWrite: seq<byte>, todo: seq<Message>, dropped: bool)
    requires todo != [] && frame == Frame(todo[0]) && Streams(frame + more, toWrite, todo, dropped)
    ensures Streams(more, toWrite, todo[1..], dropped)
  {
    var frames, rest := Frames(todo), Frames(todo[1..]);
    assert frames == frame + rest;
    hide Frames, Frame;
    SplitPrefix(frame, more, frame, rest);
    if !dropped {
      assert frame + (more + toWrite) == (frame + more) + toWrite;
      assert (frame + (more + toWrite))[|frame|..] == more + toWrite && (frame + rest)[|frame|..] == rest;
    }
  }

  lemma HeaderKeeps(s: System, got: seq<byte>)
    requires Invariant(s) && s.phase == InHeader(got)
    ensures Invariant(HeaderStep(s, got))
  {
    hide *;
    ReaderFacts(s);
    if |got| == HEADER_LEN {
      ValidateKeeps(s);
    } else {
      HeaderFetches(s, got);
      FetchingKeeps(s, HEADER_LEN - |got|, InHeader(got + Fetch(s, HEADER_LEN - |got|).bytes));
    }
  }

  lemma ReaderFacts(s: System)
    requires Invariant(s)
    ensures Ready(s) && s.currentPos <= |s.current|
    ensures s.phase.InHeader? ==> |s.phase.got| <= HEADER_LEN
    ensures s.phase.InPayload? ==> |s.phase.got| <= s.phase.hdr.payloadLen
  {
    hide InFlight, AllSendable, Streams;
  }

  lemma HeaderFetches(s: System, got: seq<byte>)
    requires Ready(s) && s.phase == InHeader(got) && |got| < HEADER_LEN
    ensures var f := Fetch(s, HEADER_LEN - |got|);
            && HeaderStep(s, got) == After(f, InHeader(got + f.bytes)) && Ready(After(f, InHeader(got + f.bytes)))
            && Taken(InHeader(got + f.bytes)) == Taken(s.phase) + f.bytes
  {
    hide Validate, DecodeHeader, Fetch;
  }

  lemma PayloadFetches(s: System, h: FrameHeader, got: seq<byte>)
    requires Ready(s) && s.phase == InPayload(h, got) && |got| < h.payloadLen
    ensures var f := Fetch(s, h.payloadLen - |got|);
            && PayloadStep(s, h, got) == After(f, InPayload(h, got + f.bytes)) && Ready(After(f, InPayload(h, got + f.bytes)))
            && Taken(InPayload(h, got + f.bytes)) == Taken(s.phase) + f.bytes
  {
    hide EncodeHeader, Fetch, Deliver;
    Regroup(EncodeHeader(h), got, Fetch(s, h.payloadLen - |got|).bytes);
  }

  lemma PayloadStepKeeps(s: System, h: FrameHeader, got: seq<byte>)
    requires Invariant(s) && s.phase == InPayload(h, got)
    ensures Invariant(PayloadStep(s, h, got))
  {
    hide *;
    ReaderFacts(s);
    if |got| == h.payloadLen {
      PayloadKeeps(s);
    } else {
      PayloadFetches(s, h, got);
      FetchingKeeps(s, h.payloadLen - |got|, InPayload(h, got + Fetch(s, h.payloadLen - |got|).bytes));
    }
  }

  lemma ReadKeeps(s: System)
    requires Invariant(s)
    ensures Invariant(ReadStep(s))
  {
    hide Concat, HeaderStep, PayloadStep, AllSendable, Streams;
    match s.phase
    case Top =>
      assert InFlight(ReadStep(s)) == InFlight(s);
    case InHeader(got) =>
      HeaderKeeps(s, got);
    case InPayload(h, got) =>
      PayloadStepKeeps(s, h, got);
    case Stopped =>
  }

  ghost predicate Allowed(step: Step)
  {
    step.Lock? ==> Sendable(step.msg)
  }

  lemma ApplyKeeps(s: System, step: Step)
    requires Invariant(s) && Allowed(step)
    ensures Invariant(Apply(s, step))
  {
    hide Frames, Frame, HeaderOf, Sendable, Concat, EncodeHeader, DecodeHeader, ReadStep, SendStep;
    match step
    case Lock(sender, msg) => if s.holder == None { LockKeeps(s, sender, msg); }
    case Send => SendKeeps(s);
    case Read => ReadKeeps(s);
    case _ =>
      assert InFlight(Apply(s, step)) == InFlight(s);
      assert ToWrite(Apply(s, step)) == ToWrite(s);
  }

  lemma {:induction false} RunKeeps(s: System, steps: seq<Step>)
    requires Invariant(s) && forall i :: 0 <= i < |steps| ==> Allowed(steps[i])
    ensures Invariant(Run(s, steps))
    decreases steps
  {
    assert Ready(s);
    hide Invariant, Allowed, Apply, Ready;
    if steps != [] {
      assert Allowed(steps[0]);
      ApplyKeeps(s, steps[0]);
      RunKeeps(Apply(s, steps[0]), steps[1..]);
    }
  }

  // ── What it gives ─────────────────────────────────────────────────────────

  /**
     In every interleaving, closes included, the reader delivers a prefix of the messages sent, in
     lock order, each as it was sent, and never reports an error.
   */
  lemma DeliversPrefix(steps: seq<Step>)
    requires forall i :: 0 <= i < |steps| ==> Allowed(steps[i])
    ensures Run(INITIAL, steps).delivered <= Run(INITIAL, steps).sent
    ensures Run(INITIAL, steps).failure == NoFailure
  {
    RunKeeps(INITIAL, steps);
  }

  /** Nothing left to read: the sender is done, the queue and the reader's chunk are used up. */
  predicate Drained(s: System)
  {
    && s.holder == None && s.queue == [] && s.currentPos == |s.current|
    && (s.phase == Top || s.phase == InHeader([]))
  }

  lemma DrainedMeansDelivered(s: System)
    requires Invariant(s) && Drained(s) && !s.dropped
    ensures s.delivered == s.sent
  {
    hide HeaderOf;
    assert InFlight(s) == [] && ToWrite(s) == [];
    assert Todo(s) != [] ==> |Frames(Todo(s))| >= |HeaderOf(Todo(s)[0])|;
  }

  /** Unless an end disconnected, a reader that has drained the pipe has delivered every message. */
  lemma DeliversAll(steps: seq<Step>)
    requires forall i :: 0 <= i < |steps| ==> Allowed(steps[i])
    requires Drained(Run(INITIAL, steps)) && !Run(INITIAL, steps).dropped
    ensures Run(INITIAL, steps).delivered == Run(INITIAL, steps).sent
  {
    RunKeeps(INITIAL, steps);
    hide Run;
    DrainedMeansDelivered(Run(INITIAL, steps));
  }

  // ── The bound on payloads is exact ────────────────────────────────────────

  const BEGIN_READ := [Read, Read, Read, Read]
  const PAYLOAD_READ := [Read, Read, Read]

  /** If the low 32 bits of the size exceed the bound, the reader stops with an error. */
  lemma OversizeStopsReader(m: Message)
    requires |m.payload| % U32_RANGE > MAX_PAYLOAD
    ensures Run(INITIAL, [Lock(0, m), Send, Send] + BEGIN_READ).failure == PayloadTooLarge
  {
    HeaderWritten(m);
    HeaderDecodes(m);
    var s := Apply(Apply(Apply(INITIAL, Lock(0, m)), Send), Send);
    HeaderArrives(s, HeaderOf(m), []);
    assert [HeaderOf(m)] + [] == [HeaderOf(m)];
    hide Apply, Run, HeaderOf, DecodeHeader;
    RunConcat(INITIAL, [Lock(0, m), Send, Send], BEGIN_READ);
  }

  /** If they do not, though the size does, it delivers that many bytes as the message. */
  lemma OversizeIsCut(m: Message)
    requires !Sendable(m) && |m.payload| % U32_RANGE <= MAX_PAYLOAD
    ensures var s := Run(INITIAL, [Lock(0, m), Send, Send, Send, Send] + BEGIN_READ + PAYLOAD_READ);
            s.sent == [m] && s.delivered != [] && s.delivered[0] == Message(m.kind, m.payload[..|m.payload| % U32_RANGE])
  {
    HeaderDecodes(m);
    FrameWritten(m);
    var s := Run(INITIAL, [Lock(0, m), Send, Send, Send, Send]);
    HeaderArrives(s, HeaderOf(m), [m.payload]);
    var t := Run(s, BEGIN_READ);
    PayloadArrives(t, m);
    var u := Run(t, PAYLOAD_READ);
    hide Apply, Run, HeaderOf, DecodeHeader;
    RunConcat(INITIAL, [Lock(0, m), Send, Send, Send, Send], BEGIN_READ);
    RunConcat(INITIAL, [Lock(0, m), Send, Send, Send, Send] + BEGIN_READ, PAYLOAD_READ);
  }

  lemma HeaderWritten(m: Message)
    ensures var s := Apply(Apply(Apply(INITIAL, Lock(0, m)), Send), Send);
            && Waits(s, [HeaderOf(m)]) && s.sent == [m] && s.holder == Some(Holder(0, m, if m.payload == [] then Unlock else CheckPayload))
            && s.writerConnected && !s.closed && Run(INITIAL, [Lock(0, m), Send, Send]) == s
  {
    hide HeaderOf;
    var a := Apply(INITIAL, Lock(0, m));
    var b := Apply(a, Send);
    var s := Apply(b, Send);
    assert s.queue == [] + [HeaderOf(m)];
    hide Apply;
    RunConcat(INITIAL, [Lock(0, m)], [Send, Send]);
    RunTwo(a, Send, Send);
    assert Run(INITIAL, [Lock(0, m)]) == a;
    assert [Lock(0, m)] + [Send, Send] == [Lock(0, m), Send, Send];
  }

  lemma FrameWritten(m: Message)
    requires m.payload != []
    ensures var s := Run(INITIAL, [Lock(0, m), Send, Send, Send, Send]);
            Waits(s, [HeaderOf(m), m.payload]) && s.sent == [m]
  {
    HeaderWritten(m);
    hide HeaderOf;
    var s := Run(INITIAL, [Lock(0, m), Send, Send]);
    assert [HeaderOf(m)] + [m.payload] == [HeaderOf(m), m.payload];
    var s' := Apply(Apply(s, Send), Send);
    assert Waits(s', [HeaderOf(m), m.payload]) && s'.sent == [m];
    hide Apply, Run;
    RunConcat(INITIAL, [Lock(0, m), Send, Send], [Send, Send]);
    RunTwo(s, Send, Send);
    assert [Lock(0, m), Send, Send] + [Send, Send] == [Lock(0, m), Send, Send, Send, Send];
  }

  /** Before the reader's first step, with these chunks queued. */
  predicate Waits(s: System, queue: seq<seq<byte>>)
  {
    && s.queue == queue && s.phase == Top && s.readerConnected && s.current == [] && s.currentPos == 0
    && s.delivered == [] && s.failure == NoFailure
  }

  /** The reader takes the next chunk from the queue. */
  lemma ReadNextChunk(s: System)
    requires Ready(s) && s.currentPos == |s.current| && s.queue != []
    requires (s.phase.InHeader? && |s.phase.got| < HEADER_LEN) || (s.phase.InPayload? && |s.phase.got| < s.phase.hdr.payloadLen)
    ensures Apply(s, Read) == s.(current := s.queue[0], currentPos := 0, queue := s.queue[1..])
  {
    hide Validate, Deliver, DecodeHeader;
    assert s.phase.got + [] == s.phase.got;
  }

  lemma ReadHeaderChunk(s: System, h: seq<byte>)
    requires Ready(s) && s.current == h && s.currentPos == 0 && |h| == HEADER_LEN && s.phase == InHeader([])
    ensures Apply(s, Read) == s.(currentPos := HEADER_LEN, phase := InHeader(h))
  {
    hide Validate, Deliver, DecodeHeader;
    assert [] + h[0..HEADER_LEN] == h;
  }

  lemma ReadPayloadChunk(s: System, p: seq<byte>)
    requires Ready(s) && s.current == p && s.currentPos == 0 && s.phase.InPayload? && s.phase.got == []
    requires 0 < s.phase.hdr.payloadLen <= |p|
    ensures var n := s.phase.hdr.payloadLen;
            Apply(s, Read) == s.(currentPos := n, phase := InPayload(s.phase.hdr, p[..n]))
  {
    hide Validate, Deliver, DecodeHeader;
    var n := s.phase.hdr.payloadLen;
    assert [] + p[0..n] == p[..n];
  }

  /** Three iterations for the header, and the checks. */
  lemma HeaderArrives(s: System, h: seq<byte>, more: seq<seq<byte>>)
    requires Waits(s, [h] + more) && |h| == HEADER_LEN
    ensures var s' := Run(s, BEGIN_READ); var hdr := DecodeHeader(h);
            && s'.sent == s.sent && s'.currentPos == |s'.current| && s'.queue == more
            && s'.failure == Check(hdr)
            && (Check(hdr) == NoFailure && hdr.payloadLen == 0 ==> s'.delivered == [Message(hdr.kind, [])])
            && (Check(hdr) == NoFailure && hdr.payloadLen > 0 ==> s'.phase == InPayload(hdr, []) && s'.delivered == [])
  {
    RunFour(s, Read, Read, Read, Read);
    var s1 := s.(phase := InHeader([]));
    assert Apply(s, Read) == s1;
    ReadNextChunk(s1);
    var s2 := s1.(current := h, currentPos := 0, queue := more);
    assert Apply(s1, Read) == s2 by { hide Apply; }
    ReadHeaderChunk(s2, h);
    var s3 := s2.(currentPos := HEADER_LEN, phase := InHeader(h));
    assert Apply(s3, Read) == Validate(s3, DecodeHeader(h)) by { hide Validate, DecodeHeader, Fetch; }
    hide Run, Apply, DecodeHeader, Check;
  }

  lemma PayloadArrives(s: System, m: Message)
    requires Ready(s) && |m.payload| > MAX_PAYLOAD && s.sent == [m]
    requires var n := |m.payload| % U32_RANGE; var hdr := FrameHeader(MAGIC, VERSION, m.kind, n);
             if n == 0 then s.delivered == [Message(m.kind, [])]
             else n <= MAX_PAYLOAD && s.phase == InPayload(hdr, []) && s.delivered == [] && s.queue == [m.payload] && s.currentPos == |s.current|
    ensures var s' := Run(s, PAYLOAD_READ);
            s'.sent == [m] && s'.delivered != [] && s'.delivered[0] == Message(m.kind, m.payload[..|m.payload| % U32_RANGE])
  {
    var n := |m.payload| % U32_RANGE;
    if n == 0 {
      assert m.payload[..n] == [];
      DeliveredStays(s, PAYLOAD_READ);
    } else {
      RunThree(s, Read, Read, Read);
      ReadNextChunk(s);
      var s1 := s.(current := m.payload, currentPos := 0, queue := []);
      assert Apply(s, Read) == s1 by { hide Apply; }
      ReadPayloadChunk(s1, m.payload);
      var s2 := s1.(currentPos := n, phase := InPayload(s.phase.hdr, m.payload[..n]));
      assert Apply(s2, Read) == Deliver(s2, Message(m.kind, m.payload[..n])) by { hide Deliver, Fetch; }
      hide Run, Apply;
    }
  }

  /** What the reader has delivered stays delivered. */
  lemma {:induction false} DeliveredStays(s: System, steps: seq<Step>)
    requires Ready(s) && forall i :: 0 <= i < |steps| ==> steps[i] == Read
    ensures Run(s, steps).sent == s.sent && s.delivered <= Run(s, steps).delivered
    decreases steps
  {
    if steps != [] {
      ReadAppends(s);
      hide ReadStep;
      DeliveredStays(Apply(s, steps[0]), steps[1..]);
    }
  }

  lemma ReadAppends(s: System)
    requires Ready(s)
    ensures ReadStep(s).sent == s.sent && s.delivered <= ReadStep(s).delivered
  {
    hide HeaderStep, PayloadStep;
    match s.phase
    case InHeader(got) => HeaderAppends(s, got);
    case InPayload(h, got) => PayloadAppends(s, h, got);
    case _ =>
  }

  lemma HeaderAppends(s: System, got: seq<byte>)
    requires Ready(s) && s.phase == InHeader(got)
    ensures HeaderStep(s, got).sent == s.sent && s.delivered <= HeaderStep(s, got).delivered
  {
    if |got| < HEADER_LEN {
      var f := Fetch(s, HEADER_LEN - |got|);
      FetchOutside(s, HEADER_LEN - |got|);
      AfterOutside(s, f, InHeader(got + f.bytes));
      HeaderFetches(s, got);
      hide Fetch, After, HeaderStep;
    }
  }

  lemma PayloadAppends(s: System, h: FrameHeader, got: seq<byte>)
    requires Ready(s) && s.phase == InPayload(h, got)
    ensures PayloadStep(s, h, got).sent == s.sent && s.delivered <= PayloadStep(s, h, got).delivered
  {
    if |got| < h.payloadLen {
      var f := Fetch(s, h.payloadLen - |got|);
      FetchOutside(s, h.payloadLen - |got|);
      AfterOutside(s, f, InPayload(h, got + f.bytes));
      PayloadFetches(s, h, got);
      hide Fetch, After, PayloadStep;
    }
  }

  /** In every run that sends only messages in `ms`, the reader delivers a prefix and reports no error. */
  ghost predicate SafeFor(ms: set<Message>)
  {
    forall steps: seq<Step> :: SendsOnly(steps, ms) ==> Run(INITIAL, steps).delivered <= Run(INITIAL, steps).sent && Run(INITIAL, steps).failure == NoFailure
  }

  ghost predicate SendsOnly(steps: seq<Step>, ms: set<Message>)
  {
    forall i :: 0 <= i < |steps| && steps[i].Lock? ==> steps[i].msg in ms
  }

  /** The exact condition: delivery is safe if and only if every payload is within the bound. */
  lemma SafeIffSendable(ms: set<Message>)
    ensures SafeFor(ms) <==> forall m :: m in ms ==> Sendable(m)
  {
    if forall m :: m in ms ==> Sendable(m) {
      forall steps: seq<Step> | SendsOnly(steps, ms)
        ensures Run(INITIAL, steps).delivered <= Run(INITIAL, steps).sent && Run(INITIAL, steps).failure == NoFailure
      {
        DeliversPrefix(steps);
      }
    } else {
      var m :| m in ms && !Sendable(m);
      if |m.payload| % U32_RANGE > MAX_PAYLOAD {
        OversizeStopsReader(m);
        assert SendsOnly([Lock(0, m), Send, Send] + BEGIN_READ, ms);
      } else {
        OversizeIsCut(m);
        hide Run;
        var steps := [Lock(0, m), Send, Send, Send, Send] + BEGIN_READ + PAYLOAD_READ;
        assert SendsOnly(steps, ms);
        assert !(Run(INITIAL, steps).delivered <= [m]);
      }
    }
  }

  lemma RunTwo(s: System, a: Step, b: Step)
    requires Ready(s)
    ensures Run(s, [a, b]) == Apply(Apply(s, a), b)
  {
    hide Ready, Apply;
    assert Run(Apply(s, a), [b]) == Apply(Apply(s, a), b);
    assert Run(s, [a, b]) == Run(Apply(s, a), [b]);
  }

  lemma RunThree(s: System, a: Step, b: Step, c: Step)
    requires Ready(s)
    ensures Run(s, [a, b, c]) == Apply(Apply(Apply(s, a), b), c)
  {
    RunTwo(Apply(s, a), b, c);
    hide Ready, Apply;
    assert Run(s, [a, b, c]) == Run(Apply(s, a), [b, c]);
  }

  lemma {:induction false} RunConcat(s: System, xs: seq<Step>, ys: seq<Step>)
    requires Ready(s)
    ensures Run(s, xs + ys) == Run(Run(s, xs), ys)
    decreases xs
  {
    hide Apply, Ready;
    if xs == [] {
      assert xs + ys == ys;
    } else {
      assert (xs + ys)[1..] == xs[1..] + ys;
      RunConcat(Apply(s, xs[0]), xs[1..], ys);
    }
  }

  lemma RunFour(s: System, a: Step, b: Step, c: Step, d: Step)
    requires Ready(s)
    ensures Run(s, [a, b, c, d]) == Apply(Apply(Apply(Apply(s, a), b), c), d)
  {
    hide Ready, Apply;
    var t := Apply(Apply(s, a), b);
    assert Run(t, [c, d]) == Run(Apply(t, c), [d]) == Apply(Apply(t, c), d);
    assert Run(s, [a, b, c, d]) == Run(Apply(s, a), [b, c, d]) == Run(t, [c, d]);
  }
}
