/**
 That messages do get through: as long as neither end disconnects, a sender that holds the lock finishes
 its frame, and a reader that goes on reading delivers every message sent.
 */
module IpcProgress {
  import opened Bytes
  import opened IpcFraming
  import opened IpcSystem

  // ── Senders ───────────────────────────────────────────────────────────────

  const FINISH := [Send, Send, Send, Send, Send]

  lemma RunFive(s: System, a: Step, b: Step, c: Step, d: Step, e: Step)
    requires Ready(s)
    ensures Run(s, [a, b, c, d, e]) == Apply(Apply(Apply(Apply(Apply(s, a), b), c), d), e)
  {
    RunFour(Apply(s, a), b, c, d, e);
    hide Ready, Apply;
    assert [a, b, c, d, e][1..] == [b, c, d, e];
    assert Run(s, [a, b, c, d, e]) == Run(Apply(s, a), [b, c, d, e]);
  }

  /** Whatever has happened, the lock holder lets go after five steps of its own at most. */
  lemma SenderFinishes(s: System)
    requires Ready(s)
    ensures Run(s, FINISH).holder == None
  {
    RunFive(s, Send, Send, Send, Send, Send);
    var s1 := Apply(s, Send);
    var s2 := Apply(s1, Send);
    var s3 := Apply(s2, Send);
    var s4 := Apply(s3, Send);
    AtMostFive(s.holder);
    AtMostFive(Apply(s4, Send).holder);
    hide *;
    StageMoves(s);
    StageMoves(s1);
    StageMoves(s2);
    StageMoves(s3);
    StageMoves(s4);
  }

  /** How many steps a holder has still to take. */
  function StepsLeft(h: Option<Holder>): nat
  {
    match h
    case None => 0
    case Some(h) =>
      match h.stage
      case CheckHeader => 5
      case PushHeader => 4
      case CheckPayload => 3
      case PushPayload => 2
      case Unlock => 1
  }

  lemma AtMostFive(h: Option<Holder>)
    ensures StepsLeft(h) <= 5 && (StepsLeft(h) == 0 <==> h == None)
  {
  }

  lemma StageMoves(s: System)
    requires Ready(s)
    ensures StepsLeft(Apply(s, Send).holder) <= (if StepsLeft(s.holder) == 0 then 0 else StepsLeft(s.holder) - 1)
  {
    hide HeaderOf, Push, Discard;
  }

  /** On an open pipe a sender that takes the lock appends exactly its frame to the stream. */
  lemma SenderAppends(s: System, sender: nat, m: Message)
    requires Ready(s) && s.holder == None && !s.closed && s.writerConnected
    ensures var s' := Run(Apply(s, Lock(sender, m)), FINISH);
            && s'.sent == s.sent + [m] && s'.holder == None && s'.dropped == s.dropped
            && Concat(s'.queue) == Concat(s.queue) + Frame(m)
  {
    var l := Apply(s, Lock(sender, m));
    assert l.holder == Some(Holder(sender, m, CheckHeader)) && l.queue == s.queue && l.sent == s.sent + [m];
    RunFive(l, Send, Send, Send, Send, Send);
    var h := HeaderOf(m);
    HeaderQueued(l, m);
    var l2 := Apply(Apply(l, Send), Send);
    hide Apply, Run, HeaderOf, Ready;
    ConcatAppend(s.queue, [h]);
    ConcatSingle(h);
    if m.payload == [] {
      assert h + m.payload == h;
      Nothing(l2);
    } else {
      PayloadQueued(l2, m);
      ConcatAppend(s.queue + [h], [m.payload]);
      ConcatSingle(m.payload);
      Regroup(Concat(s.queue), h, m.payload);
    }
  }

  predicate Alike(s: System, s': System)
  {
    s'.sent == s.sent && s'.dropped == s.dropped && s'.closed == s.closed && s'.writerConnected == s.writerConnected && Ready(s')
  }

  lemma HeaderQueued(s: System, m: Message)
    requires Ready(s) && s.holder.Some? && s.holder.value.msg == m && s.holder.value.stage == CheckHeader
    requires !s.closed && s.writerConnected
    ensures var s' := Apply(Apply(s, Send), Send);
            && Alike(s, s') && s'.queue == s.queue + [HeaderOf(m)]
            && s'.holder == Some(s.holder.value.(stage := if m.payload == [] then Unlock else CheckPayload))
  {
    hide HeaderOf;
  }

  lemma PayloadQueued(s: System, m: Message)
    requires Ready(s) && s.holder.Some? && s.holder.value.msg == m && s.holder.value.stage == CheckPayload
    requires !s.closed && s.writerConnected
    ensures var s' := Apply(Apply(Apply(s, Send), Send), Send);
            Alike(s, s') && s'.queue == s.queue + [m.payload] && s'.holder == None
  {
    hide HeaderOf;
  }

  /** Past the header of a message without payload there is only the lock to give back. */
  lemma Nothing(s: System)
    requires Ready(s) && s.holder.Some? && s.holder.value.stage == Unlock
    ensures var s' := Apply(Apply(Apply(s, Send), Send), Send); Alike(s, s') && s'.queue == s.queue && s'.holder == None
  {
    hide HeaderOf;
  }

  // ── Runs without a disconnect ─────────────────────────────────────────────

  predicate Quiet(step: Step)
  {
    step.Lock? || step.Send? || step.Read?
  }

  /** Both ends are connected, and the reader is at work. */
  predicate Live(s: System)
  {
    !s.closed && !s.closing && s.writerConnected && s.readerConnected && !s.dropped && s.phase != Stopped
  }

  lemma StepLive(s: System, step: Step)
    requires Invariant(s) && Live(s) && Allowed(step) && Quiet(step)
    ensures Invariant(Apply(s, step)) && Live(Apply(s, step))
  {
    ApplyKeeps(s, step);
    NoErrors(Apply(s, step));
    ReaderFacts(s);
    hide Invariant, Allowed, InFlight;
    match step
    case Lock(sender, msg) =>
    case Send => SendLive(s);
    case Read => ReadLive(s);
    case _ =>
  }

  lemma NoErrors(s: System)
    requires Invariant(s)
    ensures s.failure == NoFailure
  {
    hide InFlight, AllSendable, Streams;
  }

  lemma SendLive(s: System)
    requires Ready(s) && Live(s)
    ensures Live(Apply(s, Send))
  {
    hide HeaderOf;
  }

  lemma ReadLive(s: System)
    requires Ready(s) && Live(s) && Apply(s, Read).failure == NoFailure
    ensures Live(Apply(s, Read))
  {
    hide HeaderStep, PayloadStep;
    match s.phase
    case InHeader(got) => HeaderLive(s, got);
    case InPayload(h, got) => PayloadLive(s, h, got);
    case _ =>
  }

  lemma HeaderLive(s: System, got: seq<byte>)
    requires Ready(s) && Live(s) && s.phase == InHeader(got) && HeaderStep(s, got).failure == NoFailure
    ensures Live(HeaderStep(s, got))
  {
    if |got| < HEADER_LEN {
      FetchLive(s, HEADER_LEN - |got|, InHeader(got + Fetch(s, HEADER_LEN - |got|).bytes));
      HeaderFetches(s, got);
      hide HeaderStep, Fetch, After;
    } else {
      hide DecodeHeader;
    }
  }

  lemma PayloadLive(s: System, h: FrameHeader, got: seq<byte>)
    requires Ready(s) && Live(s) && s.phase == InPayload(h, got)
    ensures Live(PayloadStep(s, h, got))
  {
    if |got| < h.payloadLen {
      FetchLive(s, h.payloadLen - |got|, InPayload(h, got + Fetch(s, h.payloadLen - |got|).bytes));
      PayloadFetches(s, h, got);
      hide PayloadStep, Fetch, After;
    }
  }

  lemma FetchLive(s: System, want: nat, phase: Phase)
    requires s.currentPos <= |s.current| && Live(s) && phase != Stopped
    ensures Live(After(Fetch(s, want), phase))
  {
  }

  /** Without disconnects nothing is ever discarded and the reader never stops. */
  lemma {:induction false} StaysLive(s: System, steps: seq<Step>)
    requires Invariant(s) && Live(s)
    requires forall i :: 0 <= i < |steps| ==> Allowed(steps[i]) && Quiet(steps[i])
    ensures Invariant(Run(s, steps)) && Live(Run(s, steps))
    decreases steps
  {
    ReaderFacts(s);
    if steps != [] {
      assert Allowed(steps[0]) && Quiet(steps[0]);
      StepLive(s, steps[0]);
      hide Invariant, Live, Allowed, Quiet, Apply, Ready;
      StaysLive(Apply(s, steps[0]), steps[1..]);
    }
  }

  // ── The reader catches up ─────────────────────────────────────────────────

  function Reads(k: nat): (steps: seq<Step>)
    ensures |steps| == k && forall i :: 0 <= i < k ==> steps[i] == Read
  {
    if k == 0 then [] else [Read] + Reads(k - 1)
  }

  /** The reader needs bytes, and there are none. */
  predicate Blocked(s: System)
  {
    && s.currentPos == |s.current| && s.queue == []
    && ((s.phase.InHeader? && |s.phase.got| < HEADER_LEN) || (s.phase.InPayload? && |s.phase.got| < s.phase.hdr.payloadLen))
  }

  function Weight(p: Phase): nat
  {
    match p
    case Top => 1
    case InHeader(got) => if |got| < HEADER_LEN then 0 else 3
    case InPayload(h, got) => if |got| < h.payloadLen then 0 else 2
    case Stopped => 0
  }

  function Unread(s: System): nat
    requires s.currentPos <= |s.current|
  {
    |s.current| - s.currentPos + |Concat(s.queue)|
  }

  /** What goes down with every read that is not blocked. */
  function Measure(s: System): nat
    requires s.currentPos <= |s.current|
  {
    4 * Unread(s) + |s.queue| + Weight(s.phase)
  }

  lemma FetchProgress(s: System, want: nat, phase: Phase)
    requires Ready(s) && Live(s) && want > 0 && !(s.currentPos == |s.current| && s.queue == []) && Weight(phase) <= 3
    requires phase != Stopped
    ensures var f := Fetch(s, want); var s' := After(f, phase);
            && s'.currentPos <= |s'.current|
            && (f.bytes == [] ==> 4 * Unread(s') + |s'.queue| < 4 * Unread(s) + |s.queue|)
            && 4 * Unread(s') + |s'.queue| + 4 * |f.bytes| <= 4 * Unread(s) + |s.queue|
  {
    var f := Fetch(s, want);
    if s.currentPos < |s.current| {
      assert |f.bytes| > 0;
    } else {
      assert Concat(s.queue) == s.queue[0] + Concat(s.queue[1..]);
    }
    hide Concat;
  }

  lemma ReadProgress(s: System)
    requires Ready(s) && Live(s) && !Blocked(s) && Apply(s, Read).failure == NoFailure && s.failure == NoFailure
    ensures var s' := Apply(s, Read); Measure(s') < Measure(s) && s'.sent == s.sent && s'.holder == s.holder
  {
    hide HeaderStep, PayloadStep, Concat;
    match s.phase
    case InHeader(got) => HeaderProgress(s, got);
    case InPayload(h, got) => PayloadProgress(s, h, got);
    case _ =>
  }

  lemma HeaderProgress(s: System, got: seq<byte>)
    requires Ready(s) && Live(s) && !Blocked(s) && s.phase == InHeader(got)
    requires HeaderStep(s, got).failure == NoFailure && s.failure == NoFailure
    ensures var s' := HeaderStep(s, got); Measure(s') < Measure(s) && s'.sent == s.sent && s'.holder == s.holder
  {
    if |got| < HEADER_LEN {
      var f := Fetch(s, HEADER_LEN - |got|);
      var phase := InHeader(got + f.bytes);
      FetchProgress(s, HEADER_LEN - |got|, phase);
      FetchLive(s, HEADER_LEN - |got|, phase);
      FetchOutside(s, HEADER_LEN - |got|);
      AfterOutside(s, f, phase);
      HeaderFetches(s, got);
      assert f.bytes == [] ==> Weight(phase) == 0;
      AfterPhase(f, phase);
      hide HeaderStep, Fetch, After, Unread, Live;
    } else {
      hide DecodeHeader, Concat;
    }
  }

  lemma PayloadProgress(s: System, h: FrameHeader, got: seq<byte>)
    requires Ready(s) && Live(s) && !Blocked(s) && s.phase == InPayload(h, got)
    ensures var s' := PayloadStep(s, h, got); Measure(s') < Measure(s) && s'.sent == s.sent && s'.holder == s.holder
  {
    if |got| < h.payloadLen {
      var f := Fetch(s, h.payloadLen - |got|);
      var phase := InPayload(h, got + f.bytes);
      FetchProgress(s, h.payloadLen - |got|, phase);
      FetchLive(s, h.payloadLen - |got|, phase);
      FetchOutside(s, h.payloadLen - |got|);
      AfterOutside(s, f, phase);
      PayloadFetches(s, h, got);
      assert f.bytes == [] ==> Weight(phase) == 0;
      AfterPhase(f, phase);
      hide PayloadStep, Fetch, After, Unread, Live;
    } else {
      hide Concat;
    }
  }

  lemma AfterPhase(f: Fetched, phase: Phase)
    ensures Live(After(f, phase)) ==> After(f, phase).phase == phase
  {
  }

  /** A reader that is blocked while no sender is at work has delivered everything. */
  lemma BlockedMeansDelivered(s: System)
    requires Invariant(s) && Live(s) && Blocked(s) && s.holder == None
    ensures s.delivered == s.sent
  {
    var todo := Todo(s);
    BlockedStream(s);
    if todo != [] {
      var m := todo[0];
      assert Frames(todo) == Frame(m) + Frames(todo[1..]);
      assert |Frames(todo)| >= HEADER_LEN + |m.payload|;
      assert s.phase.InPayload?;
      var h, got := s.phase.hdr, s.phase.got;
      assert AllSendable(todo) by { AllOfRest(s); }
      HeaderIsNext(todo, EncodeHeader(h), got);
      DecodeHeaderInverse(h);
      assert false;
    }
  }

  lemma AllOfRest(s: System)
    requires Invariant(s)
    ensures AllSendable(Todo(s))
  {
    hide InFlight, Streams;
  }

  lemma BlockedStream(s: System)
    requires Invariant(s) && Live(s) && Blocked(s) && s.holder == None
    ensures Taken(s.phase) == Frames(Todo(s))
  {
    assert s.current[s.currentPos..] == [] && Concat(s.queue) == [];
    assert Taken(s.phase) + [] == Taken(s.phase);
    hide Frames, AllSendable, Taken;
  }

  /**
     From any state without disconnects and with the lock free, reading on for long enough delivers every
     message sent.
   */
  lemma {:induction false} ReaderCatchesUp(s: System) returns (k: nat)
    requires Invariant(s) && Live(s) && s.holder == None
    ensures Ready(s) && Run(s, Reads(k)).delivered == s.sent && Run(s, Reads(k)).sent == s.sent
    decreases Measure(s)
  {
    ReaderFacts(s);
    if Blocked(s) {
      k := 0;
      BlockedMeansDelivered(s);
      hide *;
      RunNone(s);
    } else {
      var s' := Apply(s, Read);
      StepLive(s, Read);
      NoErrors(s);
      NoErrors(s');
      ReadProgress(s);
      ReaderFacts(s');
      hide Invariant, Live, Apply, Measure, Blocked, Ready;
      k := ReaderCatchesUp(s');
      RunOneMore(s, k);
      k := k + 1;
    }
  }

  lemma RunNone(s: System)
    requires Ready(s)
    ensures Run(s, Reads(0)) == s
  {
  }

  lemma RunOneMore(s: System, k: nat)
    requires Ready(s)
    ensures Run(s, Reads(k + 1)) == Run(Apply(s, Read), Reads(k))
  {
    hide Apply, Ready;
    assert Reads(k + 1)[1..] == Reads(k);
  }

  lemma InitialLive()
    ensures Invariant(INITIAL) && Live(INITIAL)
  {
  }

  /**
     In every run without disconnects: once the sender at work has finished, the reader, reading on for
     long enough, has delivered exactly the messages sent.
   */
  lemma AllGetThrough(steps: seq<Step>) returns (k: nat)
    requires forall i :: 0 <= i < |steps| ==> Allowed(steps[i]) && Quiet(steps[i])
    ensures var s := Run(INITIAL, steps);
            var e := Run(Run(s, FINISH), Reads(k));
            e.delivered == e.sent == Run(s, FINISH).sent && e.failure == NoFailure
  {
    InitialLive();
    StaysLive(INITIAL, steps);
    var s := Run(INITIAL, steps);
    assert forall i :: 0 <= i < |FINISH| ==> Allowed(FINISH[i]) && Quiet(FINISH[i]);
    hide Invariant, Live, Run, Apply;
    ReaderFacts(s);
    SenderFinishes(s);
    StaysLive(s, FINISH);
    var f := Run(s, FINISH);
    k := ReaderCatchesUp(f);
    assert forall i :: 0 <= i < |Reads(k)| ==> Allowed(Reads(k)[i]) && Quiet(Reads(k)[i]);
    StaysLive(f, Reads(k));
    NoErrors(Run(f, Reads(k)));
  }
}
