/**
 The input device: events wait in a bounded queue until the driver has buffers for them. Over every
 run, what was delivered and what is waiting is, in order, what was pushed, but for the oldest events
 dropped when the queue overflowed.
 */
module VirtioInput {
  import opened Bytes
  import opened GuestMemory
  import VirtQueue

  const QUEUE_SIZE := 64
  const CAPACITY := 128
  const EVENT_LEN := 8

  const EV_SYN: u16 := 0
  const EV_KEY: u16 := 1
  const EV_ABS: u16 := 3
  const ABS_X: u16 := 0
  const ABS_Y: u16 := 1
  const SYN_REPORT: u16 := 0
  const BTN_LEFT: u16 := 0x110
  const BTN_RIGHT: u16 := 0x111

  datatype Event = Event(kind: u16, code: u16, value: u32)

  function Encode(e: Event): (s: seq<byte>)
    ensures |s| == EVENT_LEN
  {
    Le16(e.kind) + Le16(e.code) + Le32(e.value)
  }

  function DecodeAt(s: seq<byte>, at: nat): Event
    requires at + EVENT_LEN <= |s|
  {
    Event(ReadLe16(s, at), ReadLe16(s, at + 2), ReadLe32(s, at + 4))
  }

  lemma DecodesEncoded(s: seq<byte>, at: nat, e: Event)
    requires at + EVENT_LEN <= |s| && s[at..at + EVENT_LEN] == Encode(e)
    ensures DecodeAt(s, at) == e
  {
    var w, a, b, c := s[at..at + EVENT_LEN], Le16(e.kind), Le16(e.code), Le32(e.value);
    Thirds(s, at, a, b, c);
    hide Le16, Le32, ReadLe16, ReadLe32;
    ReadLe16At(s, at, e.kind);
    ReadLe16At(s, at + 2, e.code);
    ReadLe32At(s, at + 4, e.value);
  }

  lemma Thirds(s: seq<byte>, at: nat, a: seq<byte>, b: seq<byte>, c: seq<byte>)
    requires |a| == |b| == 2 && |c| == 4 && at + EVENT_LEN <= |s| && s[at..at + EVENT_LEN] == a + b + c
    ensures s[at..at + 2] == a && s[at + 2..at + 4] == b && s[at + 4..at + 8] == c
  {
    var w := s[at..at + EVENT_LEN];
    assert s[at..at + 2] == w[..2] && s[at + 2..at + 4] == w[2..4] && s[at + 4..at + 8] == w[4..8];
    assert w[..4] == a + b && w[2..4] == (a + b)[2..];
  }

  // ── What happens to events ────────────────────────────────────────────────

  datatype Step = Push(e: Event) | Deliver | Reset

  /** Since the last reset: everything pushed and delivered, what waits, and how many were dropped. */
  datatype Log = Log(pushed: seq<Event>, delivered: seq<Event>, pending: seq<Event>, dropped: nat)

  function Empty(): Log
  {
    Log([], [], [], 0)
  }

  function Apply(l: Log, step: Step): Log
  {
    match step
    case Push(e) =>
      var waiting := l.pending + [e];
      if |waiting| > CAPACITY then Log(l.pushed + [e], l.delivered, waiting[1..], l.dropped + 1)
      else Log(l.pushed + [e], l.delivered, waiting, l.dropped)
    case Deliver =>
      if l.pending == [] then l
      else l.(delivered := l.delivered + [l.pending[0]], pending := l.pending[1..])
    case Reset => Empty()
  }

  function Run(l: Log, steps: seq<Step>): Log
    decreases steps
  {
    if steps == [] then l else Run(Apply(l, steps[0]), steps[1..])
  }

  /** An event is dropped only when 128 wait already, and then it is the oldest of them. */
  lemma PushDrops(l: Log, e: Event)
    ensures var l' := Apply(l, Push(e));
            && l'.pushed == l.pushed + [e] && l'.delivered == l.delivered
            && (|l.pending| < 128 ==> l'.pending == l.pending + [e] && l'.dropped == l.dropped)
            && (|l.pending| >= 128 ==> l'.pending == l.pending[1..] + [e] && l'.dropped == l.dropped + 1)
  {
  }

  /** `a` is what is left of `b` when some elements are taken out. */
  predicate Subsequence<T(==)>(a: seq<T>, b: seq<T>)
    decreases b
  {
    || a == []
    || (b != [] && Subsequence(a, b[..|b| - 1]))
    || (b != [] && a[|a| - 1] == b[|b| - 1] && Subsequence(a[..|a| - 1], b[..|b| - 1]))
  }

  lemma SubsequenceSkip<T>(a: seq<T>, b: seq<T>, x: T)
    requires Subsequence(a, b)
    ensures Subsequence(a, b + [x])
  {
    assert (b + [x])[..|b|] == b;
  }

  lemma SubsequenceTake<T>(a: seq<T>, b: seq<T>, x: T)
    requires Subsequence(a, b)
    ensures Subsequence(a + [x], b + [x])
  {
    assert (b + [x])[..|b|] == b && (a + [x])[..|a|] == a;
  }

  lemma {:induction false} SubsequenceAppend<T>(a: seq<T>, b: seq<T>, c: seq<T>)
    requires Subsequence(a, b)
    ensures Subsequence(a + c, b + c)
    decreases c
  {
    if c == [] {
      assert a + c == a && b + c == b;
    } else {
      var init, x := c[..|c| - 1], c[|c| - 1];
      SubsequenceAppend(a, b, init);
      SubsequenceTake(a + init, b + init, x);
      assert a + c == (a + init) + [x] && b + c == (b + init) + [x];
    }
  }

  /** Everything pushed up to some point was delivered or dropped, and the rest waits. */
  ghost predicate Conserved(l: Log)
  {
    var n := |l.pushed| - |l.pending|;
    && 0 <= n && |l.pending| <= CAPACITY
    && l.pending == l.pushed[n..] && Subsequence(l.delivered, l.pushed[..n])
    && |l.delivered| + l.dropped == n
    && (l.dropped == 0 ==> l.delivered == l.pushed[..n])
  }

  lemma PushKeeps(l: Log, e: Event)
    requires Conserved(l)
    ensures Conserved(Apply(l, Push(e)))
  {
    var n := |l.pushed| - |l.pending|;
    var pushed := l.pushed + [e];
    assert l.pending + [e] == pushed[n..];
    assert pushed[..n] == l.pushed[..n];
    if |l.pending| + 1 > CAPACITY {
      assert (l.pending + [e])[1..] == pushed[n + 1..];
      assert pushed[..n + 1] == pushed[..n] + [pushed[n]];
      SubsequenceSkip(l.delivered, pushed[..n], pushed[n]);
    }
  }

  lemma DeliverKeeps(l: Log)
    requires Conserved(l)
    ensures Conserved(Apply(l, Deliver))
  {
    if l.pending != [] {
      var n := |l.pushed| - |l.pending|;
      assert l.pending[0] == l.pushed[n] && l.pending[1..] == l.pushed[n + 1..];
      assert l.pushed[..n + 1] == l.pushed[..n] + [l.pushed[n]];
      SubsequenceTake(l.delivered, l.pushed[..n], l.pushed[n]);
    }
  }

  lemma {:induction false} RunKeeps(l: Log, steps: seq<Step>)
    requires Conserved(l)
    ensures Conserved(Run(l, steps))
    decreases steps
  {
    if steps != [] {
      match steps[0] {
        case Push(e) => PushKeeps(l, e);
        case Deliver => DeliverKeeps(l);
        case Reset => assert Conserved(Empty());
      }
      hide Conserved, Apply;
      RunKeeps(Apply(l, steps[0]), steps[1..]);
    }
  }

  /**
     After any run: the events delivered, followed by those waiting, are a subsequence of those
     pushed, in order; at most 128 wait; as many are missing as were dropped, each the oldest waiting
     at the time; and if none was dropped, nothing is missing.
   */
  lemma EventsAreConserved(steps: seq<Step>)
    ensures var l := Run(Empty(), steps);
            && Subsequence(l.delivered + l.pending, l.pushed)
            && |l.pending| <= CAPACITY
            && |l.delivered| + |l.pending| + l.dropped == |l.pushed|
            && (l.dropped == 0 ==> l.delivered + l.pending == l.pushed)
  {
    assert Conserved(Empty());
    hide *;
    RunKeeps(Empty(), steps);
    ConservedMeans(Run(Empty(), steps));
  }

  lemma ConservedMeans(l: Log)
    requires Conserved(l)
    ensures Subsequence(l.delivered + l.pending, l.pushed) && |l.pending| <= CAPACITY
    ensures |l.delivered| + |l.pending| + l.dropped == |l.pushed|
    ensures l.dropped == 0 ==> l.delivered + l.pending == l.pushed
  {
    hide Subsequence;
    var n := |l.pushed| - |l.pending|;
    SubsequenceAppend(l.delivered, l.pushed[..n], l.pending);
    assert l.pushed == l.pushed[..n] + l.pending;
  }

  // ── Handing events to the driver ──────────────────────────────────────────

  datatype Device = Device(ring: VirtQueue.Ring, ram: seq<byte>, log: Log)

  /** Assumed: descriptors in range, buffers wholly in RAM. */
  predicate DescOk(desc: seq<Desc>, base: nat, size: nat, r: VirtQueue.Ring)
  {
    && VirtQueue.Sized(r)
    && (forall i :: 0 <= i < |r.avail| ==> r.avail[i] < |desc|)
    && (forall i :: 0 <= i < |desc| ==> Whole(desc[i], base, size))
  }

  predicate Usable(d: Desc, base: nat, size: nat)
  {
    Maps(base, size, d.addr) && DeviceWrites(d) && d.len >= EVENT_LEN
  }

  /** One buffer: filled with the oldest event and returned, or passed over without a used entry. */
  function FlushOne(desc: seq<Desc>, base: nat, v: Device): (v': Device)
    requires DescOk(desc, base, |v.ram|, v.ring) && v.log.pending != []
    ensures DescOk(desc, base, |v'.ram|, v'.ring) && |v'.ram| == |v.ram|
    ensures v'.ring.availIdx == v.ring.availIdx && v'.ring.lastAvail == VirtQueue.Inc(v.ring.lastAvail)
  {
    var head := VirtQueue.NextHead(v.ring);
    var d := desc[head];
    if Usable(d, base, |v.ram|) then
      Device(VirtQueue.ServeLast(v.ring, EVENT_LEN),
             Splice(v.ram, d.addr as int - base, Encode(v.log.pending[0])),
             Apply(v.log, Deliver))
    else
      v.(ring := VirtQueue.Advance(v.ring))
  }

  lemma DistanceDrops(a: u16, b: u16)
    requires a != b
    ensures VirtQueue.Distance(VirtQueue.Inc(a), b) == VirtQueue.Distance(a, b) - 1
  {
    if b > a {
      assert VirtQueue.Distance(a, b) == b - a;
      assert VirtQueue.Inc(a) == a + 1;
    } else {
      assert VirtQueue.Distance(a, b) == b - a + U16_RANGE;
    }
  }

  /** As long as events wait and buffers are there. */
  function FlushAll(desc: seq<Desc>, base: nat, v: Device): (v': Device)
    requires DescOk(desc, base, |v.ram|, v.ring)
    ensures |v'.ram| == |v.ram| && DescOk(desc, base, |v'.ram|, v'.ring)
    decreases VirtQueue.Distance(v.ring.lastAvail, v.ring.availIdx)
  {
    if v.log.pending == [] || !VirtQueue.HasNext(v.ring) then v
    else
      DistanceDrops(v.ring.lastAvail, v.ring.availIdx);
      FlushAll(desc, base, FlushOne(desc, base, v))
  }

  /** The driver finds in a usable buffer exactly the oldest event, and a used entry that says so. */
  lemma BufferHoldsEvent(desc: seq<Desc>, base: nat, v: Device)
    requires DescOk(desc, base, |v.ram|, v.ring) && v.log.pending != []
    requires Usable(desc[VirtQueue.NextHead(v.ring)], base, |v.ram|)
    ensures var v', head := FlushOne(desc, base, v), VirtQueue.NextHead(v.ring);
            var at := desc[head].addr as int - base;
            && at + EVENT_LEN <= |v'.ram| && DecodeAt(v'.ram, at) == v.log.pending[0]
            && v'.ring.used[v.ring.usedIdx % |v.ring.used|] == VirtQueue.UsedElem(head, EVENT_LEN)
            && (forall x :: 0 <= x < |v.ram| && !(at <= x < at + EVENT_LEN) ==> v'.ram[x] == v.ram[x])
  {
    var at := desc[VirtQueue.NextHead(v.ring)].addr as int - base;
    assert Whole(desc[VirtQueue.NextHead(v.ring)], base, |v.ram|);
    hide Encode, DecodeAt;
    DecodesEncoded(FlushOne(desc, base, v).ram, at, v.log.pending[0]);
  }

  /**
     Which buffers are filled: those that are mapped, that the device may write, and that have eight bytes
     at least; any other is passed over, and the event keeps waiting.
   */
  lemma BufferIsUsed(desc: seq<Desc>, base: nat, v: Device)
    requires DescOk(desc, base, |v.ram|, v.ring) && v.log.pending != []
    ensures var head := v.ring.avail[v.ring.lastAvail % |v.ring.avail|];
            var d, v' := desc[head], FlushOne(desc, base, v);
            && v'.ring.lastAvail == (v.ring.lastAvail + 1) % 0x1_0000
            && (if base <= d.addr < base + |v.ram| && d.flags / 2 % 2 == 1 && d.len >= 8 then
                  && v'.log.delivered == v.log.delivered + [v.log.pending[0]] && v'.log.pending == v.log.pending[1..]
                  && v'.ring.usedIdx == (v.ring.usedIdx + 1) % 0x1_0000
                else v'.ram == v.ram && v'.log == v.log && v'.ring.usedIdx == v.ring.usedIdx && v'.ring.used == v.ring.used)
  {
    hide Encode;
  }

  /** The bytes of an event: type and code in two bytes, the value in four. */
  lemma EventBytes(s: seq<byte>, at: nat, e: Event)
    requires at + 8 <= |s| && s[at..at + 8] == Encode(e)
    ensures ReadLe16(s, at) == e.kind && ReadLe16(s, at + 2) == e.code && ReadLe32(s, at + 4) == e.value
  {
    DecodesEncoded(s, at, e);
  }

  function Delivers(n: nat): seq<Step>
  {
    if n == 0 then [] else [Deliver] + Delivers(n - 1)
  }

  /** `n` of the events waiting were delivered, oldest first, and as many used entries written. */
  ghost predicate Flushed(v: Device, v': Device, n: nat)
  {
    && n <= |v.log.pending| && v'.log == Run(v.log, Delivers(n))
    && v'.log.delivered == v.log.delivered + v.log.pending[..n] && v'.log.pending == v.log.pending[n..]
    && v'.ring.usedIdx == VirtQueue.Wrap(v.ring.usedIdx as int + n) && v'.ring.availIdx == v.ring.availIdx
  }

  lemma FlushedMore(v: Device, u: Device, v': Device, m: nat)
    requires v.log.pending != [] && u.log == Apply(v.log, Deliver)
    requires u.ring.usedIdx == VirtQueue.Inc(v.ring.usedIdx) && u.ring.availIdx == v.ring.availIdx
    requires Flushed(u, v', m)
    ensures Flushed(v, v', m + 1)
  {
    var n, rest := m + 1, v.log.pending[1..];
    assert Delivers(n)[0] == Deliver && Delivers(n)[1..] == Delivers(m);
    assert u.log.delivered == v.log.delivered + [v.log.pending[0]] && u.log.pending == rest;
    WrapOnce(v.ring.usedIdx, m);
    assert v.log.pending[..n] == [v.log.pending[0]] + rest[..m] && v.log.pending[n..] == rest[m..];
    hide VirtQueue.Wrap, VirtQueue.Inc, Apply, Delivers;
  }

  /**
     A flush delivers the oldest events in order, as many as `used.idx` moves; it stops only when no
     event waits or no buffer is left.
   */
  lemma {:induction false} FlushDelivers(desc: seq<Desc>, base: nat, v: Device) returns (n: nat)
    requires DescOk(desc, base, |v.ram|, v.ring)
    ensures var v' := FlushAll(desc, base, v);
            Flushed(v, v', n) && (v'.log.pending == [] || !VirtQueue.HasNext(v'.ring))
    decreases VirtQueue.Distance(v.ring.lastAvail, v.ring.availIdx)
  {
    if v.log.pending == [] || !VirtQueue.HasNext(v.ring) {
      n := 0;
    } else {
      var u := FlushOne(desc, base, v);
      assert u.log == if Usable(desc[VirtQueue.NextHead(v.ring)], base, |v.ram|) then Apply(v.log, Deliver) else v.log;
      assert u.ring.usedIdx == if Usable(desc[VirtQueue.NextHead(v.ring)], base, |v.ram|) then VirtQueue.Inc(v.ring.usedIdx)
                               else v.ring.usedIdx;
      assert FlushAll(desc, base, v) == FlushAll(desc, base, u);
      DistanceDrops(v.ring.lastAvail, v.ring.availIdx);
      var usable := Usable(desc[VirtQueue.NextHead(v.ring)], base, |v.ram|);
      hide FlushOne, FlushAll, DescOk, Usable, VirtQueue.HasNext, VirtQueue.NextHead, VirtQueue.Wrap, Run, Apply;
      n := FlushDelivers(desc, base, u);
      if usable {
        FlushedMore(v, u, FlushAll(desc, base, u), n);
        n := n + 1;
      }
    }
  }

  lemma WrapOnce(i: u16, n: nat)
    ensures VirtQueue.Wrap(VirtQueue.Inc(i) as int + n) == VirtQueue.Wrap(i as int + (n + 1))
  {
  }

  // ── A flush is the device's side of a run, and its events reach the driver ─

  /** What a flush does with the chains it takes, as steps of the ring. */
  function FlushSteps(desc: seq<Desc>, base: nat, v: Device): (steps: seq<VirtQueue.Step>)
    requires DescOk(desc, base, |v.ram|, v.ring)
    decreases VirtQueue.Distance(v.ring.lastAvail, v.ring.availIdx)
  {
    if v.log.pending == [] || !VirtQueue.HasNext(v.ring) then []
    else
      DistanceDrops(v.ring.lastAvail, v.ring.availIdx);
      BufferSteps(Usable(desc[VirtQueue.NextHead(v.ring)], base, |v.ram|)) + FlushSteps(desc, base, FlushOne(desc, base, v))
  }

  function BufferSteps(usable: bool): seq<VirtQueue.Step>
  {
    [VirtQueue.DeviceFetch, if usable then VirtQueue.DeviceReturn(EVENT_LEN) else VirtQueue.DeviceSkip, VirtQueue.DeviceAdvance]
  }

  /** One buffer in the ring system: served, and either returned or passed over. */
  ghost predicate TookOne(s: VirtQueue.System, e: VirtQueue.System, usable: bool)
    requires VirtQueue.Sized(s.ring)
  {
    var head := VirtQueue.NextHead(s.ring);
    && e.phase == VirtQueue.Idle && e.served == s.served + [head]
    && e.completed == (if usable then s.completed + [VirtQueue.UsedElem(head, EVENT_LEN)] else s.completed)
  }

  lemma FlushOneIsRun(desc: seq<Desc>, base: nat, v: Device, s: VirtQueue.System)
    requires DescOk(desc, base, |v.ram|, v.ring) && v.log.pending != [] && VirtQueue.HasNext(v.ring)
    requires s.ring == v.ring && s.phase == VirtQueue.Idle
    ensures var usable := Usable(desc[VirtQueue.NextHead(v.ring)], base, |v.ram|);
            var e := VirtQueue.Run(s, BufferSteps(usable));
            e.ring == FlushOne(desc, base, v).ring && TookOne(s, e, usable)
  {
    var head := VirtQueue.NextHead(v.ring);
    var usable := Usable(desc[head], base, |v.ram|);
    assert FlushOne(desc, base, v).ring == if usable then VirtQueue.ServeLast(v.ring, EVENT_LEN) else VirtQueue.Advance(v.ring);
    hide VirtQueue.Run, VirtQueue.ServeLast, FlushOne, Usable;
    if usable {
      VirtQueue.ServeStep(s, EVENT_LEN);
    } else {
      VirtQueue.SkipStep(s);
    }
  }

  /** A whole flush is a run of the ring system, which serves the oldest chains and returns one for each event. */
  lemma {:induction false} FlushIsRun(desc: seq<Desc>, base: nat, v: Device, s: VirtQueue.System)
    requires DescOk(desc, base, |v.ram|, v.ring) && s.ring == v.ring && s.phase == VirtQueue.Idle
    ensures var e, v' := VirtQueue.Run(s, FlushSteps(desc, base, v)), FlushAll(desc, base, v);
            && e.ring == v'.ring && e.phase == VirtQueue.Idle
            && s.completed <= e.completed
            && |e.completed| - |s.completed| == |v.log.pending| - |v'.log.pending|
    decreases VirtQueue.Distance(v.ring.lastAvail, v.ring.availIdx)
  {
    if v.log.pending != [] && VirtQueue.HasNext(v.ring) {
      var u, usable := FlushOne(desc, base, v), Usable(desc[VirtQueue.NextHead(v.ring)], base, |v.ram|);
      var e := VirtQueue.Run(s, BufferSteps(usable));
      DistanceDrops(v.ring.lastAvail, v.ring.availIdx);
      FlushOneIsRun(desc, base, v, s);
      assert |u.log.pending| == |v.log.pending| - (if usable then 1 else 0);
      assert FlushAll(desc, base, v) == FlushAll(desc, base, u);
      FlushSplits(desc, base, v, s);
      hide FlushOne, FlushAll, FlushSteps, DescOk, Usable, VirtQueue.Run, VirtQueue.NextHead, VirtQueue.HasNext, BufferSteps;
      FlushIsRun(desc, base, u, e);
    }
  }

  /** Byte `x` of RAM lies in the event buffer of the chain at `head`. */
  predicate Touches(d: Desc, base: nat, size: nat, x: nat)
  {
    Usable(d, base, size) && 0 <= x - (d.addr as int - base) < EVENT_LEN
  }

  /** No byte lies in the event buffers of two of the chains waiting. */
  ghost predicate Apart(desc: seq<Desc>, base: nat, size: nat, r: VirtQueue.Ring)
    requires DescOk(desc, base, size, r)
  {
    forall i: nat, j: nat, x: nat :: i < j < VirtQueue.Pending(r) && Touches(desc[VirtQueue.PendingHead(r, i)], base, size, x) ==>
      !Touches(desc[VirtQueue.PendingHead(r, j)], base, size, x)
  }

  ghost predicate Untouched(desc: seq<Desc>, base: nat, size: nat, r: VirtQueue.Ring, x: nat)
    requires DescOk(desc, base, size, r)
  {
    forall i: nat :: i < VirtQueue.Pending(r) ==> !Touches(desc[VirtQueue.PendingHead(r, i)], base, size, x)
  }

  /** After one chain is taken, those waiting are the same without the first. */
  lemma PendingShifts(r: VirtQueue.Ring, r': VirtQueue.Ring)
    requires VirtQueue.Sized(r) && VirtQueue.Sized(r') && VirtQueue.HasNext(r)
    requires r'.avail == r.avail && r'.availIdx == r.availIdx && r'.lastAvail == VirtQueue.Inc(r.lastAvail)
    ensures VirtQueue.Pending(r') == VirtQueue.Pending(r) - 1 && VirtQueue.PendingHead(r, 0) == VirtQueue.NextHead(r)
    ensures forall i: nat :: VirtQueue.PendingHead(r', i) == VirtQueue.PendingHead(r, i + 1)
  {
    DistanceDrops(r.lastAvail, r.availIdx);
    forall i: nat ensures VirtQueue.PendingHead(r', i) == VirtQueue.PendingHead(r, i + 1) {
      WrapOnce(r.lastAvail, i);
    }
  }

  /** What the steps of a flush need to know about the first of them. */
  lemma FlushOneShifts(desc: seq<Desc>, base: nat, v: Device)
    requires DescOk(desc, base, |v.ram|, v.ring) && v.log.pending != [] && VirtQueue.HasNext(v.ring)
    ensures var u, d := FlushOne(desc, base, v), desc[VirtQueue.NextHead(v.ring)];
            && FlushAll(desc, base, v) == FlushAll(desc, base, u)
            && VirtQueue.Pending(u.ring) == VirtQueue.Pending(v.ring) - 1
            && VirtQueue.PendingHead(v.ring, 0) == VirtQueue.NextHead(v.ring)
            && (forall i: nat :: VirtQueue.PendingHead(u.ring, i) == VirtQueue.PendingHead(v.ring, i + 1))
            && u.log.pending == (if Usable(d, base, |v.ram|) then v.log.pending[1..] else v.log.pending)
            && (forall x: nat :: x < |v.ram| && !Touches(d, base, |v.ram|, x) ==> u.ram[x] == v.ram[x])
  {
    assert Whole(desc[VirtQueue.NextHead(v.ring)], base, |v.ram|);
    hide VirtQueue.Pending, VirtQueue.PendingHead, Encode;
    PendingShifts(v.ring, FlushOne(desc, base, v).ring);
  }

  /** A flush changes no byte outside the buffers waiting. */
  lemma {:induction false} FlushFrame(desc: seq<Desc>, base: nat, v: Device, x: nat)
    requires DescOk(desc, base, |v.ram|, v.ring) && x < |v.ram| && Untouched(desc, base, |v.ram|, v.ring, x)
    ensures FlushAll(desc, base, v).ram[x] == v.ram[x]
    decreases VirtQueue.Pending(v.ring)
  {
    if v.log.pending != [] && VirtQueue.HasNext(v.ring) {
      FlushOneShifts(desc, base, v);
      assert !Touches(desc[VirtQueue.PendingHead(v.ring, 0)], base, |v.ram|, x);
      hide FlushOne, FlushAll, DescOk, Touches, Usable, VirtQueue.Pending, VirtQueue.PendingHead, VirtQueue.NextHead, VirtQueue.HasNext;
      FlushFrame(desc, base, FlushOne(desc, base, v), x);
    }
  }

  lemma SameWindow(s: seq<byte>, s': seq<byte>, at: nat)
    requires at + EVENT_LEN <= |s| == |s'| && forall x: nat :: at <= x < at + EVENT_LEN ==> s'[x] == s[x]
    ensures DecodeAt(s', at) == DecodeAt(s, at)
  {
  }

  /** The used entry points the driver to event `ev`. */
  predicate Shows(desc: seq<Desc>, base: nat, ram: seq<byte>, used: VirtQueue.UsedElem, ev: Event)
  {
    && used.len == EVENT_LEN && used.id < |desc|
    && var at := desc[used.id].addr as int - base;
       0 <= at && at + EVENT_LEN <= |ram| && DecodeAt(ram, at) == ev
  }

  /** What the first buffer taken holds stays there. */
  lemma FirstBufferStays(desc: seq<Desc>, base: nat, v: Device, x: nat)
    requires DescOk(desc, base, |v.ram|, v.ring) && v.log.pending != [] && VirtQueue.HasNext(v.ring)
    requires Apart(desc, base, |v.ram|, v.ring) && x < |v.ram| && Touches(desc[VirtQueue.NextHead(v.ring)], base, |v.ram|, x)
    ensures FlushAll(desc, base, v).ram[x] == FlushOne(desc, base, v).ram[x]
  {
    FlushOneShifts(desc, base, v);
    hide FlushOne, FlushAll, DescOk, Touches, VirtQueue.Pending, VirtQueue.PendingHead, VirtQueue.NextHead, VirtQueue.HasNext;
    FlushFrame(desc, base, FlushOne(desc, base, v), x);
  }

  /** The first event of a flush is still in its buffer when the flush ends. */
  lemma FirstEventStays(desc: seq<Desc>, base: nat, v: Device)
    requires DescOk(desc, base, |v.ram|, v.ring) && v.log.pending != [] && VirtQueue.HasNext(v.ring)
    requires Usable(desc[VirtQueue.NextHead(v.ring)], base, |v.ram|) && Apart(desc, base, |v.ram|, v.ring)
    ensures Shows(desc, base, FlushAll(desc, base, v).ram, VirtQueue.UsedElem(VirtQueue.NextHead(v.ring), EVENT_LEN), v.log.pending[0])
  {
    var head := VirtQueue.NextHead(v.ring);
    var u, at := FlushOne(desc, base, v), desc[head].addr as int - base;
    BufferHoldsEvent(desc, base, v);
    hide FlushOne, FlushAll, DecodeAt, Apart, VirtQueue.NextHead, VirtQueue.HasNext;
    forall x: nat | at <= x < at + EVENT_LEN ensures FlushAll(desc, base, v).ram[x] == u.ram[x] {
      FirstBufferStays(desc, base, v, x);
    }
    hide DescOk, Usable;
    SameWindow(u.ram, FlushAll(desc, base, v).ram, at);
  }

  lemma ApartShifts(desc: seq<Desc>, base: nat, v: Device)
    requires DescOk(desc, base, |v.ram|, v.ring) && v.log.pending != [] && VirtQueue.HasNext(v.ring)
    requires Apart(desc, base, |v.ram|, v.ring)
    ensures var u := FlushOne(desc, base, v); Apart(desc, base, |u.ram|, u.ring)
  {
    FlushOneShifts(desc, base, v);
    hide FlushOne, FlushAll, DescOk, Touches, Usable, VirtQueue.Pending, VirtQueue.PendingHead, VirtQueue.NextHead, VirtQueue.HasNext;
  }

  /** The i-th used entry after those of `before` points the driver to the i-th event. */
  predicate Reaches(desc: seq<Desc>, base: nat, ram: seq<byte>, before: nat, used: seq<VirtQueue.UsedElem>, events: seq<Event>, i: nat)
  {
    i < |events| && before + i < |used| && Shows(desc, base, ram, used[before + i], events[i])
  }

  /**
     If the buffers waiting do not overlap: when a flush has ended, the i-th used entry it added names
     a buffer from which the driver decodes exactly the i-th event delivered.
   */
  lemma {:induction false} EventsReachDriver(desc: seq<Desc>, base: nat, v: Device, s: VirtQueue.System, i: nat)
    requires DescOk(desc, base, |v.ram|, v.ring) && Apart(desc, base, |v.ram|, v.ring)
    requires s.ring == v.ring && s.phase == VirtQueue.Idle
    requires i < |v.log.pending| - |FlushAll(desc, base, v).log.pending|
    ensures var e, v' := VirtQueue.Run(s, FlushSteps(desc, base, v)), FlushAll(desc, base, v);
            Reaches(desc, base, v'.ram, |s.completed|, e.completed, v.log.pending, i)
    decreases VirtQueue.Pending(v.ring)
  {
    var u, usable := FlushOne(desc, base, v), Usable(desc[VirtQueue.NextHead(v.ring)], base, |v.ram|);
    var m := VirtQueue.Run(s, BufferSteps(usable));
    FlushOneIsRun(desc, base, v, s);
    FlushOneShifts(desc, base, v);
    if usable && i == 0 {
      FirstReaches(desc, base, v, s);
    } else {
      ApartShifts(desc, base, v);
      FlushSplits(desc, base, v, s);
      hide FlushOne, FlushAll, FlushSteps, DescOk, Usable, Reaches, Apart, VirtQueue.Run, VirtQueue.NextHead, VirtQueue.Pending, BufferSteps;
      EventsReachDriver(desc, base, u, m, if usable then i - 1 else i);
      var e, ram := VirtQueue.Run(m, FlushSteps(desc, base, u)), FlushAll(desc, base, u).ram;
      if usable {
        ReachesLater(desc, base, ram, |s.completed|, e.completed, v.log.pending, i);
      }
    }
  }

  lemma ReachesLater(desc: seq<Desc>, base: nat, ram: seq<byte>, before: nat, used: seq<VirtQueue.UsedElem>, events: seq<Event>, i: nat)
    requires 0 < i && events != [] && Reaches(desc, base, ram, before + 1, used, events[1..], i - 1)
    ensures Reaches(desc, base, ram, before, used, events, i)
  {
    hide Shows;
  }

  lemma FirstReaches(desc: seq<Desc>, base: nat, v: Device, s: VirtQueue.System)
    requires DescOk(desc, base, |v.ram|, v.ring) && v.log.pending != [] && VirtQueue.HasNext(v.ring)
    requires Usable(desc[VirtQueue.NextHead(v.ring)], base, |v.ram|) && Apart(desc, base, |v.ram|, v.ring)
    requires s.ring == v.ring && s.phase == VirtQueue.Idle
    ensures Reaches(desc, base, FlushAll(desc, base, v).ram, |s.completed|, VirtQueue.Run(s, FlushSteps(desc, base, v)).completed, v.log.pending, 0)
  {
    var u, m := FlushOne(desc, base, v), VirtQueue.Run(s, BufferSteps(true));
    FlushOneIsRun(desc, base, v, s);
    FirstEventStays(desc, base, v);
    FlushSplits(desc, base, v, s);
    hide FlushOne, FlushAll, FlushSteps, DescOk, Usable, Shows, Apart, VirtQueue.Run, VirtQueue.NextHead, VirtQueue.Pending, BufferSteps;
    FlushIsRun(desc, base, u, m);
  }

  lemma FlushSplits(desc: seq<Desc>, base: nat, v: Device, s: VirtQueue.System)
    requires DescOk(desc, base, |v.ram|, v.ring) && v.log.pending != [] && VirtQueue.HasNext(v.ring)
    requires VirtQueue.Sized(s.ring)
    ensures var u, steps := FlushOne(desc, base, v), BufferSteps(Usable(desc[VirtQueue.NextHead(v.ring)], base, |v.ram|));
            VirtQueue.Run(s, FlushSteps(desc, base, v)) == VirtQueue.Run(VirtQueue.Run(s, steps), FlushSteps(desc, base, u))
  {
    var u, steps := FlushOne(desc, base, v), BufferSteps(Usable(desc[VirtQueue.NextHead(v.ring)], base, |v.ram|));
    assert FlushSteps(desc, base, v) == steps + FlushSteps(desc, base, u);
    hide *;
    VirtQueue.RunConcat(s, steps, FlushSteps(desc, base, u));
  }

  // ── The device ────────────────────────────────────────────────────────────

  /** What a send does: the events are pushed, then the queue flushed if the driver has set it up. */
  function Settle(desc: seq<Desc>, base: nat, ready: bool, v: Device): Device
    requires ready ==> DescOk(desc, base, |v.ram|, v.ring)
  {
    if ready then FlushAll(desc, base, v) else v
  }

  function NoLens(n: nat): (lens: seq<u32>)
    ensures |lens| == n
  {
    if n == 0 then [] else NoLens(n - 1) + [0]
  }

  lemma {:induction false} NoLensAre(n: nat, i: nat)
    requires i < n
    ensures NoLens(n)[i] == 0
  {
    if i < n - 1 {
      NoLensAre(n - 1, i);
    }
  }

  class Input {
    const q: VirtQueue.Queue
    const statusq: VirtQueue.Queue
    const desc: seq<Desc>
    const base: nat
    const ram: array<byte>
    var ready: bool
    var statusReady: bool
    var irq: bool
    var pending: seq<Event>
    ghost var log: Log

    ghost predicate Valid()
      reads this
    {
      log.pending == pending
    }

    ghost function Now(): Device
      reads this, q, q.avail, q.used, ram
    {
      Device(q.View(), ram[..], log)
    }

    constructor (q: VirtQueue.Queue, statusq: VirtQueue.Queue, desc: seq<Desc>, base: nat, ram: array<byte>)
      ensures this.q == q && this.statusq == statusq && this.desc == desc && this.base == base && this.ram == ram
      ensures Valid() && log == Empty() && !ready && !statusReady && !irq
    {
      this.q, this.statusq, this.desc, this.base, this.ram := q, statusq, desc, base, ram;
      ready, statusReady, irq, pending := false, false, false, [];
      log := Empty();
    }

    /** Queues an event; when too many wait, the oldest goes. */
    method PushEvent(kind: u16, code: u16, value: u32)
      requires Valid()
      modifies `pending, `log
      ensures Valid() && log == Apply(old(log), Push(Event(kind, code, value)))
    {
      pending := pending + [Event(kind, code, value)];
      if |pending| > QUEUE_SIZE * 2 {
        pending := pending[1..];
      }
      log := Apply(log, Push(Event(kind, code, value)));
    }

    /** One buffer of the flush. */
    method FillBuffer() returns (used: bool)
      requires Valid() && pending != [] && DescOk(desc, base, ram.Length, q.View())
      modifies q`usedIdx, q`lastAvail, q.used, ram, `pending, `log
      ensures Valid() && Now() == FlushOne(desc, base, old(Now()))
      ensures used == (log != old(log)) && (used ==> log.delivered != old(log.delivered))
    {
      var head := q.Head();
      var d := desc[head];
      used := Maps(base, ram.Length, d.addr) && DeviceWrites(d) && d.len >= EVENT_LEN;
      assert Whole(d, base, ram.Length);
      hide Encode, VirtQueue.NextHead, DescOk, Whole;
      if used {
        var e := pending[0];
        pending := pending[1..];
        log := Apply(log, Deliver);
        Put(ram, d.addr - base, Encode(e));
        VirtQueue.ReturnServes(q.View(), EVENT_LEN);
        q.Return(head, EVENT_LEN);
      } else {
        q.Pass();
      }
    }

    /** The loop of the flush. */
    method FlushEvents()
      requires Valid() && (ready ==> DescOk(desc, base, ram.Length, q.View()))
      modifies q`usedIdx, q`lastAvail, q.used, ram, `pending, `log, `irq
      ensures Valid() && Now() == Settle(desc, base, ready, old(Now()))
      ensures irq == (old(irq) || log.delivered != old(log.delivered))
    {
      if !ready {
        return;
      }
      ghost var was := Now();
      var injected := false;
      while pending != [] && q.lastAvail != q.availIdx
        invariant Valid() && DescOk(desc, base, ram.Length, q.View()) && irq == old(irq) && ready
        invariant FlushAll(desc, base, Now()) == FlushAll(desc, base, was)
        invariant injected == (log.delivered != old(log.delivered)) && |log.delivered| >= |old(log.delivered)|
        invariant injected ==> |log.delivered| > |old(log.delivered)|
        decreases VirtQueue.Distance(q.lastAvail, q.availIdx)
      {
        DistanceDrops(q.lastAvail, q.availIdx);
        var used := FillBuffer();
        injected := injected || used;
      }
      if injected {
        irq := true;
      }
    }

    method SendKey(code: u16, pressed: bool)
      requires Valid() && (ready ==> DescOk(desc, base, ram.Length, q.View()))
      modifies q`usedIdx, q`lastAvail, q.used, ram, `pending, `log, `irq
      ensures Valid()
      ensures var l := Apply(Apply(old(log), Push(Event(1, code, if pressed then 1 else 0))), Push(Event(0, 0, 0)));
              Now() == Settle(desc, base, ready, old(Now()).(log := l))
    {
      PushEvent(EV_KEY, code, if pressed then 1 else 0);
      PushEvent(EV_SYN, SYN_REPORT, 0);
      hide Apply, FlushAll, DescOk;
      FlushEvents();
    }

    method SendPointer(x: u32, y: u32, left: bool, right: bool)
      requires Valid() && (ready ==> DescOk(desc, base, ram.Length, q.View()))
      modifies q`usedIdx, q`lastAvail, q.used, ram, `pending, `log, `irq
      ensures Valid()
      ensures Now() == Settle(desc, base, ready, old(Now()).(log := Run(old(log), PointerPushes(x, y, left, right))))
    {
      ghost var l := log;
      PushEvent(EV_ABS, ABS_X, x);
      PushEvent(EV_ABS, ABS_Y, y);
      PushEvent(EV_KEY, BTN_LEFT, if left then 1 else 0);
      PushEvent(EV_KEY, BTN_RIGHT, if right then 1 else 0);
      PushEvent(EV_SYN, SYN_REPORT, 0);
      hide Apply, FlushAll, DescOk;
      PointerRun(l, x, y, left, right);
      FlushEvents();
    }

    method ReturnEmpty(ghost r: VirtQueue.Ring, ghost n: nat)
      requires VirtQueue.Sized(r) && VirtQueue.Sized(statusq.View()) && statusq.View() == VirtQueue.Serve(r, NoLens(n))
      modifies statusq`usedIdx, statusq`lastAvail, statusq.used
      ensures VirtQueue.Sized(statusq.View()) && statusq.View() == VirtQueue.Serve(r, NoLens(n + 1))
    {
      hide VirtQueue.Serve, VirtQueue.NextHead, VirtQueue.ServeLast;
      VirtQueue.ServeOne(r, NoLens(n), 0);
      VirtQueue.ReturnServes(statusq.View(), 0);
      var head := statusq.Head();
      statusq.Return(head, 0);
    }

    /** Every status buffer is returned at once, with nothing written. */
    method ProcessStatusq()
      requires VirtQueue.Sized(statusq.View())
      modifies statusq`usedIdx, statusq`lastAvail, statusq.used, `irq
      ensures !statusReady ==> unchanged(statusq, statusq.used, this)
      ensures statusReady ==>
                && statusq.View() == VirtQueue.Serve(old(statusq.View()), NoLens(VirtQueue.Pending(old(statusq.View()))))
                && irq == (old(irq) || VirtQueue.Pending(old(statusq.View())) > 0)
    {
      if statusReady {
        var drained := DrainStatusq();
        if drained {
          irq := true;
        }
      }
    }

    /** The loop of process_statusq. */
    method DrainStatusq() returns (drained: bool)
      requires VirtQueue.Sized(statusq.View())
      modifies statusq`usedIdx, statusq`lastAvail, statusq.used
      ensures statusq.View() == VirtQueue.Serve(old(statusq.View()), NoLens(VirtQueue.Pending(old(statusq.View()))))
      ensures drained == (VirtQueue.Pending(old(statusq.View())) > 0)
    {
      ghost var r, n := statusq.View(), 0;
      drained := false;
      hide VirtQueue.Serve, VirtQueue.NextHead, VirtQueue.ServeLast, VirtQueue.Pending, NoLens;
      assert VirtQueue.Serve(r, NoLens(0)) == r by { ServeNone(r); }
      while statusq.lastAvail != statusq.availIdx
        invariant n <= VirtQueue.Pending(r) && drained == (n > 0)
        invariant VirtQueue.Sized(statusq.View()) && statusq.View() == VirtQueue.Serve(r, NoLens(n))
        decreases VirtQueue.Pending(r) - n
      {
        VirtQueue.NextInDrain(r, NoLens(n));
        ReturnEmpty(r, n);
        n := n + 1;
        drained := true;
      }
      VirtQueue.NextInDrain(r, NoLens(n));
    }

    /** Writing zero to the status register. */
    method ResetDevice()
      requires Valid() && q != statusq
      modifies q`lastAvail, statusq`lastAvail, `pending, `log, `ready, `statusReady, `irq
      ensures Valid() && log == Apply(old(log), Reset) && !ready && !statusReady && !irq
      ensures log == Log([], [], [], 0) && pending == []
      ensures q.lastAvail == statusq.lastAvail == 0
    {
      q.lastAvail, statusq.lastAvail := 0, 0;
      ready, statusReady, irq, pending := false, false, false, [];
      log := Empty();
    }
  }

  lemma ServeNone(r: VirtQueue.Ring)
    requires VirtQueue.Sized(r)
    ensures VirtQueue.Serve(r, NoLens(0)) == r
  {
  }

  /** A movement is five events: absolute position, two buttons, and the report that ends them. */
  lemma PointerEvents(x: u32, y: u32, left: bool, right: bool)
    ensures PointerPushes(x, y, left, right)
         == [Push(Event(3, 0, x)), Push(Event(3, 1, y)), Push(Event(1, 0x110, if left then 1 else 0)),
             Push(Event(1, 0x111, if right then 1 else 0)), Push(Event(0, 0, 0))]
  {
  }

  function PointerPushes(x: u32, y: u32, left: bool, right: bool): seq<Step>
  {
    [Push(Event(EV_ABS, ABS_X, x)), Push(Event(EV_ABS, ABS_Y, y)),
     Push(Event(EV_KEY, BTN_LEFT, if left then 1 else 0)), Push(Event(EV_KEY, BTN_RIGHT, if right then 1 else 0)),
     Push(Event(EV_SYN, SYN_REPORT, 0))]
  }

  lemma PointerRun(l: Log, x: u32, y: u32, left: bool, right: bool)
    ensures var s := PointerPushes(x, y, left, right);
            Run(l, s) == Apply(Apply(Apply(Apply(Apply(l, s[0]), s[1]), s[2]), s[3]), s[4])
  {
    hide Apply;
    var s := PointerPushes(x, y, left, right);
    RunOne(l, s);
    RunOne(Apply(l, s[0]), s[1..]);
    RunOne(Apply(Apply(l, s[0]), s[1]), s[2..]);
    RunOne(Apply(Apply(Apply(l, s[0]), s[1]), s[2]), s[3..]);
    RunOne(Apply(Apply(Apply(Apply(l, s[0]), s[1]), s[2]), s[3]), s[4..]);
    assert s[1..][1..] == s[2..] && s[2..][1..] == s[3..] && s[3..][1..] == s[4..] && s[4..][1..] == [];
  }

  lemma RunOne(l: Log, steps: seq<Step>)
    requires steps != []
    ensures Run(l, steps) == Run(Apply(l, steps[0]), steps[1..])
  {
  }
}
