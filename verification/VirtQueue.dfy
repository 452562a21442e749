/**
 The split virtqueue as the devices use it: 16-bit indices over rings of a fixed size. The ring is
 proved to be a FIFO between driver and device, however often the indices wrap.
 */
module VirtQueue {
  import opened Bytes

  datatype UsedElem = UsedElem(id: u16, len: u32)

  /** The two rings in guest memory, and the device's private position. */
  datatype Ring = Ring(avail: seq<u16>, availIdx: u16, used: seq<UsedElem>, usedIdx: u16, lastAvail: u16)

  /** Ring sizes of the devices: 256, and 64 for input. Both divide the range of the indices. */
  predicate IsSize(n: nat)
  {
    n == 256 || n == 64
  }

  predicate Sized(r: Ring)
  {
    IsSize(|r.avail|) && |r.used| == |r.avail|
  }

  function Inc(i: u16): u16
  {
    (i as int + 1) % U16_RANGE
  }

  // ── One side at a time ────────────────────────────────────────────────────

  /** The driver makes a chain available. */
  function Publish(r: Ring, head: u16): Ring
    requires Sized(r)
  {
    r.(avail := r.avail[r.availIdx % |r.avail| := head], availIdx := Inc(r.availIdx))
  }

  predicate HasNext(r: Ring)
  {
    r.lastAvail != r.availIdx
  }

  function NextHead(r: Ring): u16
    requires Sized(r)
  {
    r.avail[r.lastAvail % |r.avail|]
  }

  /** The device returns a chain. */
  function Complete(r: Ring, e: UsedElem): Ring
    requires Sized(r)
  {
    r.(used := r.used[r.usedIdx % |r.used| := e], usedIdx := Inc(r.usedIdx))
  }

  function Advance(r: Ring): Ring
  {
    r.(lastAvail := Inc(r.lastAvail))
  }

  // ── Driver and device, interleaved ────────────────────────────────────────

  /** Between reading a head and moving on, the device has it in hand, and then is done with it. */
  datatype Phase = Idle | InHand(head: u16) | Handled

  /**
     `published`, `served`, `completed` and `collected` record what passed; `kept` holds the positions
     among the chains served of those that were returned, and `skipped` counts the others. `lastUsed`
     is the driver's own position in the used ring.
   */
  datatype System = System(
    ring: Ring, phase: Phase, lastUsed: u16,
    published: seq<u16>, served: seq<u16>, completed: seq<UsedElem>, collected: seq<UsedElem>,
    kept: seq<nat>, skipped: nat)

  datatype Step =
    | DriverPublish(head: u16)
    | DeviceFetch
    | DeviceReturn(len: u32)
    | DeviceSkip
    | DeviceAdvance
    | DriverCollect

  /** After a reset: queues and positions are zeroed, whatever the rings still hold. */
  predicate IsReset(s: System)
  {
    && Sized(s.ring) && s.ring.availIdx == s.ring.usedIdx == s.ring.lastAvail == 0 && s.lastUsed == 0
    && s.phase == Idle && s.published == [] && s.served == [] && s.completed == [] && s.collected == []
    && s.kept == [] && s.skipped == 0
  }

  /** A driver has at most as many chains outstanding as the ring has slots. */
  predicate MayPublish(s: System)
  {
    |s.published| - |s.collected| < |s.ring.avail|
  }

  function Apply(s: System, step: Step): (s': System)
    requires Sized(s.ring)
    ensures Sized(s'.ring)
  {
    match step
    case DriverPublish(head) =>
      if !MayPublish(s) then s
      else s.(ring := Publish(s.ring, head), published := s.published + [head])
    case DeviceFetch =>
      if s.phase != Idle || !HasNext(s.ring) then s
      else s.(phase := InHand(NextHead(s.ring)), served := s.served + [NextHead(s.ring)])
    case DeviceReturn(len) =>
      if !s.phase.InHand? then s
      else
        var e := UsedElem(s.phase.head, len);
        s.(ring := Complete(s.ring, e), completed := s.completed + [e], kept := s.kept + [|s.completed| + s.skipped], phase := Handled)
    case DeviceSkip =>
      if !s.phase.InHand? then s else s.(skipped := s.skipped + 1, phase := Handled)
    case DeviceAdvance =>
      if s.phase != Handled then s else s.(ring := Advance(s.ring), phase := Idle)
    case DriverCollect =>
      if s.lastUsed == s.ring.usedIdx then s
      else s.(collected := s.collected + [s.ring.used[s.lastUsed % |s.ring.used|]], lastUsed := Inc(s.lastUsed))
  }

  function Run(s: System, steps: seq<Step>): (s': System)
    requires Sized(s.ring)
    ensures Sized(s'.ring)
    decreases steps
  {
    if steps == [] then s else Run(Apply(s, steps[0]), steps[1..])
  }

  // ── The invariant ─────────────────────────────────────────────────────────

  /** The heads published from position `from` on are still in their slots. */
  ghost predicate AvailHolds(r: Ring, published: seq<u16>, from: nat)
    requires Sized(r)
  {
    forall i :: from <= i < |published| ==> r.avail[i % |r.avail|] == published[i]
  }

  ghost predicate UsedHolds(r: Ring, completed: seq<UsedElem>, from: nat)
    requires Sized(r)
  {
    forall i :: from <= i < |completed| ==> r.used[i % |r.used|] == completed[i]
  }

  /** Chains fetched but not yet passed over by the device's position. */
  function Held(p: Phase): nat
  {
    if p == Idle then 0 else 1
  }

  ghost predicate Invariant(s: System)
  {
    && Sized(s.ring)
    && |s.collected| <= |s.completed| && |s.served| <= |s.published|
    && |s.published| - |s.collected| <= |s.ring.avail|
    && |s.served| == |s.completed| + s.skipped + (if s.phase.InHand? then 1 else 0) && |s.served| >= Held(s.phase)
    && s.ring.availIdx == |s.published| % U16_RANGE
    && s.ring.lastAvail == (|s.served| - Held(s.phase)) % U16_RANGE
    && s.ring.usedIdx == |s.completed| % U16_RANGE
    && s.lastUsed == |s.collected| % U16_RANGE
    && AvailHolds(s.ring, s.published, |s.served|)
    && UsedHolds(s.ring, s.completed, |s.collected|)
    && s.served <= s.published
    && (s.phase.InHand? ==> s.phase.head == s.served[|s.served| - 1])
    && s.collected <= s.completed
    && Names(s)
  }

  /** The used entries name the chains at the positions kept, in order; without skips these are all. */
  ghost predicate Names(s: System)
  {
    && |s.kept| == |s.completed|
    && (forall i :: 0 <= i < |s.kept| ==> s.kept[i] < |s.served| - (if s.phase.InHand? then 1 else 0))
    && (forall i :: 0 <= i < |s.kept| ==> s.completed[i].id == s.served[s.kept[i]])
    && (forall i :: 0 <= i < |s.kept| ==> i <= s.kept[i] <= i + s.skipped)
    && (forall i, j :: 0 <= i < j < |s.kept| ==> s.kept[i] < s.kept[j])
  }

  // ── Wrapping arithmetic ───────────────────────────────────────────────────

  /** A slot is the same whether computed from a wrapped index or from the count it stands for. */
  lemma SlotOf(n: nat, size: nat)
    requires IsSize(size)
    ensures n % U16_RANGE % size == n % size
  {
    var q, k := n / U16_RANGE, n % U16_RANGE;
    assert n == U16_RANGE * q + k;
    if size == 256 {
      assert n == 256 * (256 * q) + k;
      ModShift256(256 * q, k);
    } else {
      assert n == 64 * (1024 * q) + k;
      ModShift64(1024 * q, k);
    }
  }

  lemma ModShift256(a: nat, k: nat)
    ensures (256 * a + k) % 256 == k % 256
  {
  }

  lemma ModShift64(a: nat, k: nat)
    ensures (64 * a + k) % 64 == k % 64
  {
  }

  lemma IncOf(n: nat)
    ensures Inc(n % U16_RANGE) == (n + 1) % U16_RANGE
  {
  }

  /** Positions less than a ring apart share no slot. */
  lemma SlotsDiffer(i: nat, j: nat, size: nat)
    requires IsSize(size) && i < j < i + size
    ensures i % size != j % size
  {
  }

  /** Counts at most a ring apart are equal exactly if their wrapped indices are. */
  lemma SameIndex(m: nat, n: nat)
    requires m <= n < m + U16_RANGE
    ensures m % U16_RANGE == n % U16_RANGE <==> m == n
  {
  }

  lemma AvailAfterPublish(r: Ring, published: seq<u16>, from: nat, head: u16)
    requires Sized(r) && AvailHolds(r, published, from) && r.availIdx == |published| % U16_RANGE
    requires |published| < from + |r.avail|
    ensures AvailHolds(Publish(r, head), published + [head], from)
  {
    var r', n := Publish(r, head), |r.avail|;
    SlotOf(|published|, n);
    forall i | from <= i < |published| + 1 ensures r'.avail[i % n] == (published + [head])[i] {
      if i < |published| {
        SlotsDiffer(i, |published|, n);
      }
    }
  }

  lemma UsedAfterComplete(r: Ring, completed: seq<UsedElem>, from: nat, e: UsedElem)
    requires Sized(r) && UsedHolds(r, completed, from) && r.usedIdx == |completed| % U16_RANGE
    requires |completed| < from + |r.used|
    ensures UsedHolds(Complete(r, e), completed + [e], from)
  {
    var r', n := Complete(r, e), |r.used|;
    SlotOf(|completed|, n);
    forall i | from <= i < |completed| + 1 ensures r'.used[i % n] == (completed + [e])[i] {
      if i < |completed| {
        SlotsDiffer(i, |completed|, n);
      }
    }
  }

  /** There is a next head exactly if a published chain has not been served, and it is the oldest such. */
  lemma NextIsOldest(r: Ring, published: seq<u16>, served: nat)
    requires Sized(r) && served <= |published| <= served + |r.avail| && AvailHolds(r, published, served)
    requires r.availIdx == |published| % U16_RANGE && r.lastAvail == served % U16_RANGE
    ensures HasNext(r) <==> served < |published|
    ensures HasNext(r) ==> NextHead(r) == published[served]
  {
    SameIndex(served, |published|);
    SlotOf(served, |r.avail|);
  }

  // ── Every step keeps it ───────────────────────────────────────────────────

  lemma PublishKeeps(s: System, head: u16)
    requires Invariant(s)
    ensures Invariant(Apply(s, DriverPublish(head)))
  {
    if MayPublish(s) {
      AvailAfterPublish(s.ring, s.published, |s.served|, head);
      IncOf(|s.published|);
      hide AvailHolds;
    }
  }

  lemma FetchKeeps(s: System)
    requires Invariant(s)
    ensures Invariant(Apply(s, DeviceFetch))
  {
    if s.phase == Idle {
      NextIsOldest(s.ring, s.published, |s.served|);
      if HasNext(s.ring) {
        assert AvailHolds(s.ring, s.published, |s.served| + 1);
        hide AvailHolds, UsedHolds;
        assert s.served + [s.published[|s.served|]] <= s.published;
      }
    }
  }

  lemma ReturnKeeps(s: System, len: u32)
    requires Invariant(s)
    ensures Invariant(Apply(s, DeviceReturn(len)))
  {
    if s.phase.InHand? {
      UsedAfterComplete(s.ring, s.completed, |s.collected|, UsedElem(s.phase.head, len));
      IncOf(|s.completed|);
      assert AvailHolds(Complete(s.ring, UsedElem(s.phase.head, len)), s.published, |s.served|);
      hide AvailHolds, UsedHolds;
    }
  }

  lemma SkipKeeps(s: System)
    requires Invariant(s)
    ensures Invariant(Apply(s, DeviceSkip))
  {
    hide AvailHolds, UsedHolds;
  }

  lemma AdvanceKeeps(s: System)
    requires Invariant(s)
    ensures Invariant(Apply(s, DeviceAdvance))
  {
    if s.phase == Handled {
      IncOf(|s.served| - 1);
    }
  }

  lemma CollectKeeps(s: System)
    requires Invariant(s)
    ensures Invariant(Apply(s, DriverCollect))
  {
    SameIndex(|s.collected|, |s.completed|);
    if s.lastUsed != s.ring.usedIdx {
      SlotOf(|s.collected|, |s.ring.used|);
      IncOf(|s.collected|);
      assert s.collected + [s.completed[|s.collected|]] <= s.completed;
    }
  }

  lemma {:induction false} RunKeeps(s: System, steps: seq<Step>)
    requires Invariant(s)
    ensures Invariant(Run(s, steps))
    decreases steps
  {
    if steps != [] {
      match steps[0] {
        case DriverPublish(head) => PublishKeeps(s, head);
        case DeviceFetch => FetchKeeps(s);
        case DeviceReturn(len) => ReturnKeeps(s, len);
        case DeviceSkip => SkipKeeps(s);
        case DeviceAdvance => AdvanceKeeps(s);
        case DriverCollect => CollectKeeps(s);
      }
      hide Invariant, Apply;
      RunKeeps(Apply(s, steps[0]), steps[1..]);
    }
  }

  // ── What it gives ─────────────────────────────────────────────────────────

  /** Steps that can be taken are taken: the driver publishes, the device finds, the driver collects. */
  lemma StepsHappen(s: System, head: u16)
    requires Invariant(s)
    ensures |s.published| < |s.collected| + |s.ring.avail| ==> Apply(s, DriverPublish(head)).published == s.published + [head]
    ensures s.phase == Idle && |s.served| < |s.published| ==>
              Apply(s, DeviceFetch).phase == InHand(s.published[|s.served|])
              && Apply(s, DeviceFetch).served == s.served + [s.published[|s.served|]]
    ensures |s.collected| < |s.completed| ==>
              Apply(s, DriverCollect).collected == s.collected + [s.completed[|s.collected|]]
  {
    if s.phase == Idle {
      NextIsOldest(s.ring, s.published, |s.served|);
    }
    if |s.collected| < |s.completed| {
      SameIndex(|s.collected|, |s.completed|);
      SlotOf(|s.collected|, |s.ring.used|);
    }
  }

  /**
     However long the run and however often the indices wrap: the n-th chain the device serves is the
     n-th one published, and the n-th used entry the driver collects names the n-th of those that were
     returned; each exactly once and in order. Between chains the device's position is ahead of
     `used.idx` by the number of chains passed over, so where none is, they are equal and the n-th
     used entry names the n-th chain published.
   */
  lemma RingIsFifo(s: System, steps: seq<Step>)
    requires IsReset(s)
    ensures var e := Run(s, steps);
            && e.served <= e.published
            && |e.collected| <= |e.kept| && |e.kept| + e.skipped <= |e.served| <= |e.kept| + e.skipped + 1
            && (forall i :: 0 <= i < |e.kept| ==> e.kept[i] < |e.served|)
            && (forall i, j :: 0 <= i < j < |e.kept| ==> e.kept[i] < e.kept[j])
            && (forall i :: 0 <= i < |e.collected| ==> e.collected[i].id == e.published[e.kept[i]])
            && (e.phase == Idle ==> e.ring.lastAvail == Wrap(e.ring.usedIdx as int + e.skipped))
            && (e.skipped == 0 ==> forall i :: 0 <= i < |e.collected| ==> e.collected[i].id == e.published[i])
            && (e.skipped == 0 && e.phase == Idle ==> e.ring.usedIdx == e.ring.lastAvail)
  {
    RunKeeps(s, steps);
    hide Run, Invariant, Wrap;
    Prefixes(Run(s, steps));
    if Run(s, steps).phase == Idle {
      Positions(Run(s, steps));
    }
  }

  lemma Prefixes(e: System)
    requires Invariant(e)
    ensures e.served <= e.published
    ensures |e.collected| <= |e.kept| && |e.kept| + e.skipped <= |e.served| <= |e.kept| + e.skipped + 1
    ensures forall i :: 0 <= i < |e.kept| ==> e.kept[i] < |e.served|
    ensures forall i, j :: 0 <= i < j < |e.kept| ==> e.kept[i] < e.kept[j]
    ensures forall i :: 0 <= i < |e.collected| ==> e.collected[i].id == e.published[e.kept[i]]
    ensures e.skipped == 0 ==> forall i :: 0 <= i < |e.kept| ==> e.kept[i] == i
  {
    hide AvailHolds, UsedHolds;
  }

  lemma Positions(e: System)
    requires Invariant(e) && e.phase == Idle
    ensures e.ring.lastAvail == Wrap(e.ring.usedIdx as int + e.skipped)
    ensures e.skipped == 0 ==> e.ring.usedIdx == e.ring.lastAvail
  {
    hide AvailHolds, UsedHolds, Names;
    WrapSum(|e.completed|, e.skipped);
  }

  lemma WrapSum(m: nat, n: nat)
    ensures Wrap(m % U16_RANGE + n) == (m + n) % U16_RANGE
  {
    assert m == U16_RANGE * (m / U16_RANGE) + m % U16_RANGE;
  }

  /** What a drain that finds `availIdx` has to serve: that many chains, no more and no less. */
  lemma PendingCount(s: System, steps: seq<Step>)
    requires IsReset(s) && Run(s, steps).phase == Idle
    ensures var e := Run(s, steps);
            |e.published| - |e.served| == (e.ring.availIdx as int - e.ring.lastAvail as int) % U16_RANGE
  {
    RunKeeps(s, steps);
    var e := Run(s, steps);
    hide Run;
    WrappedDistance(|e.served|, |e.published|);
  }

  lemma WrappedDistance(m: nat, n: nat)
    requires m <= n < m + U16_RANGE
    ensures (n % U16_RANGE - m % U16_RANGE) % U16_RANGE == n - m
  {
    assert n == U16_RANGE * (n / U16_RANGE) + n % U16_RANGE;
    assert m == U16_RANGE * (m / U16_RANGE) + m % U16_RANGE;
    var q := n / U16_RANGE - m / U16_RANGE;
    assert n % U16_RANGE - m % U16_RANGE == n - m - U16_RANGE * q;
  }

  // ── A drain ───────────────────────────────────────────────────────────────

  function Wrap(n: nat): u16
  {
    n % U16_RANGE
  }

  /** How far `b` is ahead of `a`, with wrap-around. */
  function Distance(a: u16, b: u16): nat
  {
    (b as int - a as int) % U16_RANGE
  }

  /** How many chains a drain serves. */
  function Pending(r: Ring): nat
  {
    Distance(r.lastAvail, r.availIdx)
  }

  function PendingHead(r: Ring, i: nat): u16
    requires Sized(r)
  {
    r.avail[Wrap(r.lastAvail as int + i) % |r.avail|]
  }

  /** The chains waiting, oldest first. */
  function PendingHeads(r: Ring): (heads: seq<u16>)
    requires Sized(r)
    ensures |heads| == Pending(r) && forall i :: 0 <= i < |heads| ==> heads[i] == PendingHead(r, i)
  {
    seq(Pending(r), i requires 0 <= i < Pending(r) => PendingHead(r, i))
  }

  /** The ring after a drain that returned the lengths `lens`. */
  function Serve(r: Ring, lens: seq<u32>): (r': Ring)
    requires Sized(r)
    ensures Sized(r') && r'.avail == r.avail && r'.availIdx == r.availIdx
    decreases lens
  {
    if lens == [] then r
    else
      var v := Serve(r, lens[..|lens| - 1]);
      ServeLast(v, lens[|lens| - 1])
  }

  /** Returns the next chain with one length. */
  function ServeLast(r: Ring, len: u32): (r': Ring)
    requires Sized(r)
    ensures Sized(r') && r'.avail == r.avail && r'.availIdx == r.availIdx
    ensures r'.lastAvail == Inc(r.lastAvail) && r'.usedIdx == Inc(r.usedIdx)
  {
    Advance(Complete(r, UsedElem(NextHead(r), len)))
  }

  lemma ReturnServes(r: Ring, len: u32)
    requires Sized(r)
    ensures ServeLast(r, len) == Advance(Complete(r, UsedElem(NextHead(r), len)))
  {
  }

  lemma IncWrap(b: nat, n: nat, i: u16)
    requires i == Wrap(b + n)
    ensures Inc(i) == Wrap(b + n + 1)
  {
  }

  /** Both positions move by the number of chains served. */
  lemma {:induction false} ServedPositions(r: Ring, lens: seq<u32>)
    requires Sized(r)
    ensures Serve(r, lens).lastAvail == Wrap(r.lastAvail as int + |lens|)
    ensures Serve(r, lens).usedIdx == Wrap(r.usedIdx as int + |lens|)
    decreases lens
  {
    if lens != [] {
      var n, v := |lens| - 1, Serve(r, lens[..|lens| - 1]);
      ServedPositions(r, lens[..n]);
      IncWrap(r.lastAvail as int, n, v.lastAvail);
      IncWrap(r.usedIdx as int, n, v.usedIdx);
      assert Serve(r, lens) == ServeLast(v, lens[n]);
      hide *;
    }
  }

  lemma NotYet(a: u16, b: u16, n: nat)
    requires n <= Distance(a, b)
    ensures Wrap(a as int + n) != b <==> n < Distance(a, b)
  {
    if b >= a {
      assert Distance(a, b) == b - a;
    } else {
      assert Distance(a, b) == b - a + U16_RANGE;
    }
  }

  /** The loop test and the head it finds, after some chains have been served. */
  lemma NextInDrain(r: Ring, lens: seq<u32>)
    requires Sized(r) && |lens| <= Pending(r)
    ensures HasNext(Serve(r, lens)) <==> |lens| < Pending(r)
    ensures NextHead(Serve(r, lens)) == PendingHead(r, |lens|)
  {
    hide Wrap, Distance, Serve;
    ServedPositions(r, lens);
    NotYet(r.lastAvail, r.availIdx, |lens|);
  }

  lemma ServeOne(r: Ring, lens: seq<u32>, len: u32)
    requires Sized(r)
    ensures Serve(r, lens + [len]) == ServeLast(Serve(r, lens), len)
  {
    assert (lens + [len])[..|lens|] == lens;
  }

  function DrainSteps(lens: seq<u32>): seq<Step>
  {
    if lens == [] then [] else DrainSteps(lens[..|lens| - 1]) + [DeviceFetch, DeviceReturn(lens[|lens| - 1]), DeviceAdvance]
  }

  lemma {:induction false} RunConcat(s: System, xs: seq<Step>, ys: seq<Step>)
    requires Sized(s.ring)
    ensures Run(s, xs + ys) == Run(Run(s, xs), ys)
    decreases xs
  {
    hide Apply, Sized;
    if xs == [] {
      assert xs + ys == ys;
    } else {
      assert (xs + ys)[1..] == xs[1..] + ys;
      RunConcat(Apply(s, xs[0]), xs[1..], ys);
    }
  }

  lemma ServeStep(s: System, len: u32)
    requires Sized(s.ring) && s.phase == Idle && HasNext(s.ring)
    ensures var e := Run(s, [DeviceFetch, DeviceReturn(len), DeviceAdvance]);
            && e.ring == ServeLast(s.ring, len)
            && e.phase == Idle && e.served == s.served + [NextHead(s.ring)]
            && e.completed == s.completed + [UsedElem(NextHead(s.ring), len)] && e.skipped == s.skipped
  {
    RunThree(s, DeviceFetch, DeviceReturn(len), DeviceAdvance);
    hide Run;
  }

  /** The same for a chain passed over. */
  lemma SkipStep(s: System)
    requires Sized(s.ring) && s.phase == Idle && HasNext(s.ring)
    ensures var e := Run(s, [DeviceFetch, DeviceSkip, DeviceAdvance]);
            && e.ring == Advance(s.ring)
            && e.phase == Idle && e.served == s.served + [NextHead(s.ring)]
            && e.completed == s.completed && e.skipped == s.skipped + 1
  {
    RunThree(s, DeviceFetch, DeviceSkip, DeviceAdvance);
    hide Run;
  }

  lemma RunThree(s: System, x: Step, y: Step, z: Step)
    requires Sized(s.ring)
    ensures Run(s, [x, y, z]) == Apply(Apply(Apply(s, x), y), z)
  {
    var a := Apply(s, x);
    var b := Apply(a, y);
    var c := Apply(b, z);
    hide Apply, Sized;
    assert Run(b, [z]) == Run(c, []);
    assert Run(a, [y, z]) == Run(b, [z]);
    assert Run(s, [x, y, z]) == Run(a, [y, z]);
  }

  /** A drain is the device's side of a run, so what holds of runs holds of drains. */
  lemma {:induction false} DrainIsRun(s: System, lens: seq<u32>)
    requires Sized(s.ring) && s.phase == Idle && |lens| <= Pending(s.ring)
    ensures var e := Run(s, DrainSteps(lens));
            && e.ring == Serve(s.ring, lens) && e.phase == Idle
            && e.served == s.served + PendingHeads(s.ring)[..|lens|] && e.skipped == s.skipped
  {
    if lens != [] {
      var init, last := lens[..|lens| - 1], lens[|lens| - 1];
      DrainIsRun(s, init);
      NextInDrain(s.ring, init);
      var v := Run(s, DrainSteps(init));
      assert Run(s, DrainSteps(lens)) == Run(v, [DeviceFetch, DeviceReturn(last), DeviceAdvance]) by {
        RunConcat(s, DrainSteps(init), [DeviceFetch, DeviceReturn(last), DeviceAdvance]);
        hide Run, Apply, Sized;
      }
      assert Serve(s.ring, lens) == ServeLast(Serve(s.ring, init), last);
      ServeStep(v, last);
      assert PendingHeads(s.ring)[..|lens|] == PendingHeads(s.ring)[..|init|] + [PendingHead(s.ring, |init|)];
      hide *;
    }
  }

  // ── The rings as a device sees them ───────────────────────────────────────

  class Queue {
    const avail: array<u16>
    const used: array<UsedElem>
    var availIdx: u16
    var usedIdx: u16
    var lastAvail: u16

    function View(): Ring
      reads this, avail, used
    {
      Ring(avail[..], availIdx, used[..], usedIdx, lastAvail)
    }

    constructor (avail: array<u16>, used: array<UsedElem>)
      ensures this.avail == avail && this.used == used && availIdx == usedIdx == lastAvail == 0
    {
      this.avail, this.used := avail, used;
      availIdx, usedIdx, lastAvail := 0, 0, 0;
    }

    method Head() returns (head: u16)
      requires Sized(View())
      ensures head == NextHead(View())
    {
      head := avail[lastAvail % avail.Length];
    }

    /** Moves on without returning the chain. */
    method Pass()
      modifies this`lastAvail
      ensures View() == Advance(old(View()))
    {
      lastAvail := Inc(lastAvail);
    }

    /** Writes the used entry of the chain at `head`, publishes it, and moves on. */
    method Return(head: u16, len: u32)
      requires Sized(View())
      modifies this`usedIdx, this`lastAvail, used
      ensures View() == Advance(Complete(old(View()), UsedElem(head, len)))
      ensures Sized(View())
    {
      used[usedIdx % used.Length] := UsedElem(head, len);
      usedIdx := Inc(usedIdx);
      lastAvail := Inc(lastAvail);
    }
  }
}
