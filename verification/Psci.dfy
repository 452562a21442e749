/**
 The PSCI CPU_ON handshake: a running vCPU stores entry point, context and a pending flag into the
 target's mailbox, one after the other; the target's thread polls the flag, loads both, clears the
 flag and starts. Every step is one access to shared memory, and steps of all threads interleave.
 */
module Psci {
  import opened Bytes

  datatype Request = Request(entry: u64, context: u64)

  datatype Regs = Regs(pc: u64, x0: u64)

  /** Where a vCPU's thread is. The primary starts running. */
  datatype Thread =
    | Spinning
    | SawPending
    | HasPc(pc: u64)
    | HasBoth(regs: Regs)
    | Cleared(regs: Regs)
    | Running
    | Stopped

  /** What a running vCPU's CPU_ON has still to do. */
  datatype Call =
    | NoCall
    | WritePc(target: nat, req: Request)
    | WriteX0(target: nat, req: Request)
    | WritePending(target: nat, req: Request)

  datatype Ret = NoRet | Success | InvalidParams

  /**
     `setups` and `early` are history: the register sets the vCPU was started with, and the CPU_ON
     requests issued for it before its thread had loaded both values.
   */
  datatype Vcpu = Vcpu(
    thread: Thread, call: Call, ret: Ret,
    bootPc: u64, bootX0: u64, bootPending: bool,
    setups: seq<Regs>, early: seq<Request>)

  datatype Step =
    | CallOn(cpu: nat, x1: u64, entry: u64, context: u64)
    | StorePc(cpu: nat)
    | StoreX0(cpu: nat)
    | StorePending(cpu: nat)
    | Poll(cpu: nat)
    | LoadPc(cpu: nat)
    | LoadX0(cpu: nat)
    | Clear(cpu: nat)
    | SetUp(cpu: nat)
    | CpuOff(cpu: nat)

  /** The thread may still read its mailbox. */
  predicate Unconsumed(t: Thread)
  {
    t.Spinning? || t.SawPending? || t.HasPc?
  }

  predicate Up(t: Thread)
  {
    t.Running? || t.Stopped?
  }

  function Target(x1: u64): nat
  {
    x1 as int % 0x100
  }

  /** A request is noted with its target while that can still read its mailbox. */
  function Noted(v: Vcpu, r: Request): Vcpu
  {
    if Unconsumed(v.thread) then v.(early := v.early + [r]) else v
  }

  function Apply(s: seq<Vcpu>, step: Step): (s': seq<Vcpu>)
    ensures |s'| == |s|
  {
    var i := step.cpu;
    if i >= |s| then s
    else
      var v := s[i];
      match step
      case CallOn(_, x1, entry, context) =>
        if !v.thread.Running? || !v.call.NoCall? then s
        else if Target(x1) >= |s| then s[i := v.(ret := InvalidParams)]
        else
          var t, r := Target(x1), Request(entry, context);
          var s1 := s[t := Noted(s[t], r)];
          s1[i := s1[i].(call := WritePc(t, r), ret := NoRet)]
      case StorePc(_) =>
        if !v.call.WritePc? || v.call.target >= |s| then s
        else
          var t, r := v.call.target, v.call.req;
          var s1 := s[t := s[t].(bootPc := r.entry)];
          s1[i := s1[i].(call := WriteX0(t, r))]
      case StoreX0(_) =>
        if !v.call.WriteX0? || v.call.target >= |s| then s
        else
          var t, r := v.call.target, v.call.req;
          var s1 := s[t := s[t].(bootX0 := r.context)];
          s1[i := s1[i].(call := WritePending(t, r))]
      case StorePending(_) =>
        if !v.call.WritePending? || v.call.target >= |s| then s
        else
          var t := v.call.target;
          var s1 := s[t := s[t].(bootPending := true)];
          s1[i := s1[i].(call := NoCall, ret := Success)]
      case Poll(_) =>
        if v.thread.Spinning? && v.bootPending then s[i := v.(thread := SawPending)] else s
      case LoadPc(_) =>
        if v.thread.SawPending? then s[i := v.(thread := HasPc(v.bootPc))] else s
      case LoadX0(_) =>
        if v.thread.HasPc? then s[i := v.(thread := HasBoth(Regs(v.thread.pc, v.bootX0)))] else s
      case Clear(_) =>
        if v.thread.HasBoth? then s[i := v.(thread := Cleared(v.thread.regs), bootPending := false)] else s
      case SetUp(_) =>
        if v.thread.Cleared? then s[i := v.(thread := Running, setups := v.setups + [v.thread.regs])] else s
      case CpuOff(_) =>
        if v.thread.Running? && v.call.NoCall? then s[i := v.(thread := Stopped)] else s
  }

  /** A CPU_ON is noted with the vCPU whose number its affinity has, and goes on to store there. */
  lemma {:induction false} CallNotes(s: seq<Vcpu>, i: nat, x1: u64, entry: u64, context: u64)
    requires i < |s| && s[i].thread.Running? && s[i].call.NoCall?
    ensures var s' := Apply(s, CallOn(i, x1, entry, context));
            && (x1 < 256 && x1 < |s| ==>
                  && s'[i].call == WritePc(x1, Request(entry, context))
                  && s'[x1].early == s[x1].early + (if Unconsumed(s[x1].thread) then [Request(entry, context)] else []))
            && (x1 % 256 >= |s| ==> s' == s[i := s[i].(ret := InvalidParams)])
  {
  }

  function Run(s: seq<Vcpu>, steps: seq<Step>): (s': seq<Vcpu>)
    ensures |s'| == |s|
    decreases steps
  {
    if steps == [] then s else Run(Apply(s, steps[0]), steps[1..])
  }

  function Secondary(): Vcpu
  {
    Vcpu(Spinning, NoCall, NoRet, 0, 0, false, [], [])
  }

  /** At power-on the primary runs, from the kernel's entry, and all others wait. */
  function PowerOn(n: nat, kernel: Regs): (s: seq<Vcpu>)
    requires n > 0
    ensures |s| == n
  {
    [Secondary().(thread := Running, setups := [kernel])] + seq(n - 1, _ => Secondary())
  }

  // ── The invariant ─────────────────────────────────────────────────────────

  ghost predicate PcFrom(early: seq<Request>, pc: u64)
  {
    exists k :: 0 <= k < |early| && early[k].entry == pc
  }

  ghost predicate X0From(early: seq<Request>, x0: u64)
  {
    exists k :: 0 <= k < |early| && early[k].context == x0
  }

  ghost predicate RegsFrom(early: seq<Request>, r: Regs)
  {
    PcFrom(early, r.pc) && X0From(early, r.x0)
  }

  /** What a call in flight has already stored into a mailbox that may still be read. */
  ghost predicate CallOk(c: Call, v: Vcpu)
  {
    match c
    case NoCall => true
    case WritePc(_, r) => r in v.early
    case WriteX0(_, r) => r in v.early && PcFrom(v.early, v.bootPc)
    case WritePending(_, r) => r in v.early && PcFrom(v.early, v.bootPc) && X0From(v.early, v.bootX0)
  }

  /** What a vCPU's thread may read, has read or has started with comes from requests issued for it. */
  ghost predicate VcpuOk(v: Vcpu)
  {
    && (Unconsumed(v.thread) && (v.bootPending || !v.thread.Spinning?) ==> X0From(v.early, v.bootX0) && PcFrom(v.early, v.bootPc))
    && (v.thread.HasPc? ==> PcFrom(v.early, v.thread.pc))
    && (v.thread.HasBoth? || v.thread.Cleared? ==> RegsFrom(v.early, v.thread.regs))
    && |v.setups| == (if Up(v.thread) then 1 else 0)
    && (Up(v.thread) ==> RegsFrom(v.early, v.setups[0]))
  }

  ghost predicate Targets(c: Call, i: nat)
  {
    !c.NoCall? && c.target == i
  }

  /** For secondaries; the primary never reads its mailbox. */
  ghost predicate Invariant(s: seq<Vcpu>)
  {
    && (forall i :: 0 < i < |s| ==> VcpuOk(s[i]))
    && (forall i, j :: 0 < i < |s| && 0 <= j < |s| && Targets(s[j].call, i) && Unconsumed(s[i].thread) ==> CallOk(s[j].call, s[i]))
    && (|s| > 0 ==> Up(s[0].thread))
  }

  lemma PowerOnOk(n: nat, kernel: Regs)
    requires n > 0
    ensures Invariant(PowerOn(n, kernel))
  {
  }

  lemma MoreEarly(v: Vcpu, r: Request, c: Call)
    requires VcpuOk(v)
    ensures VcpuOk(Noted(v, r)) && (Unconsumed(v.thread) && CallOk(c, v) ==> CallOk(c, Noted(v, r)))
    ensures Unconsumed(v.thread) ==> r in Noted(v, r).early
  {
    var w := Noted(v, r);
    assert forall k :: 0 <= k < |v.early| ==> w.early[k] == v.early[k];
    assert Unconsumed(v.thread) ==> w.early[|v.early|] == r;
    forall pc | PcFrom(v.early, pc) ensures PcFrom(w.early, pc) {
    }
    forall x0 | X0From(v.early, x0) ensures X0From(w.early, x0) {
    }
    hide PcFrom, X0From;
  }

  lemma CallKeeps(s: seq<Vcpu>, i: nat, x1: u64, entry: u64, context: u64)
    requires Invariant(s)
    ensures Invariant(Apply(s, CallOn(i, x1, entry, context)))
  {
    var s' := Apply(s, CallOn(i, x1, entry, context));
    var t, r := Target(x1), Request(entry, context);
    if i < |s| && s[i].thread.Running? && s[i].call.NoCall? && t < |s| {
      forall k | 0 < k < |s| ensures VcpuOk(s'[k]) {
        MoreEarly(s[k], r, NoCall);
      }
      forall k, j | 0 < k < |s| && 0 <= j < |s| && Targets(s'[j].call, k) && Unconsumed(s'[k].thread) ensures CallOk(s'[j].call, s'[k]) {
        MoreEarly(s[k], r, s[j].call);
      }
    }
  }

  /** A vCPU's own call and return value say nothing about its mailbox. */
  lemma OwnCall(v: Vcpu, c: Call, q: Ret, d: Call)
    ensures VcpuOk(v.(call := c, ret := q)) == VcpuOk(v) && CallOk(d, v.(call := c, ret := q)) == CallOk(d, v)
  {
  }

  /** After a store into the mailbox of `t`, which becomes `w`, by a call of `i` that goes on as `c`. */
  function Stored(s: seq<Vcpu>, t: nat, w: Vcpu, i: nat, c: Call, q: Ret): (s': seq<Vcpu>)
    requires t < |s| && i < |s|
    ensures |s'| == |s|
  {
    var s1 := s[t := w];
    s1[i := s1[i].(call := c, ret := q)]
  }

  ghost predicate KeepsCalls(v: Vcpu, w: Vcpu)
  {
    forall d: Call :: CallOk(d, v) ==> CallOk(d, w)
  }

  lemma StoredKeeps(s: seq<Vcpu>, t: nat, w: Vcpu, i: nat, c: Call, q: Ret)
    requires Invariant(s) && t < |s| && i < |s| && w.thread == s[t].thread && w.call == s[t].call
    requires 0 < t ==> VcpuOk(w) && (Unconsumed(w.thread) ==> KeepsCalls(s[t], w))
    requires !c.NoCall? ==> c.target == t && (0 < t && Unconsumed(w.thread) ==> CallOk(c, w))
    ensures Invariant(Stored(s, t, w, i, c, q))
  {
    var s' := Stored(s, t, w, i, c, q);
    hide VcpuOk, CallOk;
    forall k | 0 < k < |s| ensures VcpuOk(s'[k]) {
      OwnCall(if k == t then w else s[k], c, q, c);
    }
    forall k, j | 0 < k < |s| && 0 <= j < |s| && Targets(s'[j].call, k) && Unconsumed(s'[k].thread) ensures CallOk(s'[j].call, s'[k]) {
      OwnCall(if k == t then w else s[k], c, q, s'[j].call);
    }
  }

  lemma StorePcKeeps(s: seq<Vcpu>, i: nat)
    requires Invariant(s)
    ensures Invariant(Apply(s, StorePc(i)))
  {
    if i < |s| && s[i].call.WritePc? && s[i].call.target < |s| {
      var t, r := s[i].call.target, s[i].call.req;
      var w := s[t].(bootPc := r.entry);
      assert 0 < t && Unconsumed(s[t].thread) ==> Targets(s[i].call, t) && CallOk(s[i].call, s[t]);
      assert Apply(s, StorePc(i)) == Stored(s, t, w, i, WriteX0(t, r), s[i].ret);
      hide PcFrom, X0From, Apply, Stored;
      if 0 < t && Unconsumed(w.thread) {
        KnownRequest(w.early, r);
      }
      StoredKeeps(s, t, w, i, WriteX0(t, r), s[i].ret);
    }
  }

  lemma StoreX0Keeps(s: seq<Vcpu>, i: nat)
    requires Invariant(s)
    ensures Invariant(Apply(s, StoreX0(i)))
  {
    if i < |s| && s[i].call.WriteX0? && s[i].call.target < |s| {
      var t, r := s[i].call.target, s[i].call.req;
      var w := s[t].(bootX0 := r.context);
      assert 0 < t && Unconsumed(s[t].thread) ==> Targets(s[i].call, t) && CallOk(s[i].call, s[t]);
      assert Apply(s, StoreX0(i)) == Stored(s, t, w, i, WritePending(t, r), s[i].ret);
      hide PcFrom, X0From, Apply, Stored;
      if 0 < t && Unconsumed(w.thread) {
        KnownRequest(w.early, r);
      }
      StoredKeeps(s, t, w, i, WritePending(t, r), s[i].ret);
    }
  }

  lemma StorePendingKeeps(s: seq<Vcpu>, i: nat)
    requires Invariant(s)
    ensures Invariant(Apply(s, StorePending(i)))
  {
    if i < |s| && s[i].call.WritePending? && s[i].call.target < |s| {
      var t := s[i].call.target;
      var w := s[t].(bootPending := true);
      assert 0 < t && Unconsumed(s[t].thread) ==> Targets(s[i].call, t) && CallOk(s[i].call, s[t]);
      assert Apply(s, StorePending(i)) == Stored(s, t, w, i, NoCall, Success);
      hide PcFrom, X0From, Apply, Stored;
      StoredKeeps(s, t, w, i, NoCall, Success);
    }
  }

  lemma KnownRequest(early: seq<Request>, r: Request)
    requires r in early
    ensures PcFrom(early, r.entry) && X0From(early, r.context)
  {
    var k :| 0 <= k < |early| && early[k] == r;
  }

  lemma ThreadKeeps(s: seq<Vcpu>, step: Step)
    requires Invariant(s) && !step.CallOn? && !step.StorePc? && !step.StoreX0? && !step.StorePending?
    ensures Invariant(Apply(s, step))
  {
    hide PcFrom, X0From;
  }

  lemma {:induction false} RunKeeps(s: seq<Vcpu>, steps: seq<Step>)
    requires Invariant(s)
    ensures Invariant(Run(s, steps))
    decreases steps
  {
    if steps != [] {
      var step := steps[0];
      if step.CallOn? {
        CallKeeps(s, step.cpu, step.x1, step.entry, step.context);
      } else if step.StorePc? {
        StorePcKeeps(s, step.cpu);
      } else if step.StoreX0? {
        StoreX0Keeps(s, step.cpu);
      } else if step.StorePending? {
        StorePendingKeeps(s, step.cpu);
      } else {
        ThreadKeeps(s, step);
      }
      hide Invariant, Apply;
      RunKeeps(Apply(s, step), steps[1..]);
    }
  }

  // ── What it gives ─────────────────────────────────────────────────────────

  /** The pairs that were asked for. */
  ghost predicate Asked(early: seq<Request>, r: Regs)
  {
    Request(r.pc, r.x0) in early
  }

  /** Taking the entry point of one request and the context of another gives a pair that was asked for as well. */
  ghost predicate Closed(early: seq<Request>)
  {
    forall a, b :: a in early && b in early ==> Request(b.entry, a.context) in early
  }

  /**
     After any run, for every secondary: it was started at most once, and only if a CPU_ON was issued
     for it; its entry point and its context each come from such a call; if the calls issued before it
     had loaded both are closed under mixing, it was started with the pair of one of them, and if there
     was only one, with that one's.
   */
  lemma StartsAsAsked(n: nat, kernel: Regs, steps: seq<Step>, i: nat)
    requires 0 < i < n
    ensures var v := Run(PowerOn(n, kernel), steps)[i];
            && |v.setups| <= 1 && (Up(v.thread) <==> |v.setups| == 1)
            && (|v.setups| == 1 ==> v.early != [] && RegsFrom(v.early, v.setups[0]))
            && (|v.setups| == 1 && Closed(v.early) ==> Asked(v.early, v.setups[0]))
            && (|v.setups| == 1 && |v.early| == 1 ==> v.setups[0] == Regs(v.early[0].entry, v.early[0].context))
  {
    PowerOnOk(n, kernel);
    RunKeeps(PowerOn(n, kernel), steps);
    hide Run;
    var v := Run(PowerOn(n, kernel), steps)[i];
    assert VcpuOk(v);
    if |v.setups| == 1 && Closed(v.early) {
      ClosedAsked(v.early, v.setups[0]);
    }
  }

  lemma ClosedAsked(early: seq<Request>, r: Regs)
    requires Closed(early) && RegsFrom(early, r)
    ensures Asked(early, r)
  {
    var b :| 0 <= b < |early| && early[b].entry == r.pc;
    var a :| 0 <= a < |early| && early[a].context == r.x0;
    assert early[a] in early && early[b] in early;
  }

  /** Until it is asked, a secondary does nothing but wait. */
  lemma WaitsUntilAsked(n: nat, kernel: Regs, steps: seq<Step>, i: nat)
    requires 0 < i < n && Run(PowerOn(n, kernel), steps)[i].early == []
    ensures Run(PowerOn(n, kernel), steps)[i].thread == Spinning
  {
    PowerOnOk(n, kernel);
    RunKeeps(PowerOn(n, kernel), steps);
    hide Run;
  }

  // ── When two calls mix ────────────────────────────────────────────────────

  /**
     vCPU 0 starts vCPU 1 and makes some calls for vCPU 2; then both ask for vCPU 2, and their stores
     interleave before its thread polls.
   */
  function MixedRun(others: seq<Request>, a: Request, b: Request): seq<Step>
  {
    BootOne() + AskAll(others) + AskTwice(a, b) + StoreInterleaved() + BootTwo()
  }

  function BootOne(): seq<Step>
  {
    AskOne(1, Request(10, 11)) + [Poll(1), LoadPc(1), LoadX0(1), Clear(1), SetUp(1)]
  }

  /** A whole call of vCPU 0. */
  function AskOne(target: u64, r: Request): seq<Step>
  {
    [CallOn(0, target, r.entry, r.context), StorePc(0), StoreX0(0), StorePending(0)]
  }

  function AskAll(rs: seq<Request>): seq<Step>
  {
    if rs == [] then [] else AskAll(rs[..|rs| - 1]) + AskOne(2, rs[|rs| - 1])
  }

  function AskTwice(a: Request, b: Request): seq<Step>
  {
    [CallOn(0, 2, a.entry, a.context), CallOn(1, 2, b.entry, b.context)]
  }

  function StoreInterleaved(): seq<Step>
  {
    [StorePc(0), StorePc(1), StoreX0(1), StoreX0(0), StorePending(0)]
  }

  function BootTwo(): seq<Step>
  {
    [Poll(2), LoadPc(2), LoadX0(2), Clear(2), SetUp(2)]
  }

  lemma {:induction false} RunConcat(s: seq<Vcpu>, xs: seq<Step>, ys: seq<Step>)
    ensures Run(s, xs + ys) == Run(Run(s, xs), ys)
    decreases xs
  {
    hide Apply;
    if xs == [] {
      assert xs + ys == ys;
    } else {
      assert (xs + ys)[1..] == xs[1..] + ys;
      RunConcat(Apply(s, xs[0]), xs[1..], ys);
    }
  }

  lemma RunFirst(s: seq<Vcpu>, steps: seq<Step>)
    requires steps != []
    ensures Run(s, steps) == Run(Apply(s, steps[0]), steps[1..])
  {
  }

  lemma Unroll2(s: seq<Vcpu>, a: Step, b: Step)
    ensures Run(s, [a, b]) == Apply(Apply(s, a), b)
  {
    hide Apply;
    assert [a, b][1..] == [b] && [b][1..] == [];
    RunFirst(s, [a, b]);
    RunFirst(Apply(s, a), [b]);
  }

  lemma Unroll4(s: seq<Vcpu>, a: Step, b: Step, c: Step, d: Step)
    ensures Run(s, [a, b, c, d]) == Apply(Apply(Apply(Apply(s, a), b), c), d)
  {
    hide Apply;
    assert [a, b, c, d] == [a, b] + [c, d];
    RunConcat(s, [a, b], [c, d]);
    Unroll2(s, a, b);
    Unroll2(Apply(Apply(s, a), b), c, d);
  }

  lemma Unroll5(s: seq<Vcpu>, a: Step, b: Step, c: Step, d: Step, e: Step)
    ensures Run(s, [a, b, c, d, e]) == Apply(Apply(Apply(Apply(Apply(s, a), b), c), d), e)
  {
    hide Apply;
    assert [a, b, c, d, e][1..] == [b, c, d, e];
    RunFirst(s, [a, b, c, d, e]);
    Unroll4(Apply(s, a), b, c, d, e);
  }

  // Some lemmas below keep Dafny from adding an induction hypothesis of its own, which gets in the way.

  /** Running, with no call under way. */
  predicate Free(v: Vcpu)
  {
    v.thread.Running? && v.call.NoCall?
  }

  /** Waiting to be started, whatever its mailbox holds. */
  predicate Fresh(v: Vcpu)
  {
    v.thread.Spinning? && v.call.NoCall? && v.setups == []
  }

  /** A whole call for a vCPU that only spins. */
  lemma {:induction false} AskOneRuns(s: seq<Vcpu>, target: u64, r: Request)
    requires |s| == 3 && Free(s[0]) && 0 < target < 3 && Fresh(s[target])
    ensures var s' := Run(s, AskOne(target, r));
            && Free(s'[0]) && s'[3 - target] == s[3 - target]
            && Fresh(s'[target]) && s'[target].bootPending && s'[target].early == s[target].early + [r]
  {
    Unroll4(s, CallOn(0, target, r.entry, r.context), StorePc(0), StoreX0(0), StorePending(0));
    hide Run;
    var a := Apply(s, CallOn(0, target, r.entry, r.context));
    assert a[0].thread.Running? && a[0].call == WritePc(target, r) && a[3 - target] == s[3 - target];
    assert a[target] == s[target].(early := s[target].early + [r]);
    StoresRun(a, target, r);
  }

  lemma StoresRun(a: seq<Vcpu>, t: nat, r: Request)
    requires |a| == 3 && 0 < t < 3 && a[0].thread.Running? && a[0].call == WritePc(t, r)
    ensures var b := Apply(Apply(Apply(a, StorePc(0)), StoreX0(0)), StorePending(0));
            && |b| == 3 && Free(b[0]) && b[3 - t] == a[3 - t]
            && b[t] == a[t].(bootPc := r.entry, bootX0 := r.context, bootPending := true)
  {
    var b := Apply(a, StorePc(0));
    assert b[0] == a[0].(call := WriteX0(t, r)) && b[t] == a[t].(bootPc := r.entry) && b[3 - t] == a[3 - t];
    var c := Apply(b, StoreX0(0));
    assert c[0] == a[0].(call := WritePending(t, r)) && c[t] == b[t].(bootX0 := r.context) && c[3 - t] == a[3 - t];
  }

  lemma {:induction false} BootAsked(b: seq<Vcpu>)
    requires |b| == 3 && b[1].bootPending && Fresh(b[1])
    ensures var d := Run(b, [Poll(1), LoadPc(1), LoadX0(1), Clear(1), SetUp(1)]);
            d[0] == b[0] && d[2] == b[2] && Free(d[1])
  {
    Unroll5(b, Poll(1), LoadPc(1), LoadX0(1), Clear(1), SetUp(1));
    hide Run;
  }

  /** One uncontested call: the target comes up, and the third vCPU notices nothing. */
  lemma BootOneRuns(s: seq<Vcpu>)
    requires |s| == 3 && Free(s[0]) && Fresh(s[1])
    ensures var s' := Run(s, BootOne()); Free(s'[0]) && Free(s'[1]) && s'[2] == s[2]
  {
    var ask, boot := AskOne(1, Request(10, 11)), [Poll(1), LoadPc(1), LoadX0(1), Clear(1), SetUp(1)];
    assert BootOne() == ask + boot;
    hide *;
    RunConcat(s, ask, boot);
    AskOneRuns(s, 1, Request(10, 11));
    BootAsked(Run(s, ask));
  }

  lemma {:induction false} AskAllRuns(s: seq<Vcpu>, rs: seq<Request>)
    requires |s| == 3 && Free(s[0]) && Free(s[1]) && Fresh(s[2])
    ensures var s' := Run(s, AskAll(rs));
            && Free(s'[0]) && Free(s'[1]) && Fresh(s'[2]) && s'[2].early == s[2].early + rs
    decreases rs
  {
    if rs != [] {
      var init, last := rs[..|rs| - 1], rs[|rs| - 1];
      assert AskAll(rs) == AskAll(init) + AskOne(2, last);
      hide *;
      RunConcat(s, AskAll(init), AskOne(2, last));
      AskAllRuns(s, init);
      AskOneRuns(Run(s, AskAll(init)), 2, last);
      assert (s[2].early + init) + [last] == s[2].early + rs;
    }
  }

  /** The two calls: entry point of the second, context of the first. */
  lemma TwiceRuns(s: seq<Vcpu>, a: Request, b: Request)
    requires |s| == 3 && Free(s[0]) && Free(s[1]) && Fresh(s[2])
    ensures var v := Run(Run(Run(s, AskTwice(a, b)), StoreInterleaved()), BootTwo())[2];
            v.setups == [Regs(b.entry, a.context)] && v.early == s[2].early + [a, b]
  {
    Unroll2(s, CallOn(0, 2, a.entry, a.context), CallOn(1, 2, b.entry, b.context));
    TwiceIssued(s, a, b);
    hide Run, Apply;
    StoresInterleave(Apply(Apply(s, CallOn(0, 2, a.entry, a.context)), CallOn(1, 2, b.entry, b.context)), a, b);
  }

  lemma TwiceIssued(s: seq<Vcpu>, a: Request, b: Request)
    requires |s| == 3 && Free(s[0]) && Free(s[1]) && Fresh(s[2])
    ensures var c := Apply(Apply(s, CallOn(0, 2, a.entry, a.context)), CallOn(1, 2, b.entry, b.context));
            && c[0].call == WritePc(2, a) && c[1].call == WritePc(2, b)
            && Fresh(c[2]) && c[2].early == s[2].early + [a, b]
  {
    var early := s[2].early;
    var c := Apply(s, CallOn(0, 2, a.entry, a.context));
    assert c[0].call == WritePc(2, a) && c[1] == s[1] && c[2] == s[2].(early := early + [a]);
    assert (early + [a]) + [b] == early + [a, b];
  }

  lemma {:induction false} StoresInterleave(a: seq<Vcpu>, x: Request, y: Request)
    requires |a| == 3 && a[0].call == WritePc(2, x) && a[1].call == WritePc(2, y) && Fresh(a[2])
    ensures var v := Run(Run(a, StoreInterleaved()), BootTwo())[2];
            v.setups == [Regs(y.entry, x.context)] && v.early == a[2].early
  {
    var b := Apply(Apply(Apply(a, StorePc(0)), StorePc(1)), StoreX0(1));
    assert b[2] == a[2].(bootPc := y.entry, bootX0 := y.context) && b[0].call == WriteX0(2, x);
    var c := Apply(Apply(b, StoreX0(0)), StorePending(0));
    assert c[2] == a[2].(bootPc := y.entry, bootX0 := x.context, bootPending := true);
    Unroll5(a, StorePc(0), StorePc(1), StoreX0(1), StoreX0(0), StorePending(0));
    RunBoot(c);
  }

  lemma {:induction false} RunBoot(c: seq<Vcpu>)
    requires |c| == 3 && c[2].thread.Spinning? && c[2].bootPending && c[2].setups == []
    ensures var v := Run(c, BootTwo())[2]; v.setups == [Regs(c[2].bootPc, c[2].bootX0)] && v.early == c[2].early
  {
    Unroll5(c, Poll(2), LoadPc(2), LoadX0(2), Clear(2), SetUp(2));
  }

  /** After any calls, two more for the same vCPU can start it with the entry of one and the context of the other. */
  lemma MixedStart(kernel: Regs, others: seq<Request>, a: Request, b: Request)
    ensures var v := Run(PowerOn(3, kernel), MixedRun(others, a, b))[2];
            v.setups == [Regs(b.entry, a.context)] && v.early == others + [a, b]
  {
    var s := PowerOn(3, kernel);
    assert Free(s[0]) && Fresh(s[1]) && Fresh(s[2]) && s[2].early == [];
    hide *;
    MixedParts(s, others, a, b);
    BootOneRuns(s);
    var s1 := Run(s, BootOne());
    AskAllRuns(s1, others);
    TwiceRuns(Run(s1, AskAll(others)), a, b);
    assert [] + others == others;
  }

  lemma MixedParts(s: seq<Vcpu>, others: seq<Request>, a: Request, b: Request)
    ensures Run(s, MixedRun(others, a, b))
         == Run(Run(Run(Run(Run(s, BootOne()), AskAll(others)), AskTwice(a, b)), StoreInterleaved()), BootTwo())
  {
    var x, y, z, u, v := BootOne(), AskAll(others), AskTwice(a, b), StoreInterleaved(), BootTwo();
    assert MixedRun(others, a, b) == x + y + z + u + v;
    hide *;
    RunConcat(s, x + y + z + u, v);
    RunConcat(s, x + y + z, u);
    RunConcat(s, x + y, z);
    RunConcat(s, x, y);
  }

  /**
     Two calls whose stores interleave start the target with a pair nobody asked for, except exactly
     when they agree on the entry point or on the context.
   */
  lemma TwoCallsMayMix(kernel: Regs, a: Request, b: Request)
    ensures var v := Run(PowerOn(3, kernel), MixedRun([], a, b))[2];
            && v.early == [a, b] && v.setups == [Regs(b.entry, a.context)]
            && (Asked(v.early, v.setups[0]) <==> a.entry == b.entry || a.context == b.context)
  {
    MixedStart(kernel, [], a, b);
    hide Run, MixedRun;
    assert [] + [a, b] == [a, b];
  }

  /** However these calls for a vCPU interleave, it starts, if it does, with the pair of one of them. */
  ghost predicate AlwaysAsAsked(calls: seq<Request>)
  {
    forall n: nat, kernel, steps, i: nat ::
      0 < i < n && multiset(Run(PowerOn(n, kernel), steps)[i].early) == multiset(calls) ==> StartedAsked(Run(PowerOn(n, kernel), steps)[i])
  }

  ghost predicate StartedAsked(v: Vcpu)
  {
    v.setups != [] ==> Asked(v.early, v.setups[0])
  }

  /** The exact condition: every interleaving is safe if and only if the calls are closed under mixing. */
  lemma AsAskedIffClosed(calls: seq<Request>)
    ensures AlwaysAsAsked(calls) <==> Closed(calls)
  {
    if Closed(calls) {
      forall n: nat, kernel, steps, i: nat | 0 < i < n && multiset(Run(PowerOn(n, kernel), steps)[i].early) == multiset(calls)
        ensures StartedAsked(Run(PowerOn(n, kernel), steps)[i])
      {
        StartsAsAsked(n, kernel, steps, i);
        SameCalls(Run(PowerOn(n, kernel), steps)[i].early, calls);
      }
    } else {
      var a, b :| a in calls && b in calls && Request(b.entry, a.context) !in calls;
      var others := TakeOut(calls, a, b);
      MixedStart(Regs(0, 0), others, a, b);
      SameCalls(others + [a, b], calls);
      hide Run, MixedRun;
      assert !StartedAsked(Run(PowerOn(3, Regs(0, 0)), MixedRun(others, a, b))[2]);
    }
  }

  lemma SameCalls(xs: seq<Request>, ys: seq<Request>)
    requires multiset(xs) == multiset(ys)
    ensures Closed(xs) <==> Closed(ys)
    ensures forall r :: r in xs <==> r in ys
  {
    assert forall r :: (r in xs <==> r in multiset(xs)) && (r in ys <==> r in multiset(ys));
  }

  /** The calls besides two different ones. */
  lemma TakeOut(calls: seq<Request>, a: Request, b: Request) returns (others: seq<Request>)
    requires a in calls && b in calls && a != b
    ensures multiset(others + [a, b]) == multiset(calls)
  {
    var rest := TakeOutOne(calls, a);
    assert b in multiset(rest + [a]);
    assert b in rest;
    others := TakeOutOne(rest, b);
    assert multiset(others + [a, b]) == multiset(others + [b]) + multiset{a};
  }

  lemma TakeOutOne(calls: seq<Request>, a: Request) returns (rest: seq<Request>)
    requires a in calls
    ensures multiset(rest + [a]) == multiset(calls)
  {
    var i :| 0 <= i < |calls| && calls[i] == a;
    rest := calls[..i] + calls[i + 1..];
    assert calls == calls[..i] + [a] + calls[i + 1..];
  }

  /** A whole CPU_ON puts its pair and the flag into the mailbox of the vCPU it names. */
  lemma {:induction false} CallDelivers(s: seq<Vcpu>, i: nat, x1: u64, entry: u64, context: u64)
    requires i < |s| && s[i].thread.Running? && s[i].call.NoCall?
    ensures var s' := Run(s, [CallOn(i, x1, entry, context), StorePc(i), StoreX0(i), StorePending(i)]);
            x1 < 256 && x1 < |s| ==>
              && s'[x1].bootPc == entry && s'[x1].bootX0 == context && s'[x1].bootPending
              && s'[x1].early == s[x1].early + (if Unconsumed(s[x1].thread) then [Request(entry, context)] else [])
  {
    Unroll4(s, CallOn(i, x1, entry, context), StorePc(i), StoreX0(i), StorePending(i));
    CallNotes(s, i, x1, entry, context);
    hide Run, Apply;
    if x1 < 256 && x1 < |s| {
      StoresDeliver(Apply(s, CallOn(i, x1, entry, context)), i, x1, Request(entry, context));
    }
  }

  lemma {:induction false} StoresDeliver(a: seq<Vcpu>, i: nat, t: nat, r: Request)
    requires i < |a| && t < |a| && a[i].call == WritePc(t, r)
    ensures var b := Apply(Apply(Apply(a, StorePc(i)), StoreX0(i)), StorePending(i));
            b[t].bootPc == r.entry && b[t].bootX0 == r.context && b[t].bootPending && b[t].early == a[t].early
  {
    var b := Apply(a, StorePc(i));
    assert b[i].call == WriteX0(t, r) && b[t].bootPc == r.entry && b[t].early == a[t].early;
    var c := Apply(b, StoreX0(i));
    assert c[i].call == WritePending(t, r) && c[t].bootPc == r.entry && c[t].bootX0 == r.context && c[t].early == a[t].early;
  }

  // ── The two sides as the code has them ────────────────────────────────────

  class Host {
    var vcpus: seq<Vcpu>

    constructor (n: nat, kernel: Regs)
      requires n > 0
      ensures vcpus == PowerOn(n, kernel) && Invariant(vcpus)
    {
      vcpus := PowerOn(n, kernel);
      new;
      PowerOnOk(n, kernel);
    }

    /** The requester: refuses a target that does not exist, else stores pc, context and flag, in that order. */
    method CpuOn(i: nat, x1: u64, entry: u64, context: u64)
      requires i < |vcpus| && vcpus[i].thread.Running? && vcpus[i].call.NoCall?
      modifies this
      ensures vcpus == Run(old(vcpus), [CallOn(i, x1, entry, context), StorePc(i), StoreX0(i), StorePending(i)])
      ensures vcpus[i].ret == if Target(x1) < |vcpus| then Success else InvalidParams
      ensures x1 < 256 && x1 < |vcpus| ==>
                && vcpus[x1].bootPc == entry && vcpus[x1].bootX0 == context && vcpus[x1].bootPending
                && vcpus[x1].early == old(vcpus[x1].early) + (if Unconsumed(old(vcpus[x1].thread)) then [Request(entry, context)] else [])
    {
      CallDelivers(vcpus, i, x1, entry, context);
      Unroll4(vcpus, CallOn(i, x1, entry, context), StorePc(i), StoreX0(i), StorePending(i));
      hide Run;
      var target, n := x1 % 0x100, |vcpus|;
      if target >= n {
        vcpus := vcpus[i := vcpus[i].(ret := InvalidParams)];
        return;
      }
      Issue(i, target, entry, context);
      vcpus := vcpus[target := vcpus[target].(bootPc := entry)];
      vcpus := vcpus[i := vcpus[i].(call := WriteX0(target, Request(entry, context)))];
      vcpus := vcpus[target := vcpus[target].(bootX0 := context)];
      vcpus := vcpus[i := vcpus[i].(call := WritePending(target, Request(entry, context)))];
      vcpus := vcpus[target := vcpus[target].(bootPending := true)];
      vcpus := vcpus[i := vcpus[i].(call := NoCall, ret := Success)];
    }

    /** Notes the call before its first store. */
    method Issue(i: nat, target: nat, entry: u64, context: u64)
      requires i < |vcpus| && target < |vcpus|
      modifies this
      ensures vcpus == Issued(old(vcpus), i, target, Request(entry, context))
    {
      vcpus := vcpus[target := Noted(vcpus[target], Request(entry, context))];
      vcpus := vcpus[i := vcpus[i].(call := WritePc(target, Request(entry, context)), ret := NoRet)];
    }

    /** The target's thread, once it sees the flag. */
    method Boot(i: nat)
      requires i < |vcpus| && vcpus[i].thread.Spinning? && vcpus[i].bootPending
      modifies this
      ensures vcpus == Run(old(vcpus), [Poll(i), LoadPc(i), LoadX0(i), Clear(i), SetUp(i)])
      ensures vcpus[i].setups == old(vcpus[i].setups) + [Regs(old(vcpus[i].bootPc), old(vcpus[i].bootX0))]
      ensures !vcpus[i].bootPending && vcpus[i].thread.Running?
    {
      Unroll5(vcpus, Poll(i), LoadPc(i), LoadX0(i), Clear(i), SetUp(i));
      hide Run;
      var pc := vcpus[i].bootPc;
      var x0 := vcpus[i].bootX0;
      vcpus := vcpus[i := vcpus[i].(bootPending := false)];
      vcpus := vcpus[i := vcpus[i].(thread := Running, setups := vcpus[i].setups + [Regs(pc, x0)])];
    }
  }

  function Issued(s: seq<Vcpu>, i: nat, target: nat, r: Request): seq<Vcpu>
    requires i < |s| && target < |s|
  {
    var s1 := s[target := Noted(s[target], r)];
    s1[i := s1[i].(call := WritePc(target, r), ret := NoRet)]
  }
}
