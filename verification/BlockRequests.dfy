/**
 What the block device does with a request, told from the bytes the driver wrote: the header in guest
 memory, the linked descriptors, and the numbers the specification gives the request types.
 */
module BlockRequests {
  import opened Bytes
  import opened GuestMemory
  import opened VirtioBlock

  /**
     The driver has linked the descriptors on `path`: a header of sixteen bytes at `at`, data, and the
     status byte last.
   */
  predicate Built(desc: seq<Desc>, base: nat, size: nat, path: seq<nat>, at: nat)
  {
    && TableOk(desc) && Linked(desc, path) && 2 <= |path| <= 256 && AllWhole(desc, base, size, path)
    && desc[path[0]].addr as int == base + at && desc[path[0]].len >= 16 && at + 16 <= size
  }

  function Kind(ram: seq<byte>, at: nat): u32
    requires at + 16 <= |ram|
  {
    ReadLe32(ram, at)
  }

  /** The byte offset of a request; the product wraps at 64 bits. */
  function Start(ram: seq<byte>, at: nat): nat
    requires at + 16 <= |ram|
  {
    ReadLe64(ram, at + 8) as int * 512 % 0x1_0000_0000_0000_0000
  }

  /** The buffers of the descriptors between the first and the last. */
  function DataOf(desc: seq<Desc>, base: nat, size: nat, path: seq<nat>, at: nat): (segs: seq<Seg>)
    requires Built(desc, base, size, path, at)
    ensures AllFit(segs, size)
  {
    Buffers(desc, base, size, path[1..|path| - 1])
  }

  function StatusDesc(desc: seq<Desc>, path: seq<nat>): Desc
    requires TableOk(desc) && Linked(desc, path)
  {
    desc[path[|path| - 1]]
  }

  lemma TailLinked(desc: seq<Desc>, base: nat, size: nat, path: seq<nat>)
    requires TableOk(desc) && Linked(desc, path) && 2 <= |path| <= 256 && AllWhole(desc, base, size, path)
    ensures Linked(desc, path[1..]) && path[1..][0] == desc[path[0]].next as int && desc[path[0]].flags % 2 == 1
    ensures Path(desc, path[1]) == path[1..] && Path(desc, path[0]) == path && Acyclic(desc, path[0])
    ensures |path| > 2 ==> HasNext(desc[path[1]]) && desc[path[1]].next as int == path[2]
    ensures |path| == 2 ==> !HasNext(desc[path[1]])
  {
    var tail := path[1..];
    assert forall i :: 0 <= i < |tail| ==> tail[i] == path[i + 1];
    assert Linked(desc, tail);
    LinkedIsPath(desc, path);
    LinkedIsPath(desc, tail);
    hide Path, Acyclic;
  }

  /** The drain stops at a header that is not mapped, shorter than sixteen bytes, or has nothing behind it. */
  lemma BadHeader(desc: seq<Desc>, base: nat, size: nat, head: u16)
    requires Sane(desc, base, size, head)
    ensures var d := desc[head]; GoodHeader(desc, base, size, head) <==> base <= d.addr < base + size && d.len >= 16 && d.flags % 2 == 1
  {
    hide Path, Acyclic, AllWhole;
  }

  /** What the bytes of a request ask for. */
  lemma Asks(desc: seq<Desc>, base: nat, ram: seq<byte>, path: seq<nat>, at: nat)
    requires Built(desc, base, |ram|, path, at)
    ensures Sane(desc, base, |ram|, path[0]) && GoodHeader(desc, base, |ram|, path[0])
    ensures var p, kind, d := PlanOf(desc, base, ram, path[0]), Kind(ram, at), desc[path[1]];
            && (kind == 4 ==> p == Flush(d))
            && (kind == 8 ==> p == Identify(d, if |path| > 2 then desc[path[2]] else d))
            && (kind != 4 && kind != 8 ==>
                  p == Transfer(kind, Start(ram, at), DataOf(desc, base, |ram|, path, at), StatusDesc(desc, path)))
  {
    SaneRequest(desc, base, ram, path, at);
    TailParts(desc, base, |ram|, path, at);
    StartIs(ram, at);
    hide *;
    PlanCases(desc, base, ram, path[0]);
  }

  lemma StartIs(ram: seq<byte>, at: nat)
    requires at + 16 <= |ram|
    ensures Start(ram, at) == Offset(VirtioBlock.Header(Kind(ram, at), ReadLe64(ram, at + 8)))
  {
  }

  lemma TailParts(desc: seq<Desc>, base: nat, size: nat, path: seq<nat>, at: nat)
    requires Built(desc, base, size, path, at)
    ensures var tail := path[1..];
            && |tail| == |path| - 1 && tail[0] == path[1] < |desc| && Walkable(desc, base, size, tail)
            && tail[|tail| - 1] == path[|path| - 1] < |desc| && desc[tail[|tail| - 1]] == StatusDesc(desc, path)
            && Upto(desc, base, size, tail, |tail| - 1) == DataOf(desc, base, size, path, at)
    ensures |path| > 2 ==> path[2] < |desc| && HasNext(desc[path[1]]) && desc[path[1]].next as int == path[2]
    ensures |path| == 2 ==> !HasNext(desc[path[1]])
  {
    var tail := path[1..];
    assert tail[..|tail| - 1] == path[1..|path| - 1];
    hide Buffers;
  }

  lemma SaneRequest(desc: seq<Desc>, base: nat, ram: seq<byte>, path: seq<nat>, at: nat)
    requires Built(desc, base, |ram|, path, at)
    ensures Sane(desc, base, |ram|, path[0]) && GoodHeader(desc, base, |ram|, path[0])
    ensures Rest(desc, base, |ram|, path[0]) == path[1..]
    ensures ReadHeader(desc, base, ram, path[0]) == VirtioBlock.Header(Kind(ram, at), ReadLe64(ram, at + 8))
  {
    TailLinked(desc, base, |ram|, path);
    hide Path, Acyclic, Linked, ReadLe32, ReadLe64;
  }

  /** The request is served, whatever its outcome, if the disk has the range it moves. */
  predicate WithinDisk(desc: seq<Desc>, base: nat, store: Store, path: seq<nat>, at: nat)
    requires Built(desc, base, |store.ram|, path, at)
  {
    Kind(store.ram, at) in {0, 1} ==>
      Start(store.ram, at) + TotalLen(DataOf(desc, base, |store.ram|, path, at)) <= |store.disk|
  }

  lemma Serves(desc: seq<Desc>, base: nat, store: Store, path: seq<nat>, at: nat)
    requires Built(desc, base, |store.ram|, path, at) && WithinDisk(desc, base, store, path, at)
    ensures Servable(desc, base, store, path[0]) && GoodHeader(desc, base, |store.ram|, path[0])
    ensures Feasible(PlanOf(desc, base, store.ram, path[0]), base, store)
    ensures Request(desc, base, store, path[0]) == Execute(PlanOf(desc, base, store.ram, path[0]), base, store)
  {
    Asks(desc, base, store.ram, path, at);
    assert Whole(desc[path[1]], base, |store.ram|);
    hide PlanOf, Linked, Buffers, Path, Acyclic, Execute, TotalLen;
  }

  // ── The requests ──────────────────────────────────────────────────────────

  /** The status byte is `code` where its descriptor points into RAM, and then counts as one byte written behind `n`. */
  predicate Reports(size: nat, o: Outcome, status: Desc, base: nat, code: byte, n: nat)
    requires |o.store.ram| == size
  {
    var at := status.addr as int - base;
    if 0 <= at < size then o.store.ram[at] == code && o.wrote == (n + 1) % 0x1_0000_0000
    else o.wrote == n % 0x1_0000_0000
  }

  /** The bytes of the buffers, one after the other, are on disk from `off` on; all else stays but the status. */
  ghost predicate Written(store: Store, o: Outcome, off: nat, segs: seq<Seg>, status: Desc, base: nat)
  {
    && AllFit(segs, |store.ram|) && |o.store.ram| == |store.ram|
    && var data := Gather(store.ram, segs);
       && off + |data| <= |store.disk| && o.store.disk == store.disk[..off] + data + store.disk[off + |data|..]
       && (forall x :: 0 <= x < |store.ram| && x != status.addr as int - base ==> o.store.ram[x] == store.ram[x])
       && Reports(|store.ram|, o, status, base, 0, 0)
  }

  /** The disk's bytes from `off` on are in the buffers, one after the other; all else stays but the status. */
  ghost predicate ReadInto(store: Store, o: Outcome, off: nat, segs: seq<Seg>, status: Desc, base: nat)
  {
    && AllFit(segs, |store.ram|) && |o.store.ram| == |store.ram| && AllFit(segs, |o.store.ram|)
    && var n := TotalLen(segs);
       && off + n <= |store.disk| && Gather(o.store.ram, segs) == store.disk[off..off + n] && o.store.disk == store.disk
       && (forall x :: 0 <= x < |store.ram| && !Touches(x, segs) && x != status.addr as int - base ==> o.store.ram[x] == store.ram[x])
       && Reports(|store.ram|, o, status, base, 0, n)
  }

  /** Nothing is moved. */
  ghost predicate Idle(store: Store, o: Outcome, status: Desc, base: nat, code: byte)
  {
    && o.store.disk == store.disk && |o.store.ram| == |store.ram|
    && (forall x :: 0 <= x < |store.ram| && x != status.addr as int - base ==> o.store.ram[x] == store.ram[x])
    && Reports(|store.ram|, o, status, base, code, 0)
  }

  /** "vda" and seventeen zeros are in the buffer at `at`, and the length is that of the whole buffer. */
  ghost predicate Named(store: Store, o: Outcome, buf: Desc, status: Desc, base: nat)
  {
    && var at := buf.addr as int - base;
       && 0 <= at <= at + 20 <= |store.ram| == |o.store.ram| && o.store.disk == store.disk
       && o.store.ram[at] == 118 && o.store.ram[at + 1] == 100 && o.store.ram[at + 2] == 97
       && (forall x :: at + 3 <= x < at + 20 ==> o.store.ram[x] == 0)
       && (forall x :: 0 <= x < |store.ram| && !(at <= x < at + 20) && x != status.addr as int - base ==> o.store.ram[x] == store.ram[x])
       && Reports(|store.ram|, o, status, base, 0, buf.len)
  }

  /** Type 1, write: the data buffers' bytes replace the disk bytes from sector*512 on, and the status is 0. */
  lemma WriteRequest(desc: seq<Desc>, base: nat, store: Store, path: seq<nat>, at: nat)
    requires Built(desc, base, |store.ram|, path, at) && Kind(store.ram, at) == 1
    requires WithinDisk(desc, base, store, path, at)
    ensures Servable(desc, base, store, path[0]) && GoodHeader(desc, base, |store.ram|, path[0])
    ensures Written(store, Request(desc, base, store, path[0]), Start(store.ram, at), DataOf(desc, base, |store.ram|, path, at),
                    StatusDesc(desc, path), base)
  {
    Asks(desc, base, store.ram, path, at);
    Serves(desc, base, store, path, at);
    hide *;
    WritePlan(PlanOf(desc, base, store.ram, path[0]), base, store);
  }

  lemma WritePlan(p: Plan, base: nat, store: Store)
    requires p.Transfer? && p.kind == 1 && Feasible(p, base, store)
    ensures Written(store, Execute(p, base, store), p.off, p.segs, p.status, base)
  {
    OutReplaces(p, base, store);
    hide Execute, Gather, TotalLen;
  }

  /** Type 0, read: the disk bytes from sector*512 on fill the data buffers in order, and the status is 0. */
  lemma ReadRequest(desc: seq<Desc>, base: nat, store: Store, path: seq<nat>, at: nat)
    requires Built(desc, base, |store.ram|, path, at) && Kind(store.ram, at) == 0
    requires WithinDisk(desc, base, store, path, at)
    requires Clear(DataOf(desc, base, |store.ram|, path, at), StatusDesc(desc, path), base, |store.ram|)
    ensures Servable(desc, base, store, path[0]) && GoodHeader(desc, base, |store.ram|, path[0])
    ensures ReadInto(store, Request(desc, base, store, path[0]), Start(store.ram, at), DataOf(desc, base, |store.ram|, path, at),
                     StatusDesc(desc, path), base)
  {
    Asks(desc, base, store.ram, path, at);
    Serves(desc, base, store, path, at);
    hide *;
    ReadPlan(PlanOf(desc, base, store.ram, path[0]), base, store);
  }

  /** The buffers and the status byte do not overlap. */
  predicate Clear(segs: seq<Seg>, status: Desc, base: nat, size: nat)
  {
    Disjoint(segs) && (0 <= status.addr as int - base < size ==> !Touches(status.addr as int - base, segs))
  }

  lemma ReadPlan(p: Plan, base: nat, store: Store)
    requires p.Transfer? && p.kind == 0 && Feasible(p, base, store) && Clear(p.segs, p.status, base, |store.ram|)
    ensures ReadInto(store, Execute(p, base, store), p.off, p.segs, p.status, base)
  {
    InScatters(p, base, store);
    hide Execute, Gather, TotalLen, Touches, Disjoint;
  }

  /** Type 4, flush: only the status byte, in the descriptor behind the header, is written. */
  lemma FlushRequest(desc: seq<Desc>, base: nat, store: Store, path: seq<nat>, at: nat)
    requires Built(desc, base, |store.ram|, path, at) && Kind(store.ram, at) == 4
    ensures Servable(desc, base, store, path[0]) && GoodHeader(desc, base, |store.ram|, path[0])
    ensures Idle(store, Request(desc, base, store, path[0]), desc[path[1]], base, 0)
  {
    Asks(desc, base, store.ram, path, at);
    Serves(desc, base, store, path, at);
    hide *;
    FlushPlan(desc[path[1]], base, store);
  }

  lemma FlushPlan(d: Desc, base: nat, store: Store)
    ensures Feasible(Flush(d), base, store) && Idle(store, Execute(Flush(d), base, store), d, base, 0)
  {
  }

  /** Type 8, identity: the name is written into the first buffer, and the status 0 into the one behind. */
  lemma IdentityRequest(desc: seq<Desc>, base: nat, store: Store, path: seq<nat>, at: nat)
    requires Built(desc, base, |store.ram|, path, at) && Kind(store.ram, at) == 8 && |path| > 2
    requires base <= desc[path[1]].addr < base + |store.ram| && desc[path[1]].len >= 20
    requires desc[path[2]].addr < desc[path[1]].addr || desc[path[1]].addr as int + 20 <= desc[path[2]].addr
    ensures Servable(desc, base, store, path[0]) && GoodHeader(desc, base, |store.ram|, path[0])
    ensures Named(store, Request(desc, base, store, path[0]), desc[path[1]], desc[path[2]], base)
  {
    Asks(desc, base, store.ram, path, at);
    Serves(desc, base, store, path, at);
    assert Whole(desc[path[1]], base, |store.ram|);
    hide *;
    IdentityPlan(desc[path[1]], desc[path[2]], base, store);
  }

  lemma IdentityPlan(buf: Desc, status: Desc, base: nat, store: Store)
    requires Whole(buf, base, |store.ram|) && base <= buf.addr < base + |store.ram| && buf.len >= 20
    requires status.addr < buf.addr || buf.addr as int + 20 <= status.addr
    ensures Feasible(Identify(buf, status), base, store)
    ensures Named(store, Execute(Identify(buf, status), base, store), buf, status, base)
  {
    var at := buf.addr as int - base;
    var ram := Splice(store.ram, at, Identity());
    assert at + 20 <= |store.ram|;
    assert forall x :: at <= x < at + 20 ==> ram[x] == ram[at..at + 20][x - at] == Identity()[x - at];
    assert Act(Identify(buf, status), base, store) == Moved(Store(ram, store.disk), buf.len, S_OK);
    hide Splice, Act;
    assert Execute(Identify(buf, status), base, store) == Finish(base, Store(ram, store.disk), status, S_OK, buf.len);
    hide Execute;
  }

  /** Any other type moves nothing, and reports status 2 unless it had no data. */
  lemma OtherRequest(desc: seq<Desc>, base: nat, store: Store, path: seq<nat>, at: nat)
    requires Built(desc, base, |store.ram|, path, at) && Kind(store.ram, at) !in {0, 1, 4, 8}
    ensures Servable(desc, base, store, path[0]) && GoodHeader(desc, base, |store.ram|, path[0])
    ensures Idle(store, Request(desc, base, store, path[0]), StatusDesc(desc, path), base,
                 if DataOf(desc, base, |store.ram|, path, at) == [] then 0 else 2)
  {
    Asks(desc, base, store.ram, path, at);
    Serves(desc, base, store, path, at);
    hide *;
    OtherPlan(PlanOf(desc, base, store.ram, path[0]), base, store);
  }

  lemma OtherPlan(p: Plan, base: nat, store: Store)
    requires p.Transfer? && p.kind !in {0, 1} && Feasible(p, base, store)
    ensures Idle(store, Execute(p, base, store), p.status, base, if p.segs == [] then 0 else 2)
  {
    UnknownMovesNothing(p, base, store);
    hide Execute;
  }
}
