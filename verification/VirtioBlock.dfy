/**
 The block device: requests arrive as descriptor chains (header, data buffers, status byte) and move
 bytes between guest RAM and a flat disk.
 */
module VirtioBlock {
  import opened Bytes
  import opened GuestMemory
  import VirtQueue

  const T_IN: u32 := 0
  const T_OUT: u32 := 1
  const T_FLUSH: u32 := 4
  const T_GET_ID: u32 := 8

  const S_OK: byte := 0
  const S_UNSUPP: byte := 2

  const HEADER_LEN := 16
  const ID_LEN := 20

  /** Lengths are kept in 32 bits. */
  function Len32(n: nat): u32
  {
    n % U32_RANGE
  }

  datatype Header = Header(kind: u32, sector: u64)

  /** What a request reads and writes. */
  datatype Store = Store(ram: seq<byte>, disk: seq<byte>)

  datatype Outcome = Outcome(store: Store, wrote: u32)

  // ── Reading a chain ───────────────────────────────────────────────────────

  /** The drain stops at a header that is not mapped, too short, or the end of its chain. */
  predicate GoodHeader(desc: seq<Desc>, base: nat, size: nat, head: u16)
    requires Sane(desc, base, size, head)
  {
    Maps(base, size, desc[head].addr) && desc[head].len >= HEADER_LEN && HasNext(desc[head])
  }

  function ReadHeader(desc: seq<Desc>, base: nat, ram: seq<byte>, head: u16): Header
    requires Sane(desc, base, |ram|, head) && GoodHeader(desc, base, |ram|, head)
  {
    var at := desc[head].addr as int - base;
    WholeAt(desc, base, |ram|, Path(desc, head), 0);
    Header(ReadLe32(ram, at), ReadLe64(ram, at + 8))
  }

  lemma WholeAt(desc: seq<Desc>, base: nat, size: nat, path: seq<nat>, i: nat)
    requires TableOk(desc) && IsPath(path) && AllWhole(desc, base, size, path) && i < |path|
    ensures Whole(desc[path[i]], base, size)
  {
  }

  /** The descriptors after the header: data, then status. */
  function Rest(desc: seq<Desc>, base: nat, size: nat, head: u16): (path: seq<nat>)
    requires Sane(desc, base, size, head) && GoodHeader(desc, base, size, head)
    ensures Walkable(desc, base, size, path) && On(desc, path, 0) && path[0] == desc[head].next
  {
    TailPath(desc, base, size, head);
    Path(desc, desc[head].next)
  }

  /** 64-bit wrap-around of the byte offset. */
  function Offset(h: Header): nat
  {
    h.sector as int * 512 % U64_RANGE
  }

  /** What a chain asks for; `status` is the descriptor whose buffer takes the status byte. */
  datatype Plan =
    | Flush(status: Desc)
    | Identify(buf: Desc, status: Desc)
    | Transfer(kind: u32, off: nat, segs: seq<Seg>, status: Desc)

  /** The data buffers of a transfer are those of all descriptors between the header and the last. */
  function PlanOf(desc: seq<Desc>, base: nat, ram: seq<byte>, head: u16): (p: Plan)
    requires Sane(desc, base, |ram|, head) && GoodHeader(desc, base, |ram|, head)
    ensures p.Transfer? ==> AllFit(p.segs, |ram|)
    ensures p.Identify? ==> Whole(p.buf, base, |ram|)
  {
    var h := ReadHeader(desc, base, ram, head);
    var path := Rest(desc, base, |ram|, head);
    var d := desc[path[0]];
    WholeAt(desc, base, |ram|, path, 0);
    if h.kind == T_FLUSH then Flush(d)
    else if h.kind == T_GET_ID then Identify(d, if HasNext(d) then desc[d.next] else d)
    else Transfer(h.kind, Offset(h), Upto(desc, base, |ram|, path, |path| - 1), desc[path[|path| - 1]])
  }

  lemma PlanCases(desc: seq<Desc>, base: nat, ram: seq<byte>, head: u16)
    requires Sane(desc, base, |ram|, head) && GoodHeader(desc, base, |ram|, head)
    ensures var h, path, p := ReadHeader(desc, base, ram, head), Rest(desc, base, |ram|, head), PlanOf(desc, base, ram, head);
            var d := desc[path[0]];
            && Whole(d, base, |ram|)
            && (h.kind == T_FLUSH ==> p == Flush(d))
            && (h.kind == T_GET_ID ==> p == Identify(d, if HasNext(d) then desc[d.next] else d))
            && (h.kind != T_FLUSH && h.kind != T_GET_ID ==>
                  p == Transfer(h.kind, Offset(h), Upto(desc, base, |ram|, path, |path| - 1), desc[path[|path| - 1]]))
  {
    hide ReadHeader, Acyclic, Path, Upto, Offset, On;
  }

  // ── Carrying it out ───────────────────────────────────────────────────────

  /** The status byte goes where its descriptor points, if that is mapped. */
  function PutStatus(ram: seq<byte>, base: nat, d: Desc, status: byte): (ram': seq<byte>)
    ensures |ram'| == |ram|
  {
    if Maps(base, |ram|, d.addr) then ram[d.addr as int - base := status] else ram
  }

  function StatusLen(base: nat, size: nat, d: Desc): nat
  {
    if Maps(base, size, d.addr) then 1 else 0
  }

  function Identity(): (s: seq<byte>)
    ensures |s| == ID_LEN
  {
    [0x76, 0x64, 0x61] + Zeros(ID_LEN - 3)
  }

  predicate Room(kind: u32, off: nat, segs: seq<Seg>, store: Store)
  {
    AllFit(segs, |store.ram|) && (kind == T_IN || kind == T_OUT ==> off + TotalLen(segs) <= |store.disk|)
  }

  /** Assumed of each plan: buffers in RAM, and the range moved within the disk. */
  predicate Feasible(p: Plan, base: nat, store: Store)
  {
    match p
    case Flush(_) => true
    case Identify(buf, _) => Whole(buf, base, |store.ram|)
    case Transfer(kind, off, segs, _) => Room(kind, off, segs, store)
  }

  function Finish(base: nat, store: Store, d: Desc, status: byte, wrote: nat): (o: Outcome)
    ensures |o.store.ram| == |store.ram| && |o.store.disk| == |store.disk|
  {
    Outcome(store.(ram := PutStatus(store.ram, base, d, status)),
            Len32(wrote + StatusLen(base, |store.ram|, d)))
  }

  datatype Moved = Moved(store: Store, wrote: u32, status: byte)

  /** The data part of a transfer. */
  function Move(kind: u32, off: nat, segs: seq<Seg>, store: Store): (m: Moved)
    requires Room(kind, off, segs, store)
    ensures |m.store.ram| == |store.ram| && |m.store.disk| == |store.disk|
  {
    var n := TotalLen(segs);
    if kind == T_IN then
      Moved(store.(ram := Scatter(store.ram, segs, store.disk[off..off + n])), Len32(n), S_OK)
    else if kind == T_OUT then
      Moved(store.(disk := Splice(store.disk, off, Gather(store.ram, segs))), 0, S_OK)
    else
      Moved(store, 0, if segs == [] then S_OK else S_UNSUPP)
  }

  /** What a request does before its status byte is written. */
  function Act(p: Plan, base: nat, store: Store): (m: Moved)
    requires Feasible(p, base, store)
    ensures |m.store.ram| == |store.ram| && |m.store.disk| == |store.disk|
  {
    match p
    case Flush(_) => Moved(store, 0, S_OK)
    case Identify(buf, _) =>
      if Maps(base, |store.ram|, buf.addr) && buf.len >= ID_LEN then
        Moved(store.(ram := Splice(store.ram, buf.addr as int - base, Identity())), buf.len, S_OK)
      else
        Moved(store, 0, S_OK)
    case Transfer(kind, off, segs, _) => Move(kind, off, segs, store)
  }

  /** What a request does and the length it reports. */
  function Execute(p: Plan, base: nat, store: Store): (o: Outcome)
    requires Feasible(p, base, store)
    ensures |o.store.ram| == |store.ram| && |o.store.disk| == |store.disk|
  {
    var m := Act(p, base, store);
    Finish(base, m.store, p.status, m.status, m.wrote)
  }

  lemma MoveNothing(kind: u32, off: nat, store: Store)
    requires Room(kind, off, [], store)
    ensures Move(kind, off, [], store) == Moved(store, 0, S_OK)
  {
  }

  /** Moving one buffer, from where the buffers before it left off. */
  function MoveOne(kind: u32, at: nat, s: Seg, m: Moved): (m': Moved)
    requires Fits(s, |m.store.ram|) && (kind == T_IN || kind == T_OUT ==> at + s.len <= |m.store.disk|)
    ensures |m'.store.ram| == |m.store.ram| && |m'.store.disk| == |m.store.disk|
  {
    if kind == T_IN then
      Moved(m.store.(ram := Splice(m.store.ram, s.off, m.store.disk[at..at + s.len])), Len32(m.wrote + s.len), m.status)
    else if kind == T_OUT then
      Moved(m.store.(disk := Splice(m.store.disk, at, m.store.ram[s.off..s.off + s.len])), m.wrote, m.status)
    else
      m.(status := S_UNSUPP)
  }

  lemma MoveNextIn(off: nat, segs: seq<Seg>, s: Seg, next: seq<Seg>, store: Store)
    requires Room(T_IN, off, segs, store) && AllFit(segs, |store.ram|) && Fits(s, |store.ram|)
    requires off + TotalLen(segs) + s.len <= |store.disk|
    requires next == segs + [s] && Room(T_IN, off, next, store) && TotalLen(next) == TotalLen(segs) + s.len
    ensures Move(T_IN, off, next, store) == MoveOne(T_IN, off + TotalLen(segs), s, Move(T_IN, off, segs, store))
  {
    hide *;
    var n := TotalLen(segs);
    MoveIn(off, segs, store);
    MoveIn(off, next, store);
    SliceSplit(store.disk, off, n, s.len);
    AddLen(n, s.len);
    ScatterAppend(store.ram, segs, s, store.disk[off..off + n], store.disk[off + n..off + n + s.len]);
    MoveOneIn(off + n, s, Move(T_IN, off, segs, store));
  }

  lemma SliceSplit(s: seq<byte>, off: nat, m: nat, n: nat)
    requires off + m + n <= |s|
    ensures s[off..off + (m + n)] == s[off..off + m] + s[off + m..off + m + n]
  {
  }

  lemma MoveOneIn(at: nat, s: Seg, m: Moved)
    requires Fits(s, |m.store.ram|) && at + s.len <= |m.store.disk|
    ensures MoveOne(T_IN, at, s, m)
            == Moved(Store(Splice(m.store.ram, s.off, m.store.disk[at..at + s.len]), m.store.disk), Len32(m.wrote + s.len), m.status)
  {
  }

  lemma MoveIn(off: nat, segs: seq<Seg>, store: Store)
    requires Room(T_IN, off, segs, store)
    ensures Move(T_IN, off, segs, store)
            == Moved(Store(Scatter(store.ram, segs, store.disk[off..off + TotalLen(segs)]), store.disk),
                     Len32(TotalLen(segs)), S_OK)
  {
  }

  lemma AddLen(n: nat, len: nat)
    ensures Len32(Len32(n) + len) == Len32(n + len)
  {
    assert n == U32_RANGE * (n / U32_RANGE) + n % U32_RANGE;
  }

  lemma MoveNextOut(off: nat, segs: seq<Seg>, s: Seg, next: seq<Seg>, store: Store)
    requires Room(T_OUT, off, segs, store) && AllFit(segs, |store.ram|) && Fits(s, |store.ram|)
    requires off + TotalLen(segs) + s.len <= |store.disk|
    requires next == segs + [s] && Room(T_OUT, off, next, store) && s.off + s.len <= |store.ram|
    ensures Move(T_OUT, off, next, store) == MoveOne(T_OUT, off + TotalLen(segs), s, Move(T_OUT, off, segs, store))
  {
    hide *;
    var data, more := Gather(store.ram, segs), store.ram[s.off..s.off + s.len];
    MoveOut(off, segs, store);
    MoveOut(off, next, store);
    GatherAppend(store.ram, segs, s);
    SpliceTwice(store.disk, off, data, more);
    MoveOneOut(off + |data|, s, Move(T_OUT, off, segs, store));
  }

  lemma MoveOut(off: nat, segs: seq<Seg>, store: Store)
    requires Room(T_OUT, off, segs, store)
    ensures AllFit(segs, |store.ram|) && off + |Gather(store.ram, segs)| <= |store.disk|
    ensures Move(T_OUT, off, segs, store)
            == Moved(Store(store.ram, Splice(store.disk, off, Gather(store.ram, segs))), 0, S_OK)
  {
  }

  lemma MoveOneOut(at: nat, s: Seg, m: Moved)
    requires Fits(s, |m.store.ram|) && at + s.len <= |m.store.disk|
    ensures s.off + s.len <= |m.store.ram|
    ensures MoveOne(T_OUT, at, s, m)
            == Moved(Store(m.store.ram, Splice(m.store.disk, at, m.store.ram[s.off..s.off + s.len])), m.wrote, m.status)
  {
  }

  /** One buffer more continues where the others stopped. */
  lemma MoveNext(kind: u32, off: nat, segs: seq<Seg>, s: Seg, store: Store)
    requires Room(kind, off, segs, store) && Fits(s, |store.ram|)
    requires kind == T_IN || kind == T_OUT ==> off + TotalLen(segs) + s.len <= |store.disk|
    ensures Room(kind, off, segs + [s], store) && TotalLen(segs + [s]) == TotalLen(segs) + s.len
    ensures Move(kind, off, segs + [s], store) == MoveOne(kind, off + TotalLen(segs), s, Move(kind, off, segs, store))
  {
    assert TotalLen([s]) == s.len;
    TotalLenAppend(segs, [s]);
    if kind == T_IN {
      hide Move, MoveOne;
      MoveNextIn(off, segs, s, segs + [s], store);
    } else if kind == T_OUT {
      hide Move, MoveOne;
      MoveNextOut(off, segs, s, segs + [s], store);
    }
  }

  /** What the next descriptor adds to the buffers. */
  lemma NextBuffer(d: Desc, base: nat, size: nat, segs: seq<Seg>)
    requires Whole(d, base, size)
    ensures if Maps(base, size, d.addr) && d.len != 0
            then var s := Seg(d.addr as int - base, d.len); segs + Buffer(d, base, size) == segs + [s] && Fits(s, size)
            else segs + Buffer(d, base, size) == segs
  {
  }

  lemma RoomForNext(kind: u32, off: nat, segs: seq<Seg>, s: Seg, store: Store)
    requires Room(kind, off, segs + [s], store)
    ensures kind == T_IN || kind == T_OUT ==> off + TotalLen(segs) + s.len <= |store.disk|
  {
    TotalLenAppend(segs, [s]);
    assert TotalLen([s]) == s.len;
  }

  // ── A drain ───────────────────────────────────────────────────────────────

  predicate Servable(desc: seq<Desc>, base: nat, store: Store, head: u16)
  {
    && Sane(desc, base, |store.ram|, head)
    && (GoodHeader(desc, base, |store.ram|, head) ==> Feasible(PlanOf(desc, base, store.ram, head), base, store))
  }

  function Request(desc: seq<Desc>, base: nat, store: Store, head: u16): (o: Outcome)
    requires Servable(desc, base, store, head) && GoodHeader(desc, base, |store.ram|, head)
    ensures |o.store.ram| == |store.ram| && |o.store.disk| == |store.disk|
  {
    Execute(PlanOf(desc, base, store.ram, head), base, store)
  }

  datatype Drained = Drained(store: Store, lens: seq<u32>)

  /** Every request the drain gets to is servable. */
  predicate AllServable(desc: seq<Desc>, base: nat, store: Store, heads: seq<u16>)
    decreases heads
  {
    heads != [] ==>
      && Servable(desc, base, store, heads[0])
      && (GoodHeader(desc, base, |store.ram|, heads[0]) ==>
            AllServable(desc, base, Request(desc, base, store, heads[0]).store, heads[1..]))
  }

  /** Requests in order, up to the first bad header. */
  function Drain(desc: seq<Desc>, base: nat, store: Store, heads: seq<u16>): (d: Drained)
    requires AllServable(desc, base, store, heads)
    ensures |d.store.ram| == |store.ram| && |d.store.disk| == |store.disk| && |d.lens| <= |heads|
    decreases heads
  {
    if heads == [] || !GoodHeader(desc, base, |store.ram|, heads[0]) then Drained(store, [])
    else
      var o := Request(desc, base, store, heads[0]);
      var d := Drain(desc, base, o.store, heads[1..]);
      Drained(d.store, [o.wrote] + d.lens)
  }

  /** A drain of `heads` that has served `lens` so far and has the rest to go. */
  ghost predicate Resumed(desc: seq<Desc>, base: nat, was: Store, heads: seq<u16>, lens: seq<u32>, now: Store)
  {
    && |lens| <= |heads| && AllServable(desc, base, was, heads) && AllServable(desc, base, now, heads[|lens|..])
    && |now.ram| == |was.ram| && |now.disk| == |was.disk|
    && var rest := Drain(desc, base, now, heads[|lens|..]);
       Drain(desc, base, was, heads) == Drained(rest.store, lens + rest.lens)
  }

  lemma ResumedStart(desc: seq<Desc>, base: nat, was: Store, heads: seq<u16>)
    requires AllServable(desc, base, was, heads)
    ensures Resumed(desc, base, was, heads, [], was)
  {
    var d := Drain(desc, base, was, heads);
    assert heads[0..] == heads && [] + d.lens == d.lens;
  }

  lemma ResumedNext(desc: seq<Desc>, base: nat, was: Store, heads: seq<u16>, lens: seq<u32>, now: Store)
    requires Resumed(desc, base, was, heads, lens, now) && |lens| < |heads|
    ensures Servable(desc, base, now, heads[|lens|]) && Sane(desc, base, |now.ram|, heads[|lens|])
    ensures GoodHeader(desc, base, |now.ram|, heads[|lens|]) ==>
              var o := Request(desc, base, now, heads[|lens|]);
              Resumed(desc, base, was, heads, lens + [o.wrote], o.store)
    ensures !GoodHeader(desc, base, |now.ram|, heads[|lens|]) ==> Drain(desc, base, was, heads) == Drained(now, lens)
  {
    hide Request;
    var rest := heads[|lens|..];
    assert rest[0] == heads[|lens|] && rest[1..] == heads[|lens| + 1..];
    if GoodHeader(desc, base, |now.ram|, rest[0]) {
      var o := Request(desc, base, now, rest[0]);
      var more := Drain(desc, base, o.store, rest[1..]).lens;
      assert lens + ([o.wrote] + more) == (lens + [o.wrote]) + more;
    } else {
      assert lens + [] == lens;
    }
  }

  lemma ResumedEnd(desc: seq<Desc>, base: nat, was: Store, heads: seq<u16>, lens: seq<u32>, now: Store)
    requires Resumed(desc, base, was, heads, lens, now) && |lens| == |heads|
    ensures Drain(desc, base, was, heads) == Drained(now, lens)
  {
    assert lens + [] == lens;
  }

  /** The first `n` of the chains have good headers, and the next, if there is one, has not. */
  predicate FirstBadAt(desc: seq<Desc>, base: nat, size: nat, heads: seq<u16>, n: nat)
  {
    && n <= |heads|
    && (forall i :: 0 <= i < n ==> Sane(desc, base, size, heads[i]) && GoodHeader(desc, base, size, heads[i]))
    && (n < |heads| ==> Sane(desc, base, size, heads[n]) && !GoodHeader(desc, base, size, heads[n]))
  }

  lemma FirstBadLater(desc: seq<Desc>, base: nat, size: nat, heads: seq<u16>, n: nat)
    requires heads != [] && Sane(desc, base, size, heads[0]) && GoodHeader(desc, base, size, heads[0])
    requires FirstBadAt(desc, base, size, heads[1..], n)
    ensures FirstBadAt(desc, base, size, heads, n + 1)
  {
    hide Sane, GoodHeader;
    assert forall i :: 0 < i < |heads| ==> heads[i] == heads[1..][i - 1];
  }

  /** A drain serves every chain up to the first bad header, and no further. */
  lemma {:induction false} StopsAtBadHeader(desc: seq<Desc>, base: nat, store: Store, heads: seq<u16>)
    requires AllServable(desc, base, store, heads)
    ensures FirstBadAt(desc, base, |store.ram|, heads, |Drain(desc, base, store, heads).lens|)
    decreases heads
  {
    hide Sane, GoodHeader, Request;
    if heads != [] && GoodHeader(desc, base, |store.ram|, heads[0]) {
      var o := Request(desc, base, store, heads[0]);
      StopsAtBadHeader(desc, base, o.store, heads[1..]);
      FirstBadLater(desc, base, |store.ram|, heads, |Drain(desc, base, o.store, heads[1..]).lens|);
    }
  }

  // ── What a request means ──────────────────────────────────────────────────

  predicate Moves(p: Plan, kind: u32)
  {
    p.Transfer? && p.kind == kind
  }

  /**
     A write replaces exactly the disk bytes from its offset on with the concatenation of its data
     buffers, touches no RAM but the status byte, and reports one byte written.
   */
  lemma OutReplaces(p: Plan, base: nat, store: Store)
    requires Moves(p, T_OUT) && Feasible(p, base, store)
    ensures var o, n := Execute(p, base, store), TotalLen(p.segs);
            && o.store.disk == store.disk[..p.off] + Gather(store.ram, p.segs) + store.disk[p.off + n..]
            && (forall x :: 0 <= x < |store.ram| && x != p.status.addr as int - base ==> o.store.ram[x] == store.ram[x])
            && (if Maps(base, |store.ram|, p.status.addr)
                then o.store.ram[p.status.addr as int - base] == S_OK && o.wrote == 1 else o.wrote == 0)
  {
  }

  /** The status byte, where there is one, lies outside the data buffers, which do not overlap. */
  predicate Separate(p: Plan, base: nat, size: nat)
    requires p.Transfer?
  {
    Disjoint(p.segs) && (Maps(base, size, p.status.addr) ==> !Touches(p.status.addr as int - base, p.segs))
  }

  lemma ScatterThenStatus(ram: seq<byte>, segs: seq<Seg>, data: seq<byte>, base: nat, d: Desc)
    requires AllFit(segs, |ram|) && |data| == TotalLen(segs) && Disjoint(segs)
    requires Maps(base, |ram|, d.addr) ==> !Touches(d.addr as int - base, segs)
    ensures var ram' := PutStatus(Scatter(ram, segs, data), base, d, S_OK);
            && Gather(ram', segs) == data
            && (Maps(base, |ram|, d.addr) ==> ram'[d.addr as int - base] == S_OK)
            && (forall x :: 0 <= x < |ram| && !Touches(x, segs) && x != d.addr as int - base ==> ram'[x] == ram[x])
  {
    var mid := Scatter(ram, segs, data);
    var ram' := PutStatus(mid, base, d, S_OK);
    hide Touches, Disjoint, AllFit, Scatter, Gather, TotalLen;
    GatherScatter(ram, segs, data);
    GatherSame(mid, ram', segs);
    forall x | 0 <= x < |ram| && !Touches(x, segs) && x != d.addr as int - base ensures ram'[x] == ram[x] {
      ScatterFrame(ram, segs, data, x);
    }
  }

  /**
     A read scatters exactly the disk bytes from its offset on over its data buffers, in chain order:
     gathering them back gives those bytes. It changes no other RAM but the status byte, leaves the
     disk alone, and reports the data length plus the status byte.
   */
  lemma InScatters(p: Plan, base: nat, store: Store)
    requires Moves(p, T_IN) && Feasible(p, base, store) && Separate(p, base, |store.ram|)
    ensures var o, n := Execute(p, base, store), TotalLen(p.segs);
            && Gather(o.store.ram, p.segs) == store.disk[p.off..p.off + n]
            && (forall x :: 0 <= x < |store.ram| && !Touches(x, p.segs) && x != p.status.addr as int - base
                  ==> o.store.ram[x] == store.ram[x])
            && o.store.disk == store.disk
            && (if Maps(base, |store.ram|, p.status.addr)
                then o.store.ram[p.status.addr as int - base] == S_OK && o.wrote == Len32(n + 1)
                else o.wrote == Len32(n))
  {
    hide Execute, Len32;
    var n := TotalLen(p.segs);
    var data := store.disk[p.off..p.off + n];
    ExecuteIn(p, base, store, n);
    ScatterThenStatus(store.ram, p.segs, data, base, p.status);
    hide *;
  }

  lemma ExecuteIn(p: Plan, base: nat, store: Store, n: nat)
    requires Moves(p, T_IN) && Feasible(p, base, store) && n == TotalLen(p.segs)
    ensures AllFit(p.segs, |store.ram|) && p.off + n <= |store.disk|
    ensures var o := Execute(p, base, store);
            && o.store == Store(PutStatus(Scatter(store.ram, p.segs, store.disk[p.off..p.off + n]), base, p.status, S_OK), store.disk)
            && o.wrote == (if Maps(base, |store.ram|, p.status.addr) then Len32(n + 1) else Len32(n))
  {
    hide Scatter, TotalLen, PutStatus, Len32;
    AddLen(n, StatusLen(base, |store.ram|, p.status));
  }

  lemma SliceWithin(s: seq<byte>, off: nat, mid: seq<byte>, at: nat, n: nat)
    requires off <= at && at + n <= off + |mid| <= |s|
    ensures (s[..off] + mid + s[off + |mid|..])[at..at + n] == mid[at - off..at - off + n]
  {
    var t := s[..off] + mid + s[off + |mid|..];
    assert t[off..off + |mid|] == mid;
    assert t[at..at + n] == t[off..off + |mid|][at - off..at - off + n];
  }

  /**
     What was written is what is read: a read of any part of the range a write replaced, through any
     other buffers and with RAM changed in between, delivers that part of the bytes written.
   */
  lemma ReadAfterWrite(w: Plan, r: Plan, base: nat, store: Store, ram: seq<byte>)
    requires Moves(w, T_OUT) && Feasible(w, base, store)
    requires Moves(r, T_IN) && Feasible(r, base, Store(ram, store.disk)) && Separate(r, base, |ram|)
    requires w.off <= r.off && r.off + TotalLen(r.segs) <= w.off + TotalLen(w.segs)
    ensures var o := Execute(r, base, Store(ram, Execute(w, base, store).store.disk));
            Gather(o.store.ram, r.segs)
            == Gather(store.ram, w.segs)[r.off - w.off..r.off - w.off + TotalLen(r.segs)]
  {
    hide Execute, Gather, AllFit, Touches, Disjoint, Separate;
    var disk := Execute(w, base, store).store.disk;
    var written, n := Gather(store.ram, w.segs), TotalLen(r.segs);
    OutReplaces(w, base, store);
    InScatters(r, base, Store(ram, disk));
    hide *;
    SliceWithin(store.disk, w.off, written, r.off, n);
  }

  /** A read of a range no write touched is not affected by it. */
  lemma ReadElsewhere(w: Plan, r: Plan, base: nat, store: Store, ram: seq<byte>)
    requires Moves(w, T_OUT) && Feasible(w, base, store)
    requires Moves(r, T_IN) && Feasible(r, base, Store(ram, store.disk)) && Separate(r, base, |ram|)
    requires r.off + TotalLen(r.segs) <= w.off || w.off + TotalLen(w.segs) <= r.off
    ensures Gather(Execute(r, base, Store(ram, Execute(w, base, store).store.disk)).store.ram, r.segs)
            == Gather(Execute(r, base, Store(ram, store.disk)).store.ram, r.segs)
  {
    hide Execute, Gather, AllFit, Touches, Disjoint, Separate;
    var disk, n := Execute(w, base, store).store.disk, TotalLen(r.segs);
    OutReplaces(w, base, store);
    InScatters(r, base, Store(ram, disk));
    InScatters(r, base, Store(ram, store.disk));
    hide *;
    assert disk[r.off..r.off + n] == store.disk[r.off..r.off + n];
  }

  /** An identity request writes the name of the disk, padded with zeros, and reports its whole buffer. */
  lemma IdentityNamesDisk(p: Plan, base: nat, store: Store)
    requires p.Identify? && Feasible(p, base, store)
    requires Maps(base, |store.ram|, p.buf.addr) && p.buf.len >= ID_LEN
    requires p.status.addr < p.buf.addr || p.buf.addr as int + ID_LEN <= p.status.addr
    ensures var o, at := Execute(p, base, store), p.buf.addr as int - base;
            && o.store.ram[at] == 'v' as int && o.store.ram[at + 1] == 'd' as int && o.store.ram[at + 2] == 'a' as int
            && (forall i :: at + 3 <= i < at + ID_LEN ==> o.store.ram[i] == 0)
            && o.store.disk == store.disk
            && o.wrote == Len32(p.buf.len + StatusLen(base, |store.ram|, p.status))
  {
    var at := p.buf.addr as int - base;
    assert at + ID_LEN <= |store.ram|;
    var ram := Splice(store.ram, at, Identity());
    assert forall i :: at <= i < at + ID_LEN ==> ram[i] == Identity()[i - at];
  }

  /** A transfer of an unknown kind moves nothing; it reports that, where it can, unless it had no data. */
  lemma UnknownMovesNothing(p: Plan, base: nat, store: Store)
    requires p.Transfer? && p.kind != T_IN && p.kind != T_OUT && Feasible(p, base, store)
    ensures var o, at := Execute(p, base, store), p.status.addr as int - base;
            && o.store.disk == store.disk
            && (if Maps(base, |store.ram|, p.status.addr)
                then o.store.ram == store.ram[at := if p.segs == [] then S_OK else S_UNSUPP] && o.wrote == 1
                else o.store.ram == store.ram && o.wrote == 0)
  {
  }

  // ── The device ────────────────────────────────────────────────────────────

  class Block {
    const q: VirtQueue.Queue
    const desc: seq<Desc>
    const base: nat
    const ram: array<byte>
    const disk: array<byte>
    var ready: bool
    var irq: bool

    constructor (q: VirtQueue.Queue, desc: seq<Desc>, base: nat, ram: array<byte>, disk: array<byte>)
      ensures this.q == q && this.desc == desc && this.base == base && this.ram == ram && this.disk == disk
      ensures !ready && !irq
    {
      this.q, this.desc, this.base, this.ram, this.disk := q, desc, base, ram, disk;
      ready, irq := false, false;
    }

    function Contents(): Store
      reads ram, disk
    {
      Store(ram[..], disk[..])
    }

    predicate Wired()
      reads q
    {
      ram != disk && VirtQueue.IsSize(q.avail.Length) && q.used.Length == q.avail.Length
    }

    method Copy(kind: u32, at: nat, s: Seg, wrote: u32, status: byte) returns (wrote': u32, status': byte)
      requires ram != disk && Fits(s, ram.Length) && (kind == T_IN || kind == T_OUT ==> at + s.len <= disk.Length)
      modifies ram, disk
      ensures Moved(Contents(), wrote', status') == MoveOne(kind, at, s, Moved(old(Contents()), wrote, status))
    {
      hide Splice;
      wrote', status' := wrote, status;
      if kind == T_IN {
        Put(ram, s.off, disk[at..at + s.len]);
        wrote' := Len32(wrote + s.len);
      } else if kind == T_OUT {
        Put(disk, at, ram[s.off..s.off + s.len]);
      } else {
        status' := S_UNSUPP;
      }
    }

    /** One turn of the walk: moves one buffer, if it is mapped and not empty. */
    method MoveBuffer(d: Desc, kind: u32, off: nat, wrote: u32, status: byte,
        ghost start: nat, ghost segs: seq<Seg>, ghost was: Store)
      returns (off': nat, wrote': u32, status': byte)
      requires ram != disk && Whole(d, base, ram.Length) && off == start + TotalLen(segs)
      requires Room(kind, start, segs, was) && Room(kind, start, segs + Buffer(d, base, ram.Length), was)
      requires Moved(Contents(), wrote, status) == Move(kind, start, segs, was)
      modifies ram, disk
      ensures off' == start + TotalLen(segs + Buffer(d, base, ram.Length))
      ensures Moved(Contents(), wrote', status') == Move(kind, start, segs + Buffer(d, base, ram.Length), was)
    {
      off', wrote', status' := off, wrote, status;
      NextBuffer(d, base, ram.Length, segs);
      if Maps(base, ram.Length, d.addr) && d.len != 0 {
        var s := Seg(d.addr - base, d.len);
        hide *;
        RoomForNext(kind, start, segs, s, was);
        MoveNext(kind, start, segs, s, was);
        wrote', status' := Copy(kind, off, s, wrote, status);
        off' := off + d.len;
      } else {
        hide *;
      }
    }

    /** The walk over the data descriptors, moving each buffer as it is met. */
    method Walk(first: u16, kind: u32, start: nat, ghost path: seq<nat>) returns (last: u16, wrote: u32, status: byte)
      requires ram != disk && Walkable(desc, base, ram.Length, path) && path[0] == first && On(desc, path, 0)
      requires Room(kind, start, Upto(desc, base, ram.Length, path, |path| - 1), Contents())
      modifies ram, disk
      ensures last == path[|path| - 1]
      ensures Moved(Contents(), wrote, status)
              == Move(kind, start, Upto(desc, base, ram.Length, path, |path| - 1), old(Contents()))
    {
      last, wrote, status := first, 0, S_OK;
      var off := start;
      ghost var k, was := 0, Contents();
      WalkStart(desc, base, kind, start, path, was);
      hide *;
      while last < |desc| && HasNext(desc[last])
        invariant Walking(desc, base, kind, start, path, k, was, last, off, Moved(Contents(), wrote, status))
        decreases |path| - k
      {
        last, off, wrote, status := WalkOn(last, kind, off, wrote, status, start, path, k, was);
        k := k + 1;
      }
      WalkEnd(desc, base, kind, start, path, k, was, last, off, Moved(Contents(), wrote, status));
    }

    method WalkOn(cur: u16, kind: u32, off: nat, wrote: u32, status: byte,
        ghost start: nat, ghost path: seq<nat>, ghost k: nat, ghost was: Store)
      returns (next: u16, off': nat, wrote': u32, status': byte)
      requires Walking(desc, base, kind, start, path, k, was, cur, off, Moved(Contents(), wrote, status))
      requires ram != disk && cur < |desc| && HasNext(desc[cur])
      modifies ram, disk
      ensures k < |path|
      ensures Walking(desc, base, kind, start, path, k + 1, was, next, off', Moved(Contents(), wrote', status'))
    {
      ghost var now := Moved(Contents(), wrote, status);
      assert |now.store.ram| == ram.Length;
      hide *;
      WalkParts(desc, base, ram.Length, kind, start, path, k, was, cur, off, now);
      off', wrote', status' :=
        MoveBuffer(desc[cur], kind, off, wrote, status, start, Upto(desc, base, ram.Length, path, k), was);
      next := desc[cur].next;
      WalkFold(desc, base, ram.Length, kind, start, path, k, was, cur, off', Moved(Contents(), wrote', status'));
    }

    /** What the identity request does with its data descriptor, and where its status goes. */
    method WriteIdentity(cur: u16) returns (last: u16, wrote: u32)
      requires ram != disk && TableOk(desc) && cur < TABLE_SIZE && Whole(desc[cur], base, ram.Length)
      modifies ram
      ensures last == if HasNext(desc[cur]) then desc[cur].next else cur
      ensures Moved(Contents(), wrote, S_OK) == Act(Identify(desc[cur], desc[last]), base, old(Contents()))
    {
      var d := desc[cur];
      last, wrote := cur, 0;
      if Maps(base, ram.Length, d.addr) && d.len >= ID_LEN {
        Put(ram, d.addr - base, Identity());
        wrote := d.len;
      }
      if HasNext(d) {
        last := d.next;
      }
    }

    method FetchHeader(head: u16) returns (kind: u32, off: nat)
      requires Sane(desc, base, ram.Length, head) && GoodHeader(desc, base, ram.Length, head)
      ensures kind == ReadHeader(desc, base, ram[..], head).kind
      ensures off == Offset(ReadHeader(desc, base, ram[..], head))
    {
      WholeAt(desc, base, ram.Length, Path(desc, head), 0);
      var at := desc[head].addr - base;
      hide ReadLe32, ReadLe64, Path, Acyclic;
      kind := ReadLe32(ram[..], at);
      off := ReadLe64(ram[..], at + 8) as int * 512 % U64_RANGE;
    }

    /** Serves the chain at `head`, whose header was found good. */
    method ServeRequest(head: u16) returns (wrote: u32)
      requires ram != disk && Servable(desc, base, Contents(), head) && GoodHeader(desc, base, ram.Length, head)
      modifies ram, disk
      ensures Outcome(Contents(), wrote) == Request(desc, base, old(Contents()), head)
    {
      ghost var was, p := Contents(), PlanOf(desc, base, ram[..], head);
      ghost var path := Rest(desc, base, ram.Length, head);
      PlanCases(desc, base, ram[..], head);
      hide Path, Acyclic, Rest, ReadHeader, PlanOf, Move, Upto, On, Whole, Maps, Offset, AllWhole;
      var kind, off := FetchHeader(head);
      var cur, status := desc[head].next, S_OK;
      if kind == T_FLUSH {
        wrote := 0;
      } else if kind == T_GET_ID {
        cur, wrote := WriteIdentity(cur);
      } else {
        cur, wrote, status := Walk(cur, kind, off, path);
      }
      assert Moved(Contents(), wrote, status) == Act(p, base, was) && desc[cur] == p.status;
      hide *;
      ExecuteIs(desc, base, was, head, p);
      wrote := WriteStatus(desc[cur], status, wrote);
    }

    method WriteStatus(d: Desc, status: byte, wrote: u32) returns (wrote': u32)
      requires ram != disk
      modifies ram
      ensures Outcome(Contents(), wrote') == Finish(base, old(Contents()), d, status, wrote)
    {
      wrote' := wrote;
      if Maps(base, ram.Length, d.addr) {
        ram[d.addr - base] := status;
        wrote' := Len32(wrote + 1);
      }
    }

    /** Serves one chain and returns it. */
    method ServeNext(head: u16, ghost r: VirtQueue.Ring, ghost was: Store, ghost heads: seq<u16>, ghost lens: seq<u32>)
      returns (wrote: u32)
      requires Wired() && VirtQueue.Sized(r) && q.View() == VirtQueue.Serve(r, lens)
      requires Resumed(desc, base, was, heads, lens, Contents()) && |lens| < |heads|
      requires head == heads[|lens|] == VirtQueue.NextHead(q.View())
      requires Sane(desc, base, ram.Length, head) && GoodHeader(desc, base, ram.Length, head)
      modifies q`usedIdx, q`lastAvail, q.used, ram, disk
      ensures Resumed(desc, base, was, heads, lens + [wrote], Contents())
      ensures q.View() == VirtQueue.Serve(r, lens + [wrote])
    {
      ResumedNext(desc, base, was, heads, lens, Contents());
      hide Resumed, Request, Servable, Sane, GoodHeader, VirtQueue.Serve, VirtQueue.NextHead, VirtQueue.ServeLast;
      VirtQueue.ServeOne(r, lens, Request(desc, base, Contents(), head).wrote);
      wrote := ServeRequest(head);
      assert VirtQueue.Serve(r, lens + [wrote]) == VirtQueue.ServeLast(q.View(), wrote);
      VirtQueue.ReturnServes(q.View(), wrote);
      q.Return(head, wrote);
    }

    /** The loop of the drain. */
    method ServeAll() returns (raised: bool)
      requires Wired() && AllServable(desc, base, Contents(), VirtQueue.PendingHeads(q.View()))
      modifies q`usedIdx, q`lastAvail, q.used, ram, disk
      ensures Served(desc, base, old(Contents()), old(q.View()), Contents(), q.View(), raised)
    {
      ghost var r, was := q.View(), Contents();
      ghost var heads := VirtQueue.PendingHeads(r);
      ghost var lens: seq<u32> := [];
      raised := false;
      ResumedStart(desc, base, was, heads);
      hide Resumed, AllServable, Drain, Request, Servable, Sane;
      while q.lastAvail != q.availIdx
        invariant Resumed(desc, base, was, heads, lens, Contents()) && |lens| <= |heads|
        invariant q.View() == VirtQueue.Serve(r, lens)
        invariant raised == (lens != [])
        decreases |heads| - |lens|
      {
        VirtQueue.NextInDrain(r, lens);
        ResumedNext(desc, base, was, heads, lens, Contents());
        SaneHead(desc, base, ram.Length, heads[|lens|]);
        var head := q.Head();
        if !Maps(base, ram.Length, desc[head].addr) || desc[head].len < HEADER_LEN {
          break;
        }
        if !HasNext(desc[head]) {
          break;
        }
        var wrote := ServeNext(head, r, was, heads, lens);
        lens := lens + [wrote];
        raised := true;
      }
      VirtQueue.NextInDrain(r, lens);
      if |lens| == |heads| {
        ResumedEnd(desc, base, was, heads, lens, Contents());
      }
    }

    /** The drain. */
    method ProcessRq() returns (ghost raised: bool)
      requires Wired() && (ready ==> AllServable(desc, base, Contents(), VirtQueue.PendingHeads(q.View())))
      modifies q`usedIdx, q`lastAvail, q.used, ram, disk, `irq
      ensures !ready ==> unchanged(q, q.used, ram, disk) && !raised
      ensures ready ==> Served(desc, base, old(Contents()), old(q.View()), Contents(), q.View(), raised)
      ensures irq == (old(irq) || raised)
    {
      raised := false;
      if !ready {
        return;
      }
      var any := ServeAll();
      raised := any;
      if any {
        irq := true;
      }
    }
  }

  lemma ExecuteIs(desc: seq<Desc>, base: nat, store: Store, head: u16, p: Plan)
    requires Servable(desc, base, store, head) && GoodHeader(desc, base, |store.ram|, head)
    requires p == PlanOf(desc, base, store.ram, head)
    ensures Feasible(p, base, store)
    ensures var m := Act(p, base, store);
            Request(desc, base, store, head) == Finish(base, m.store, p.status, m.status, m.wrote)
  {
  }

  /** What a drain leaves: the store, the ring, and whether it served anything. */
  ghost predicate Served(desc: seq<Desc>, base: nat, was: Store, r: VirtQueue.Ring, now: Store, r': VirtQueue.Ring, any: bool)
  {
    && VirtQueue.Sized(r) && AllServable(desc, base, was, VirtQueue.PendingHeads(r))
    && var d := Drain(desc, base, was, VirtQueue.PendingHeads(r));
       now == d.store && r' == VirtQueue.Serve(r, d.lens) && any == (d.lens != [])
  }

  lemma SaneHead(desc: seq<Desc>, base: nat, size: nat, head: u16)
    requires Sane(desc, base, size, head)
    ensures head < |desc|
  {
  }

  /** The state of the walk in front of the `k`-th descriptor of the path. */
  ghost predicate Walking(desc: seq<Desc>, base: nat, kind: u32, start: nat, path: seq<nat>, k: nat, was: Store,
    cur: u16, off: nat, now: Moved)
  {
    && Walkable(desc, base, |was.ram|, path) && On(desc, path, k) && k < |path| && cur as int == path[k] < |desc|
    && |now.store.ram| == |was.ram|
    && Room(kind, start, Upto(desc, base, |was.ram|, path, |path| - 1), was)
    && Room(kind, start, Upto(desc, base, |was.ram|, path, k), was)
    && off == start + TotalLen(Upto(desc, base, |was.ram|, path, k))
    && now == Move(kind, start, Upto(desc, base, |was.ram|, path, k), was)
  }

  lemma WalkStart(desc: seq<Desc>, base: nat, kind: u32, start: nat, path: seq<nat>, was: Store)
    requires Walkable(desc, base, |was.ram|, path) && On(desc, path, 0)
    requires Room(kind, start, Upto(desc, base, |was.ram|, path, |path| - 1), was)
    ensures Walking(desc, base, kind, start, path, 0, was, path[0], start, Moved(was, 0, S_OK))
  {
    assert Upto(desc, base, |was.ram|, path, 0) == [];
    MoveNothing(kind, start, was);
  }

  /** What one turn of the walk starts from. */
  lemma WalkParts(desc: seq<Desc>, base: nat, size: nat, kind: u32, start: nat, path: seq<nat>, k: nat, was: Store,
      cur: u16, off: nat, now: Moved)
    requires Walking(desc, base, kind, start, path, k, was, cur, off, now) && |now.store.ram| == size
    requires cur < |desc| && HasNext(desc[cur])
    ensures size == |was.ram| && Walkable(desc, base, size, path) && k + 1 < |path| && Whole(desc[cur], base, size)
    ensures On(desc, path, k) && cur as int == path[k] && Room(kind, start, Upto(desc, base, size, path, |path| - 1), was)
    ensures off == start + TotalLen(Upto(desc, base, size, path, k))
    ensures Room(kind, start, Upto(desc, base, size, path, k), was)
    ensures Room(kind, start, Upto(desc, base, size, path, k) + Buffer(desc[cur], base, size), was)
    ensures now == Move(kind, start, Upto(desc, base, size, path, k), was)
  {
    Turn(desc, base, size, path, k);
    hide Room, Upto, Walkable, On, Buffer, Move, Whole, TotalLen;
    RoomUpto(desc, base, size, kind, start, path, k + 1, was);
  }

  /** And what it comes to. */
  lemma WalkFold(desc: seq<Desc>, base: nat, size: nat, kind: u32, start: nat, path: seq<nat>, k: nat, was: Store,
      cur: u16, off: nat, now: Moved)
    requires Walkable(desc, base, size, path) && On(desc, path, k) && k + 1 < |path| && cur as int == path[k] < |desc|
    requires size == |was.ram| && HasNext(desc[cur]) && Whole(desc[cur], base, size)
    requires Room(kind, start, Upto(desc, base, size, path, |path| - 1), was)
    requires Room(kind, start, Upto(desc, base, size, path, k) + Buffer(desc[cur], base, size), was)
    requires off == start + TotalLen(Upto(desc, base, size, path, k) + Buffer(desc[cur], base, size))
    requires now == Move(kind, start, Upto(desc, base, size, path, k) + Buffer(desc[cur], base, size), was)
    ensures Walking(desc, base, kind, start, path, k + 1, was, desc[cur].next, off, now)
  {
    Turn(desc, base, size, path, k);
    hide Room, Upto, Walkable, On, Buffer, Move, Whole, TotalLen;
  }

  lemma WalkEnd(desc: seq<Desc>, base: nat, kind: u32, start: nat, path: seq<nat>, k: nat, was: Store,
      cur: u16, off: nat, now: Moved)
    requires Walking(desc, base, kind, start, path, k, was, cur, off, now)
    requires !(cur < |desc| && HasNext(desc[cur]))
    ensures k + 1 == |path| && cur == path[k]
    ensures now == Move(kind, start, Upto(desc, base, |was.ram|, path, k), was)
  {
    Turn(desc, base, |was.ram|, path, k);
    hide Room, Upto, Walkable, On, Move;
  }

  lemma RoomUpto(desc: seq<Desc>, base: nat, size: nat, kind: u32, start: nat, path: seq<nat>, k: nat, was: Store)
    requires Walkable(desc, base, size, path) && size == |was.ram| && k < |path|
    requires Room(kind, start, Upto(desc, base, size, path, |path| - 1), was)
    ensures Room(kind, start, Upto(desc, base, size, path, k), was)
  {
    UptoLen(desc, base, size, path, k, |path| - 1);
    hide Upto, TotalLen;
  }
}
