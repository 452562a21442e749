/**
 Guest RAM, descriptors, and the walk along a descriptor chain. A chain's buffers are a list of
 stretches of RAM; gathering reads them as one byte string, scattering writes one over them.
 */
module GuestMemory {
  import opened Bytes

  const TABLE_SIZE := 256

  datatype Desc = Desc(addr: u64, len: u32, flags: u16, next: u16)

  predicate HasNext(d: Desc)
  {
    d.flags % 2 == 1
  }

  predicate DeviceWrites(d: Desc)
  {
    d.flags / 2 % 2 == 1
  }

  /** `gpa_to_hva`: only the first byte of a buffer is looked at. */
  predicate Maps(base: nat, size: nat, gpa: nat)
  {
    base <= gpa < base + size
  }

  // ── Stretches of RAM ──────────────────────────────────────────────────────

  datatype Seg = Seg(off: nat, len: nat)

  predicate Fits(seg: Seg, size: nat)
  {
    seg.off + seg.len <= size
  }

  predicate AllFit(segs: seq<Seg>, size: nat)
  {
    forall i :: 0 <= i < |segs| ==> Fits(segs[i], size)
  }

  function TotalLen(segs: seq<Seg>): nat
  {
    if segs == [] then 0 else segs[0].len + TotalLen(segs[1..])
  }

  function Gather(ram: seq<byte>, segs: seq<Seg>): (data: seq<byte>)
    requires AllFit(segs, |ram|)
    ensures |data| == TotalLen(segs)
  {
    if segs == [] then [] else ram[segs[0].off..segs[0].off + segs[0].len] + Gather(ram, segs[1..])
  }

  function Scatter(ram: seq<byte>, segs: seq<Seg>, data: seq<byte>): (ram': seq<byte>)
    requires AllFit(segs, |ram|) && |data| == TotalLen(segs)
    ensures |ram'| == |ram|
    decreases segs
  {
    if segs == [] then ram
    else Scatter(Splice(ram, segs[0].off, data[..segs[0].len]), segs[1..], data[segs[0].len..])
  }

  predicate Inside(x: nat, seg: Seg)
  {
    seg.off <= x < seg.off + seg.len
  }

  predicate Touches(x: nat, segs: seq<Seg>)
  {
    exists i :: 0 <= i < |segs| && Inside(x, segs[i])
  }

  predicate Apart(a: Seg, b: Seg)
  {
    a.off + a.len <= b.off || b.off + b.len <= a.off
  }

  predicate Disjoint(segs: seq<Seg>)
  {
    forall i, j :: 0 <= i < j < |segs| ==> Apart(segs[i], segs[j])
  }

  /** Bytes outside the buffers keep their values. */
  lemma {:induction false} ScatterFrame(ram: seq<byte>, segs: seq<Seg>, data: seq<byte>, x: nat)
    requires AllFit(segs, |ram|) && |data| == TotalLen(segs) && x < |ram| && !Touches(x, segs)
    ensures Scatter(ram, segs, data)[x] == ram[x]
    decreases segs
  {
    if segs != [] {
      assert !Inside(x, segs[0]);
      assert forall i :: 0 <= i < |segs| - 1 ==> segs[1..][i] == segs[i + 1];
      ScatterFrame(Splice(ram, segs[0].off, data[..segs[0].len]), segs[1..], data[segs[0].len..], x);
    }
  }

  lemma SpliceRead(ram: seq<byte>, s: Seg, d: seq<byte>)
    requires Fits(s, |ram|) && |d| == s.len
    ensures Splice(ram, s.off, d)[s.off..s.off + s.len] == d
  {
  }

  /** A stretch apart from every buffer reads the same after scattering. */
  lemma ScatterApart(ram: seq<byte>, segs: seq<Seg>, data: seq<byte>, s: Seg)
    requires AllFit(segs, |ram|) && |data| == TotalLen(segs) && Fits(s, |ram|)
    requires forall i :: 0 <= i < |segs| ==> Apart(s, segs[i])
    ensures Scatter(ram, segs, data)[s.off..s.off + s.len] == ram[s.off..s.off + s.len]
  {
    forall x | s.off <= x < s.off + s.len ensures Scatter(ram, segs, data)[x] == ram[x] {
      assert !Touches(x, segs);
      ScatterFrame(ram, segs, data, x);
    }
    hide Scatter;
  }

  lemma GatherFirst(ram: seq<byte>, segs: seq<Seg>)
    requires AllFit(segs, |ram|) && segs != []
    ensures Fits(segs[0], |ram|) && AllFit(segs[1..], |ram|) && TotalLen(segs) == segs[0].len + TotalLen(segs[1..])
    ensures segs[0].off + segs[0].len <= |ram|
    ensures Gather(ram, segs) == ram[segs[0].off..segs[0].off + segs[0].len] + Gather(ram, segs[1..])
  {
  }

  lemma ApartFromRest(segs: seq<Seg>)
    requires Disjoint(segs) && segs != []
    ensures Disjoint(segs[1..]) && forall i :: 0 <= i < |segs[1..]| ==> Apart(segs[0], segs[1..][i])
  {
    assert forall i :: 0 <= i < |segs| - 1 ==> segs[1..][i] == segs[i + 1];
  }

  /** Nothing is gathered from no buffers; `GatherAppend` says what one buffer more adds. */
  lemma GatherNone(ram: seq<byte>)
    ensures Gather(ram, []) == []
  {
  }

  /** Gathering undoes scattering when the buffers do not overlap. */
  lemma {:induction false} GatherScatter(ram: seq<byte>, segs: seq<Seg>, data: seq<byte>)
    requires AllFit(segs, |ram|) && |data| == TotalLen(segs) && Disjoint(segs)
    ensures Gather(Scatter(ram, segs, data), segs) == data
    decreases segs
  {
    if segs != [] {
      var s, rest, d, tail := segs[0], segs[1..], data[..segs[0].len], data[segs[0].len..];
      ApartFromRest(segs);
      GatherFirst(ram, segs);
      var ram1 := Splice(ram, s.off, d);
      var ram2 := Scatter(ram1, rest, tail);
      assert ram2 == Scatter(ram, segs, data);
      assert |tail| == TotalLen(rest) && |ram1| == |ram| == |ram2| && data == d + tail;
      GatherFirst(ram2, segs);
      hide *;
      assert Gather(ram2, rest) == tail by {
        GatherScatter(ram1, rest, tail);
      }
      assert ram2[s.off..s.off + s.len] == d by {
        SpliceRead(ram, s, d);
        ScatterApart(ram1, rest, tail, s);
      }
    }
  }

  /** What is gathered depends only on the bytes in the buffers. */
  lemma {:induction false} GatherSame(ram: seq<byte>, ram': seq<byte>, segs: seq<Seg>)
    requires |ram| == |ram'| && AllFit(segs, |ram|)
    requires forall x :: 0 <= x < |ram| && Touches(x, segs) ==> ram'[x] == ram[x]
    ensures Gather(ram', segs) == Gather(ram, segs)
    decreases segs
  {
    if segs != [] {
      var s, rest := segs[0], segs[1..];
      GatherFirst(ram, segs);
      GatherFirst(ram', segs);
      hide Gather, TotalLen, AllFit;
      assert ram'[s.off..s.off + s.len] == ram[s.off..s.off + s.len] by {
        assert forall x :: s.off <= x < s.off + s.len ==> Inside(x, segs[0]);
        assert forall x :: s.off <= x < s.off + s.len ==> Touches(x, segs);
        hide Touches, Inside;
      }
      assert forall x :: 0 <= x < |ram| && Touches(x, rest) ==> Touches(x, segs) by {
        forall x | 0 <= x < |ram| && Touches(x, rest) ensures Touches(x, segs) {
          var i :| 0 <= i < |rest| && Inside(x, rest[i]);
          assert Inside(x, segs[i + 1]);
        }
      }
      hide *;
      GatherSame(ram, ram', rest);
    }
  }

  lemma {:induction false} GatherAppend(ram: seq<byte>, segs: seq<Seg>, s: Seg)
    requires AllFit(segs, |ram|) && Fits(s, |ram|)
    ensures AllFit(segs + [s], |ram|) && Gather(ram, segs + [s]) == Gather(ram, segs) + ram[s.off..s.off + s.len]
    decreases segs
  {
    assert forall i :: 0 <= i < |segs| ==> (segs + [s])[i] == segs[i];
    assert (segs + [s])[|segs|] == s;
    if segs == [] {
      assert segs + [s] == [s] && [s][1..] == [];
    } else {
      assert (segs + [s])[1..] == segs[1..] + [s];
      GatherAppend(ram, segs[1..], s);
    }
  }

  lemma {:induction false} ScatterAppend(ram: seq<byte>, segs: seq<Seg>, s: Seg, data: seq<byte>, more: seq<byte>)
    requires AllFit(segs, |ram|) && Fits(s, |ram|) && |data| == TotalLen(segs) && |more| == s.len
    ensures AllFit(segs + [s], |ram|) && TotalLen(segs + [s]) == TotalLen(segs) + s.len
    ensures Scatter(ram, segs + [s], data + more) == Splice(Scatter(ram, segs, data), s.off, more)
    decreases segs
  {
    assert forall i :: 0 <= i < |segs| ==> (segs + [s])[i] == segs[i];
    assert (segs + [s])[|segs|] == s;
    if segs == [] {
      assert segs + [s] == [s] && [s][1..] == [] && data + more == more && more[..s.len] == more;
    } else {
      assert (segs + [s])[1..] == segs[1..] + [s];
      var n := segs[0].len;
      assert (data + more)[..n] == data[..n] && (data + more)[n..] == data[n..] + more;
      ScatterAppend(Splice(ram, segs[0].off, data[..n]), segs[1..], s, data[n..], more);
    }
  }

  // ── Chains ────────────────────────────────────────────────────────────────

  predicate TableOk(desc: seq<Desc>)
  {
    |desc| == TABLE_SIZE && forall i :: 0 <= i < |desc| ==> desc[i].next < TABLE_SIZE
  }

  /** The descriptors reached from `cur` by following at most `hops` links. */
  function Follow(desc: seq<Desc>, cur: nat, hops: nat): (path: seq<nat>)
    requires TableOk(desc) && cur < TABLE_SIZE
    ensures 1 <= |path| <= hops + 1 && path[0] == cur
    ensures forall i :: 0 <= i < |path| ==> path[i] < TABLE_SIZE
    decreases hops
  {
    if hops == 0 || !HasNext(desc[cur]) then [cur] else [cur] + Follow(desc, desc[cur].next, hops - 1)
  }

  predicate EndsWithin(desc: seq<Desc>, cur: nat, hops: nat)
    requires TableOk(desc) && cur < TABLE_SIZE
  {
    var path := Follow(desc, cur, hops); !HasNext(desc[path[|path| - 1]])
  }

  /** A chain without a cycle ends within as many hops as the table has entries. */
  predicate Acyclic(desc: seq<Desc>, cur: nat)
    requires TableOk(desc) && cur < TABLE_SIZE
  {
    EndsWithin(desc, cur, |desc|)
  }

  function Path(desc: seq<Desc>, cur: nat): (path: seq<nat>)
    requires TableOk(desc) && cur < TABLE_SIZE
    ensures |path| >= 1 && path[0] == cur
    ensures forall i :: 0 <= i < |path| ==> path[i] < TABLE_SIZE
  {
    Follow(desc, cur, |desc|)
  }

  lemma {:induction false} MoreHops(desc: seq<Desc>, cur: nat, m: nat, n: nat)
    requires TableOk(desc) && cur < TABLE_SIZE && EndsWithin(desc, cur, m) && m <= n
    ensures Follow(desc, cur, n) == Follow(desc, cur, m)
    decreases m
  {
    if HasNext(desc[cur]) {
      var p, q := Follow(desc, cur, m), Follow(desc, desc[cur].next, m - 1);
      assert p[|p| - 1] == q[|q| - 1];
      MoreHops(desc, desc[cur].next, m - 1, n - 1);
    }
  }

  /** One hop along a chain leaves the rest of it. */
  lemma NextHop(desc: seq<Desc>, cur: nat)
    requires TableOk(desc) && cur < TABLE_SIZE && Acyclic(desc, cur)
    ensures HasNext(desc[cur]) ==>
              Acyclic(desc, desc[cur].next) && Path(desc, cur) == [cur] + Path(desc, desc[cur].next)
    ensures !HasNext(desc[cur]) ==> Path(desc, cur) == [cur]
  {
    if HasNext(desc[cur]) {
      FirstHop(desc, cur, |desc| - 1);
      hide Follow, EndsWithin;
      MoreHops(desc, desc[cur].next, |desc| - 1, |desc|);
    }
  }

  lemma FirstHop(desc: seq<Desc>, cur: nat, n: nat)
    requires TableOk(desc) && cur < TABLE_SIZE && EndsWithin(desc, cur, n + 1) && HasNext(desc[cur])
    ensures EndsWithin(desc, desc[cur].next, n) && EndsWithin(desc, desc[cur].next, n + 1)
    ensures Follow(desc, cur, n + 1) == [cur] + Follow(desc, desc[cur].next, n)
  {
    var p, q := Follow(desc, cur, n + 1), Follow(desc, desc[cur].next, n);
    assert p == [cur] + q;
    assert p[|p| - 1] == q[|q| - 1];
    assert EndsWithin(desc, desc[cur].next, n);
    hide Follow;
    MoreHops(desc, desc[cur].next, n, n + 1);
  }

  /** A walk along a path: where the path continues at index `k`, it is the chain from there. */
  predicate Along(desc: seq<Desc>, path: seq<nat>, k: nat)
    requires TableOk(desc)
  {
    IsPath(path) && k < |path| && Acyclic(desc, path[k]) && Path(desc, path[k]) == path[k..]
  }

  lemma HopAlong(desc: seq<Desc>, path: seq<nat>, k: nat)
    requires TableOk(desc) && Along(desc, path, k)
    ensures HasNext(desc[path[k]]) ==> Along(desc, path, k + 1) && path[k + 1] == desc[path[k]].next
    ensures !HasNext(desc[path[k]]) ==> k + 1 == |path|
  {
    NextHop(desc, path[k]);
    var rest := path[k..];
    if HasNext(desc[path[k]]) {
      assert rest == [path[k]] + Path(desc, desc[path[k]].next);
      assert path[k + 1] == rest[1] && path[k + 1..] == rest[1..];
    }
  }

  /** The descriptors on `path` are linked one to the next, and the last to none. */
  predicate Linked(desc: seq<Desc>, path: seq<nat>)
  {
    && path != [] && (forall i :: 0 <= i < |path| ==> path[i] < |desc|)
    && (forall i :: 0 <= i < |path| - 1 ==> desc[path[i]].flags % 2 == 1 && desc[path[i]].next as int == path[i + 1])
    && desc[path[|path| - 1]].flags % 2 == 0
  }

  lemma {:induction false} LinkedFollows(desc: seq<Desc>, path: seq<nat>, hops: nat)
    requires TableOk(desc) && Linked(desc, path) && |path| <= hops + 1
    ensures Follow(desc, path[0], hops) == path
    decreases hops
  {
    if |path| > 1 {
      assert desc[path[0]].next as int == path[1];
      var tail := path[1..];
      assert forall i :: 0 <= i < |tail| ==> tail[i] == path[i + 1];
      assert Linked(desc, tail) && tail[0] < TABLE_SIZE;
      LinkedFollows(desc, tail, hops - 1);
      assert Follow(desc, path[0], hops) == [path[0]] + Follow(desc, tail[0], hops - 1);
      hide *;
      assert path == [path[0]] + tail;
    }
  }

  /** Descriptors so linked are the chain of the first of them. */
  lemma LinkedIsPath(desc: seq<Desc>, path: seq<nat>)
    requires TableOk(desc) && Linked(desc, path) && |path| <= 256
    ensures Acyclic(desc, path[0]) && Path(desc, path[0]) == path
  {
    LinkedFollows(desc, path, |desc|);
  }

  // ── The buffers of a chain ────────────────────────────────────────────────

  predicate IsPath(path: seq<nat>)
  {
    forall i :: 0 <= i < |path| ==> path[i] < TABLE_SIZE
  }

  /** A buffer that starts in RAM also ends there. */
  predicate Whole(d: Desc, base: nat, size: nat)
  {
    Maps(base, size, d.addr) ==> d.addr as int + d.len as int <= base + size
  }

  predicate AllWhole(desc: seq<Desc>, base: nat, size: nat, path: seq<nat>)
    requires TableOk(desc) && IsPath(path)
  {
    forall i :: 0 <= i < |path| ==> Whole(desc[path[i]], base, size)
  }

  /** The mapped, nonempty buffers of the descriptors on a path. */
  function Buffers(desc: seq<Desc>, base: nat, size: nat, path: seq<nat>): (segs: seq<Seg>)
    requires TableOk(desc) && IsPath(path) && AllWhole(desc, base, size, path)
    ensures AllFit(segs, size)
    decreases path
  {
    if path == [] then [] else Buffer(desc[path[0]], base, size) + Buffers(desc, base, size, path[1..])
  }

  function Buffer(d: Desc, base: nat, size: nat): (segs: seq<Seg>)
    requires Whole(d, base, size)
    ensures AllFit(segs, size) && TotalLen(segs) == if Maps(base, size, d.addr) then d.len else 0
  {
    if Maps(base, size, d.addr) && d.len != 0 then [Seg(d.addr as int - base, d.len)] else []
  }

  lemma {:induction false} TotalLenAppend(xs: seq<Seg>, ys: seq<Seg>)
    ensures TotalLen(xs + ys) == TotalLen(xs) + TotalLen(ys)
  {
    if xs == [] {
      assert xs + ys == ys;
    } else {
      assert (xs + ys)[1..] == xs[1..] + ys;
      TotalLenAppend(xs[1..], ys);
    }
  }

  lemma {:induction false} BuffersConcat(desc: seq<Desc>, base: nat, size: nat, xs: seq<nat>, ys: seq<nat>)
    requires TableOk(desc) && IsPath(xs) && IsPath(ys) && IsPath(xs + ys)
    requires AllWhole(desc, base, size, xs) && AllWhole(desc, base, size, ys) && AllWhole(desc, base, size, xs + ys)
    ensures Buffers(desc, base, size, xs + ys) == Buffers(desc, base, size, xs) + Buffers(desc, base, size, ys)
    decreases xs
  {
    if xs == [] {
      assert xs + ys == ys;
    } else {
      assert (xs + ys)[1..] == xs[1..] + ys;
      assert (xs + ys)[0] == xs[0];
      BuffersConcat(desc, base, size, xs[1..], ys);
    }
  }

  /** A descriptor's buffer counts if its first byte is mapped and it is not empty. */
  lemma BufferIs(d: Desc, base: nat, size: nat)
    requires Whole(d, base, size)
    ensures Buffer(d, base, size)
         == if base <= d.addr < base + size && d.len > 0 then [Seg(d.addr as int - base, d.len)] else []
  {
  }

  /** When all are mapped and none is empty, the buffers are those of the descriptors, one by one. */
  lemma {:induction false} BuffersAt(desc: seq<Desc>, base: nat, size: nat, path: seq<nat>, i: nat)
    requires TableOk(desc) && IsPath(path) && AllWhole(desc, base, size, path) && i < |path|
    requires forall j :: 0 <= j < |path| ==> base <= desc[path[j]].addr < base + size && desc[path[j]].len > 0
    ensures var segs := Buffers(desc, base, size, path);
            |segs| == |path| && segs[i] == Seg(desc[path[i]].addr as int - base, desc[path[i]].len)
    decreases path
  {
    var s, tail := Seg(desc[path[0]].addr as int - base, desc[path[0]].len), path[1..];
    assert Whole(desc[path[0]], base, size);
    assert forall j :: 0 <= j < |tail| ==> tail[j] == path[j + 1];
    assert Buffers(desc, base, size, path) == [s] + Buffers(desc, base, size, tail);
    if i > 0 {
      BuffersAt(desc, base, size, tail, i - 1);
    } else if tail != [] {
      BuffersAt(desc, base, size, tail, 0);
    }
  }

  /** One descriptor more. */
  lemma BuffersNext(desc: seq<Desc>, base: nat, size: nat, path: seq<nat>, k: nat)
    requires TableOk(desc) && IsPath(path) && AllWhole(desc, base, size, path) && k < |path|
    ensures Whole(desc[path[k]], base, size)
    ensures Buffers(desc, base, size, path[..k + 1])
            == Buffers(desc, base, size, path[..k]) + Buffer(desc[path[k]], base, size)
    ensures TotalLen(Buffers(desc, base, size, path[..k + 1]))
            == TotalLen(Buffers(desc, base, size, path[..k])) + TotalLen(Buffer(desc[path[k]], base, size))
  {
    var last := [path[k]];
    assert path[..k + 1] == path[..k] + last;
    assert last[1..] == [];
    assert Buffers(desc, base, size, last) == Buffer(desc[path[k]], base, size);
    BuffersConcat(desc, base, size, path[..k], last);
    hide Buffers, Buffer;
    TotalLenAppend(Buffers(desc, base, size, path[..k]), Buffer(desc[path[k]], base, size));
  }

  /** A path whose buffers lie wholly in RAM. */
  predicate Walkable(desc: seq<Desc>, base: nat, size: nat, path: seq<nat>)
  {
    TableOk(desc) && IsPath(path) && path != [] && AllWhole(desc, base, size, path)
  }

  /** The buffers of the first `k` descriptors on a path. */
  function Upto(desc: seq<Desc>, base: nat, size: nat, path: seq<nat>, k: nat): (segs: seq<Seg>)
    requires Walkable(desc, base, size, path) && k <= |path|
    ensures AllFit(segs, size)
  {
    Buffers(desc, base, size, path[..k])
  }

  predicate On(desc: seq<Desc>, path: seq<nat>, k: nat)
  {
    TableOk(desc) && Along(desc, path, k)
  }

  /** One turn of a walk. */
  lemma Turn(desc: seq<Desc>, base: nat, size: nat, path: seq<nat>, k: nat)
    requires Walkable(desc, base, size, path) && On(desc, path, k)
    ensures k < |path| && path[k] < |desc| && Whole(desc[path[k]], base, size)
    ensures HasNext(desc[path[k]]) ==>
              k + 1 < |path| && On(desc, path, k + 1) && path[k + 1] == desc[path[k]].next < |desc|
    ensures !HasNext(desc[path[k]]) ==> k + 1 == |path|
    ensures Upto(desc, base, size, path, k + 1)
            == Upto(desc, base, size, path, k) + Buffer(desc[path[k]], base, size)
  {
    HopAlong(desc, path, k);
    BuffersNext(desc, base, size, path, k);
    hide Buffers, Buffer, Acyclic, Path, TotalLen;
  }

  lemma UptoNext(desc: seq<Desc>, base: nat, size: nat, path: seq<nat>, k: nat)
    requires Walkable(desc, base, size, path) && k < |path|
    ensures TotalLen(Upto(desc, base, size, path, k)) <= TotalLen(Upto(desc, base, size, path, k + 1))
  {
    BuffersNext(desc, base, size, path, k);
    hide Buffers, Buffer, TotalLen;
  }

  lemma {:induction false} UptoLen(desc: seq<Desc>, base: nat, size: nat, path: seq<nat>, k: nat, m: nat)
    requires Walkable(desc, base, size, path) && k <= m <= |path|
    ensures TotalLen(Upto(desc, base, size, path, k)) <= TotalLen(Upto(desc, base, size, path, m))
    decreases m
  {
    hide *;
    if k < m {
      UptoNext(desc, base, size, path, m - 1);
      UptoLen(desc, base, size, path, k, m - 1);
    }
  }

  /** The chain after its first descriptor. */
  lemma TailPath(desc: seq<Desc>, base: nat, size: nat, cur: nat)
    requires TableOk(desc) && cur < TABLE_SIZE && Acyclic(desc, cur) && HasNext(desc[cur])
    requires AllWhole(desc, base, size, Path(desc, cur))
    ensures Acyclic(desc, desc[cur].next) && Walkable(desc, base, size, Path(desc, desc[cur].next))
    ensures On(desc, Path(desc, desc[cur].next), 0)
  {
    NextHop(desc, cur);
    var path, tail := Path(desc, cur), Path(desc, desc[cur].next);
    assert tail[0..] == tail;
    hide Path, Acyclic, Whole;
    forall i | 0 <= i < |tail| ensures Whole(desc[tail[i]], base, size) {
      assert path[i + 1] == tail[i];
    }
  }

  /** Assumed of each chain: it ends, and its buffers lie wholly in RAM. */
  predicate Sane(desc: seq<Desc>, base: nat, size: nat, head: u16)
  {
    && TableOk(desc) && head < TABLE_SIZE && Acyclic(desc, head)
    && AllWhole(desc, base, size, Path(desc, head))
  }

  lemma SanePath(desc: seq<Desc>, base: nat, size: nat, head: u16)
    requires Sane(desc, base, size, head)
    ensures Walkable(desc, base, size, Path(desc, head)) && On(desc, Path(desc, head), 0) && head < |desc|
    ensures Path(desc, head)[0] == head
  {
    var path := Path(desc, head);
    assert path[0..] == path;
    hide Path, Acyclic, Whole;
  }

  /** A chain that ends does not come back to its head. */
  lemma NoReturn(desc: seq<Desc>, path: seq<nat>, k: nat)
    requires On(desc, path, 0) && On(desc, path, k) && k > 0
    ensures path[k] != path[0]
  {
    assert |path[0..]| == |path| && |path[k..]| == |path| - k;
    hide Path, Acyclic;
  }
}
