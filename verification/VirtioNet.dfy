/**
 The network device: received frames are poured into one chain behind an empty header, transmitted
 chains are gathered into frames.
 */
module VirtioNet {
  import opened Bytes
  import opened GuestMemory
  import VirtQueue

  const HEADER_LEN := 12

  // ── Pouring a byte string into buffers ────────────────────────────────────

  /** RAM after writing, and how much was written. */
  datatype Poured = Poured(ram: seq<byte>, wrote: nat)

  /** The rest of a pour, after `n` bytes. */
  function More(n: nat, p: Poured): Poured
  {
    Poured(p.ram, n + p.wrote)
  }

  /** Fills the buffers in order until the data or the room runs out. */
  function Pour(ram: seq<byte>, segs: seq<Seg>, data: seq<byte>): (p: Poured)
    requires AllFit(segs, |ram|)
    ensures |p.ram| == |ram|
    decreases segs
  {
    if segs == [] || data == [] then Poured(ram, 0)
    else
      var n := Min(|data|, segs[0].len);
      var p := Pour(Splice(ram, segs[0].off, data[..n]), segs[1..], data[n..]);
      Poured(p.ram, n + p.wrote)
  }

  /** As much is written as fits. */
  lemma {:induction false} PourLen(ram: seq<byte>, segs: seq<Seg>, data: seq<byte>)
    requires AllFit(segs, |ram|)
    ensures Pour(ram, segs, data).wrote == Min(|data|, TotalLen(segs))
    decreases segs
  {
    if segs != [] && data != [] {
      var n := Min(|data|, segs[0].len);
      PourLen(Splice(ram, segs[0].off, data[..n]), segs[1..], data[n..]);
    }
  }

  /** Bytes outside the buffers keep their values. */
  lemma {:induction false} PourFrame(ram: seq<byte>, segs: seq<Seg>, data: seq<byte>, x: nat)
    requires AllFit(segs, |ram|) && x < |ram| && !Touches(x, segs)
    ensures Pour(ram, segs, data).ram[x] == ram[x]
    decreases segs
  {
    if segs != [] && data != [] {
      assert !Inside(x, segs[0]);
      assert forall i :: 0 <= i < |segs| - 1 ==> segs[1..][i] == segs[i + 1];
      var n := Min(|data|, segs[0].len);
      PourFrame(Splice(ram, segs[0].off, data[..n]), segs[1..], data[n..], x);
    }
  }

  lemma PourApart(ram: seq<byte>, segs: seq<Seg>, data: seq<byte>, s: Seg)
    requires AllFit(segs, |ram|) && Fits(s, |ram|)
    requires forall i :: 0 <= i < |segs| ==> Apart(s, segs[i])
    ensures Pour(ram, segs, data).ram[s.off..s.off + s.len] == ram[s.off..s.off + s.len]
  {
    forall x | s.off <= x < s.off + s.len ensures Pour(ram, segs, data).ram[x] == ram[x] {
      assert !Touches(x, segs);
      PourFrame(ram, segs, data, x);
    }
    hide Pour;
  }

  lemma GatherApart(ram: seq<byte>, segs: seq<Seg>, off: nat, data: seq<byte>, s: Seg)
    requires AllFit(segs, |ram|) && Fits(s, |ram|) && s.off == off && |data| <= s.len
    requires forall i :: 0 <= i < |segs| ==> Apart(s, segs[i])
    ensures Gather(Splice(ram, off, data), segs) == Gather(ram, segs)
  {
    var ram' := Splice(ram, off, data);
    forall x | 0 <= x < |ram| && Touches(x, segs) ensures ram'[x] == ram[x] {
    }
    hide Touches, Splice;
    GatherSame(ram, ram', segs);
  }

  /** As much of `data` as fits, over what was held before. */
  function Overlay(data: seq<byte>, held: seq<byte>): (r: seq<byte>)
    ensures |r| == |held|
  {
    var n := Min(|data|, |held|);
    data[..n] + held[n..]
  }

  /** What the buffers hold afterwards: the data that fitted, then what was there before. */
  lemma {:induction false} GatherPour(ram: seq<byte>, segs: seq<Seg>, data: seq<byte>)
    requires AllFit(segs, |ram|) && Disjoint(segs)
    ensures Gather(Pour(ram, segs, data).ram, segs) == Overlay(data, Gather(ram, segs))
    decreases segs
  {
    if segs != [] && data != [] {
      var s, rest, n := segs[0], segs[1..], Min(|data|, segs[0].len);
      var ram1 := PourParts(ram, segs, data);
      hide *;
      var b := data[n..];
      GatherPour(ram1, rest, b);
      GatherFirst(ram, segs);
      GatherFirst(Pour(ram1, rest, b).ram, segs);
      OverlayBoth(data, ram[s.off..s.off + s.len], Gather(ram, rest), n);
    }
  }

  /** RAM once the first buffer is filled; what the other buffers hold, and later what the first holds, stays. */
  lemma PourParts(ram: seq<byte>, segs: seq<Seg>, data: seq<byte>) returns (ram1: seq<byte>)
    requires AllFit(segs, |ram|) && Disjoint(segs) && segs != [] && data != []
    ensures AllFit(segs[1..], |ram|) && Disjoint(segs[1..]) && |ram1| == |ram|
    ensures segs[0].off + segs[0].len <= |ram|
    ensures var s, n := segs[0], Min(|data|, segs[0].len);
            var ram2 := Pour(ram1, segs[1..], data[n..]).ram;
            && Pour(ram, segs, data).ram == ram2
            && ram2[s.off..s.off + s.len] == Overlay(data, ram[s.off..s.off + s.len])
            && Gather(ram1, segs[1..]) == Gather(ram, segs[1..])
  {
    var s, rest, n := segs[0], segs[1..], Min(|data|, segs[0].len);
    ApartFromRest(segs);
    ram1 := Splice(ram, s.off, data[..n]);
    assert AllFit(rest, |ram|) && Fits(s, |ram|) && s.off + s.len <= |ram|;
    assert Pour(ram, segs, data).ram == Pour(ram1, rest, data[n..]).ram by { hide Splice, AllFit, Disjoint; }
    hide *;
    SpliceHead(ram, s, data, n);
    PourApart(ram1, rest, data[n..], s);
    GatherApart(ram, rest, s.off, data[..n], s);
  }

  /** Laying data over two stretches is laying it over the first, and what is left over the second. */
  lemma OverlayBoth(data: seq<byte>, h: seq<byte>, g: seq<byte>, n: nat)
    requires n == Min(|data|, |h|)
    ensures Overlay(data, h + g) == Overlay(data, h) + Overlay(data[n..], g)
  {
    var x, y := Overlay(data, h + g), Overlay(data, h) + Overlay(data[n..], g);
    forall i | 0 <= i < |h| + |g| ensures x[i] == y[i] {
      OverlayAt(data, h + g, i);
      if i < |h| {
        OverlayAt(data, h, i);
      } else {
        OverlayAt(data[n..], g, i - |h|);
      }
    }
    hide Overlay, Min;
  }

  lemma OverlayAt(data: seq<byte>, held: seq<byte>, i: nat)
    requires i < |held|
    ensures Overlay(data, held)[i] == if i < |data| then data[i] else held[i]
  {
  }

  lemma SpliceHead(ram: seq<byte>, s: Seg, data: seq<byte>, n: nat)
    requires Fits(s, |ram|) && s.off + s.len <= |ram| && n == Min(|data|, s.len)
    ensures Splice(ram, s.off, data[..n])[s.off..s.off + s.len] == Overlay(data, ram[s.off..s.off + s.len])
  {
    var held, r := ram[s.off..s.off + s.len], Splice(ram, s.off, data[..n]);
    var t := r[s.off..s.off + s.len];
    forall i | 0 <= i < s.len ensures t[i] == Overlay(data, held)[i] {
      OverlayAt(data, held, i);
      assert t[i] == r[s.off + i];
    }
    hide Overlay;
  }

  // ── Receiving ─────────────────────────────────────────────────────────────

  /** The buffers up to the first that is not mapped. */
  function MappedSegs(desc: seq<Desc>, base: nat, size: nat, path: seq<nat>): (segs: seq<Seg>)
    requires TableOk(desc) && IsPath(path) && AllWhole(desc, base, size, path)
    ensures AllFit(segs, size)
    decreases path
  {
    if path == [] || !Maps(base, size, desc[path[0]].addr) then []
    else [Seg(desc[path[0]].addr as int - base, desc[path[0]].len)] + MappedSegs(desc, base, size, path[1..])
  }

  /** Buffer by buffer, in chain order, up to the first that is not mapped. */
  lemma MappedFirst(desc: seq<Desc>, base: nat, size: nat, path: seq<nat>)
    requires TableOk(desc) && IsPath(path) && AllWhole(desc, base, size, path)
    ensures path == [] ==> MappedSegs(desc, base, size, path) == []
    ensures path != [] ==>
              && IsPath(path[1..]) && AllWhole(desc, base, size, path[1..])
              && MappedSegs(desc, base, size, path)
                 == if base <= desc[path[0]].addr < base + size
                    then [Seg(desc[path[0]].addr as int - base, desc[path[0]].len)] + MappedSegs(desc, base, size, path[1..]) else []
  {
  }

  /** The header goes only into a first buffer that can hold it. */
  predicate TakesHeader(d: Desc, base: nat, size: nat)
  {
    Maps(base, size, d.addr) && d.len >= HEADER_LEN
  }

  function Header(d: Desc, base: nat, size: nat): seq<byte>
  {
    if TakesHeader(d, base, size) then Zeros(HEADER_LEN) else []
  }

  /** What feeding a frame to the chain on `path` does. */
  function Feed(desc: seq<Desc>, base: nat, ram: seq<byte>, path: seq<nat>, frame: seq<byte>): (p: Poured)
    requires Walkable(desc, base, |ram|, path)
    ensures |p.ram| == |ram|
  {
    Pour(ram, MappedSegs(desc, base, |ram|, path), Header(desc[path[0]], base, |ram|) + frame)
  }

  predicate AllMapped(desc: seq<Desc>, base: nat, size: nat, path: seq<nat>)
    requires TableOk(desc) && IsPath(path)
  {
    forall i :: 0 <= i < |path| ==> Maps(base, size, desc[path[i]].addr)
  }

  /** When all buffers are mapped, receiving and transmitting walk the same bytes. */
  lemma {:induction false} SameBytes(desc: seq<Desc>, base: nat, ram: seq<byte>, path: seq<nat>)
    requires TableOk(desc) && IsPath(path) && AllWhole(desc, base, |ram|, path) && AllMapped(desc, base, |ram|, path)
    ensures Gather(ram, MappedSegs(desc, base, |ram|, path)) == Gather(ram, Buffers(desc, base, |ram|, path))
    decreases path
  {
    if path != [] {
      var rest, more := PathParts(desc, base, |ram|, path);
      var d := desc[path[0]];
      hide *;
      SameBytes(desc, base, ram, path[1..]);
      GatherFirst(ram, MappedSegs(desc, base, |ram|, path));
      if d.len == 0 {
        assert ram[d.addr as int - base..d.addr as int - base] == [];
        assert [] + Gather(ram, rest) == Gather(ram, rest);
      } else {
        GatherFirst(ram, Buffers(desc, base, |ram|, path));
      }
    }
  }

  lemma PathParts(desc: seq<Desc>, base: nat, size: nat, path: seq<nat>) returns (rest: seq<Seg>, more: seq<Seg>)
    requires TableOk(desc) && IsPath(path) && AllWhole(desc, base, size, path) && AllMapped(desc, base, size, path)
    requires path != []
    ensures path[0] < |desc| && IsPath(path[1..]) && AllWhole(desc, base, size, path[1..]) && AllMapped(desc, base, size, path[1..])
    ensures rest == MappedSegs(desc, base, size, path[1..]) && more == Buffers(desc, base, size, path[1..])
    ensures desc[path[0]].addr as int >= base && desc[path[0]].addr as int - base + desc[path[0]].len <= size
    ensures var d, segs, tight := desc[path[0]], MappedSegs(desc, base, size, path), Buffers(desc, base, size, path);
            var s := Seg(d.addr as int - base, d.len);
            && segs != [] && segs[0] == s && segs[1..] == rest
            && (if d.len == 0 then tight == more else tight != [] && tight[0] == s && tight[1..] == more)
  {
    rest, more := MappedSegs(desc, base, size, path[1..]), Buffers(desc, base, size, path[1..]);
    var d := desc[path[0]];
    Uncons(Seg(d.addr as int - base, d.len), rest);
    Uncons(Seg(d.addr as int - base, d.len), more);
    assert [] + more == more;
  }

  /**
     A chain whose first buffer can hold the header receives twelve zero bytes and the longest
     prefix of the frame that fits, and exactly that length is reported; what lies beyond in its
     buffers, and all other RAM, stays. Gathering as many bytes the way a transmitted chain is
     gathered, and dropping the header, gives that prefix back.
   */
  lemma ReceiveThenGather(desc: seq<Desc>, base: nat, ram: seq<byte>, path: seq<nat>, frame: seq<byte>)
    requires Walkable(desc, base, |ram|, path) && AllMapped(desc, base, |ram|, path)
    requires desc[path[0]].len >= 12 && Disjoint(MappedSegs(desc, base, |ram|, path))
    ensures var p, segs := Feed(desc, base, ram, path, frame), MappedSegs(desc, base, |ram|, path);
            var n := Min(|frame|, TotalLen(segs) - 12);
            && TotalLen(segs) >= 12 && p.wrote == 12 + n
            && Gather(p.ram, Buffers(desc, base, |ram|, path))
               == (Zeros(12) + frame[..n]) + Gather(ram, segs)[12 + n..]
            && (forall x :: 0 <= x < |ram| && !Touches(x, segs) ==> p.ram[x] == ram[x])
  {
    var segs, data := MappedSegs(desc, base, |ram|, path), Zeros(HEADER_LEN) + frame;
    assert Maps(base, |ram|, desc[path[0]].addr);
    FeedIs(desc, base, ram, path, frame);
    hide *;
    var p := Feed(desc, base, ram, path, frame);
    SameBytes(desc, base, p.ram, path);
    PourLen(ram, segs, data);
    GatherPour(ram, segs, data);
    HeaderPrefix(frame, Gather(ram, segs));
    forall x | 0 <= x < |ram| && !Touches(x, segs) ensures p.ram[x] == ram[x] {
      PourFrame(ram, segs, data, x);
    }
  }

  lemma FeedIs(desc: seq<Desc>, base: nat, ram: seq<byte>, path: seq<nat>, frame: seq<byte>)
    requires Walkable(desc, base, |ram|, path) && TakesHeader(desc[path[0]], base, |ram|)
    ensures TableOk(desc) && IsPath(path) && AllWhole(desc, base, |ram|, path)
    ensures Feed(desc, base, ram, path, frame)
            == Pour(ram, MappedSegs(desc, base, |ram|, path), Zeros(HEADER_LEN) + frame)
    ensures TotalLen(MappedSegs(desc, base, |ram|, path)) >= HEADER_LEN
  {
    var segs := MappedSegs(desc, base, |ram|, path);
    assert segs != [] && segs[0].len >= HEADER_LEN;
  }

  lemma HeaderPrefix(frame: seq<byte>, held: seq<byte>)
    requires |held| >= HEADER_LEN
    ensures var n, data := Min(|frame|, |held| - HEADER_LEN), Zeros(HEADER_LEN) + frame;
            && Min(|data|, |held|) == HEADER_LEN + n
            && Overlay(data, held) == (Zeros(HEADER_LEN) + frame[..n]) + held[HEADER_LEN + n..]
  {
    var n, data := Min(|frame|, |held| - HEADER_LEN), Zeros(HEADER_LEN) + frame;
    assert data[..HEADER_LEN + n] == Zeros(HEADER_LEN) + frame[..n];
    hide Zeros;
  }

  // ── The receiving walk ────────────────────────────────────────────────────

  /** The buffers still to fill, of which the first already holds `skip` bytes. */
  function Left(desc: seq<Desc>, base: nat, size: nat, path: seq<nat>, k: nat, skip: nat): (segs: seq<Seg>)
    requires Walkable(desc, base, size, path) && k < |path|
    ensures AllFit(segs, size)
  {
    var segs := MappedSegs(desc, base, size, path[k..]);
    if segs == [] || skip > segs[0].len then segs
    else [Seg(segs[0].off + skip, segs[0].len - skip)] + segs[1..]
  }

  /** The first of the buffers left is what `d` has behind its first `skip` bytes. */
  predicate Heads(left: seq<Seg>, d: Desc, base: nat, skip: nat, tail: seq<Seg>)
    requires d.addr as int >= base && skip <= d.len
  {
    left == [Seg(d.addr as int - base + skip, d.len - skip)] + tail
  }

  /** What is left to do on the RAM as it is now gives what was to be done in all. */
  ghost predicate Owes(total: Poured, wrote: nat, now: seq<byte>, left: seq<Seg>, frame: seq<byte>, at: nat)
  {
    AllFit(left, |now|) && at <= |frame| && total == More(wrote, Pour(now, left, frame[at..]))
  }

  /** The buffers left in front of the `k`-th descriptor. */
  ghost predicate Ahead(desc: seq<Desc>, base: nat, size: nat, path: seq<nat>, k: nat, skip: nat, left: seq<Seg>)
  {
    && Walkable(desc, base, size, path) && k < |path| && left == Left(desc, base, size, path, k, skip)
    && (Maps(base, size, desc[path[k]].addr) ==> skip <= desc[path[k]].len)
  }

  /** Writing the header first and the frame behind it comes to the same. */
  lemma HeaderFirst(ram: seq<byte>, s: Seg, rest: seq<Seg>, header: seq<byte>, frame: seq<byte>)
    requires Fits(s, |ram|) && AllFit(rest, |ram|) && AllFit([s] + rest, |ram|) && 0 < |header| <= s.len
    requires AllFit([Seg(s.off + |header|, s.len - |header|)] + rest, |ram|)
    ensures Pour(ram, [s] + rest, header + frame)
            == More(|header|, Pour(Splice(ram, s.off, header), [Seg(s.off + |header|, s.len - |header|)] + rest, frame))
  {
    hide *;
    var s', data := Seg(s.off + |header|, s.len - |header|), header + frame;
    var n, m := Min(|data|, s.len), Min(|frame|, s.len - |header|);
    HeaderCut(ram, s, header, frame);
    SpliceTwice(ram, s.off, header, frame[..m]);
    PourOne(ram, s, rest, data, n);
    PourOne(Splice(ram, s.off, header), s', rest, frame, m);
    MoreTwice(|header|, m, Pour(Splice(ram, s.off, data[..n]), rest, frame[m..]));
  }

  lemma MoreTwice(a: nat, b: nat, p: Poured)
    ensures More(a, More(b, p)) == More(a + b, p)
  {
  }

  lemma HeaderCut(ram: seq<byte>, s: Seg, header: seq<byte>, frame: seq<byte>)
    requires Fits(s, |ram|) && 0 < |header| <= s.len
    ensures var data, n, m := header + frame, Min(|header + frame|, s.len), Min(|frame|, s.len - |header|);
            && n == |header| + m && s.off + n <= |ram| && Fits(Seg(s.off + |header|, s.len - |header|), |ram|)
            && data[..n] == header + frame[..m] && data[n..] == frame[m..]
  {
  }

  /** Unfolds one buffer. */
  lemma PourOne(ram: seq<byte>, s: Seg, rest: seq<Seg>, data: seq<byte>, n: nat)
    requires Fits(s, |ram|) && AllFit(rest, |ram|) && n == Min(|data|, s.len) && n <= |data| && s.off + n <= |ram|
    ensures AllFit([s] + rest, |ram|)
    ensures Pour(ram, [s] + rest, data)
            == More(n, Pour(Splice(ram, s.off, data[..n]), rest, data[n..]))
  {
    var segs := [s] + rest;
    assert segs[0] == s && segs[1..] == rest;
    if data == [] {
      assert Splice(ram, s.off, data[..n]) == ram;
    }
  }

  lemma LeftParts(desc: seq<Desc>, base: nat, size: nat, path: seq<nat>, k: nat, skip: nat)
    requires Walkable(desc, base, size, path) && k < |path| && Maps(base, size, desc[path[k]].addr)
    requires skip <= desc[path[k]].len
    ensures TableOk(desc) && IsPath(path[k + 1..]) && AllWhole(desc, base, size, path[k + 1..])
    ensures desc[path[k]].addr as int - base >= 0
    ensures var d := desc[path[k]];
            var s, rest := Seg(d.addr as int - base + skip, d.len - skip), MappedSegs(desc, base, size, path[k + 1..]);
            Fits(s, size) && Left(desc, base, size, path, k, skip) == [s] + rest
  {
    MappedParts(desc, base, size, path, k);
    var d := desc[path[k]];
    var s, rest := Seg(d.addr as int - base, d.len), MappedSegs(desc, base, size, path[k + 1..]);
    Uncons(s, rest);
    hide MappedSegs, Walkable, AllWhole, IsPath, TableOk;
  }

  lemma MappedParts(desc: seq<Desc>, base: nat, size: nat, path: seq<nat>, k: nat)
    requires Walkable(desc, base, size, path) && k < |path| && Maps(base, size, desc[path[k]].addr)
    ensures TableOk(desc) && IsPath(path[k..]) && AllWhole(desc, base, size, path[k..])
    ensures IsPath(path[k + 1..]) && AllWhole(desc, base, size, path[k + 1..])
    ensures desc[path[k]].addr as int - base >= 0 && desc[path[k]].addr as int - base + desc[path[k]].len <= size
    ensures MappedSegs(desc, base, size, path[k..])
            == [Seg(desc[path[k]].addr as int - base, desc[path[k]].len)] + MappedSegs(desc, base, size, path[k + 1..])
  {
    var tail := path[k..];
    assert tail[0] == path[k] && tail[1..] == path[k + 1..] && Whole(desc[path[k]], base, size);
  }

  /** RAM once the header is written. */
  function WithHeader(d: Desc, base: nat, ram: seq<byte>): (ram': seq<byte>)
    requires Whole(d, base, |ram|)
    ensures |ram'| == |ram|
  {
    if TakesHeader(d, base, |ram|) then Splice(ram, d.addr as int - base, Zeros(HEADER_LEN)) else ram
  }

  lemma FeedStart(desc: seq<Desc>, base: nat, path: seq<nat>, ram: seq<byte>, frame: seq<byte>) returns (left: seq<Seg>)
    requires Walkable(desc, base, |ram|, path) && Whole(desc[path[0]], base, |ram|)
    ensures var d, skip := desc[path[0]], |Header(desc[path[0]], base, |ram|)|;
            && Ahead(desc, base, |ram|, path, 0, skip, left)
            && Owes(Feed(desc, base, ram, path, frame), skip, WithHeader(d, base, ram), left, frame, 0)
  {
    var d, h := desc[path[0]], Header(desc[path[0]], base, |ram|);
    left := Left(desc, base, |ram|, path, 0, |h|);
    assert |h| == 0 || |h| <= d.len;
    if TakesHeader(d, base, |ram|) {
      FeedStartHeader(desc, base, path, ram, frame);
    } else {
      LeftWhole(desc, base, |ram|, path);
      assert [] + frame == frame && frame[0..] == frame;
    }
    hide MappedSegs, Left, Pour, Walkable, AllFit;
  }

  lemma FeedStartHeader(desc: seq<Desc>, base: nat, path: seq<nat>, ram: seq<byte>, frame: seq<byte>)
    requires Walkable(desc, base, |ram|, path) && Whole(desc[path[0]], base, |ram|) && TakesHeader(desc[path[0]], base, |ram|)
    ensures Owes(Feed(desc, base, ram, path, frame), HEADER_LEN, WithHeader(desc[path[0]], base, ram),
                 Left(desc, base, |ram|, path, 0, HEADER_LEN), frame, 0)
  {
    var d := desc[path[0]];
    var at := d.addr as int - base;
    var now := WithHeader(d, base, ram);
    assert now == Splice(ram, at, Zeros(HEADER_LEN));
    hide WithHeader, Splice, Zeros, MappedSegs, Left, Pour, Feed, Header;
    LeftParts(desc, base, |ram|, path, 0, 0);
    LeftParts(desc, base, |ram|, path, 0, HEADER_LEN);
    LeftWhole(desc, base, |ram|, path);
    FeedIs(desc, base, ram, path, frame);
    OwesHeader(Feed(desc, base, ram, path, frame), ram, MappedSegs(desc, base, |ram|, path), Seg(at, d.len),
               MappedSegs(desc, base, |ram|, path[1..]), Zeros(HEADER_LEN), frame, now,
               Left(desc, base, |ram|, path, 0, HEADER_LEN));
  }

  lemma OwesHeader(total: Poured, ram: seq<byte>, segs: seq<Seg>, s: Seg, rest: seq<Seg>, header: seq<byte>, frame: seq<byte>,
      now: seq<byte>, left: seq<Seg>)
    requires AllFit(segs, |ram|) && total == Pour(ram, segs, header + frame) && segs == [s] + rest
    requires Fits(s, |ram|) && AllFit(rest, |ram|) && AllFit(left, |ram|) && 0 < |header| <= s.len && s.off + |header| <= |ram|
    requires now == Splice(ram, s.off, header) && left == [Seg(s.off + |header|, s.len - |header|)] + rest
    ensures Owes(total, |header|, now, left, frame, 0)
  {
    assert frame[0..] == frame;
    hide Splice, AllFit, Fits, Pour;
    HeaderFirst(ram, s, rest, header, frame);
  }

  lemma LeftWhole(desc: seq<Desc>, base: nat, size: nat, path: seq<nat>)
    requires Walkable(desc, base, size, path)
    ensures Left(desc, base, size, path, 0, 0) == MappedSegs(desc, base, size, path)
  {
    assert path[0..] == path;
    var segs := MappedSegs(desc, base, size, path);
    if segs != [] {
      assert segs == [segs[0]] + segs[1..] && Seg(segs[0].off + 0, segs[0].len - 0) == segs[0];
    }
  }

  /** How much of the frame one buffer takes behind its first `skip` bytes. */
  function Part(d: Desc, skip: nat, frame: seq<byte>, at: nat): (n: nat)
    requires skip <= d.len && at <= |frame|
    ensures n <= |frame| - at && n <= d.len - skip
  {
    Min(|frame| - at, d.len - skip)
  }

  predicate Takes(d: Desc, base: nat, size: nat, skip: nat)
  {
    Maps(base, size, d.addr) && d.addr as int - base + d.len <= size && skip <= d.len
  }

  /** RAM once it is there. */
  function Filled(now: seq<byte>, d: Desc, base: nat, skip: nat, frame: seq<byte>, at: nat): (next: seq<byte>)
    requires Takes(d, base, |now|, skip) && at <= |frame|
    ensures |next| == |now|
  {
    Splice(now, d.addr as int - base + skip, frame[at..at + Part(d, skip, frame, at)])
  }

  /** One descriptor of the walk. */
  lemma AheadStep(desc: seq<Desc>, base: nat, size: nat, path: seq<nat>, k: nat, skip: nat, left: seq<Seg>)
    returns (tail: seq<Seg>)
    requires Ahead(desc, base, size, path, k, skip, left)
    requires path[k] < |desc| && Maps(base, size, desc[path[k]].addr)
    ensures Takes(desc[path[k]], base, size, skip) && desc[path[k]].addr as int >= base && skip <= desc[path[k]].len
    ensures AllFit(tail, size) && Heads(left, desc[path[k]], base, skip, tail)
    ensures if k + 1 < |path| then Ahead(desc, base, size, path, k + 1, 0, tail) else tail == []
  {
    LeftParts(desc, base, size, path, k, skip);
    tail := MappedSegs(desc, base, size, path[k + 1..]);
    if k + 1 < |path| {
      LeftLater(desc, base, size, path, k + 1);
    } else {
      assert path[k + 1..] == [];
    }
    hide Left, Walkable, AllFit, AllWhole, IsPath, TableOk;
  }

  /** The walk breaks off in front of a buffer that is not mapped. */
  lemma AheadNone(desc: seq<Desc>, base: nat, size: nat, path: seq<nat>, k: nat, skip: nat, left: seq<Seg>)
    requires Ahead(desc, base, size, path, k, skip, left)
    requires path[k] < |desc| && !Maps(base, size, desc[path[k]].addr)
    ensures left == []
  {
    assert path[k..][0] == path[k];
  }

  lemma FillOne(total: Poured, wrote: nat, d: Desc, base: nat, skip: nat, now: seq<byte>, frame: seq<byte>, at: nat,
      left: seq<Seg>, tail: seq<Seg>)
    requires Takes(d, base, |now|, skip) && AllFit(tail, |now|) && Owes(total, wrote, now, left, frame, at) && at <= |frame|
    requires d.addr as int >= base && skip <= d.len && Heads(left, d, base, skip, tail)
    ensures Owes(total, wrote + Part(d, skip, frame, at), Filled(now, d, base, skip, frame, at), tail, frame,
                 at + Part(d, skip, frame, at))
  {
    PartIs(now, d, base, skip, frame, at);
    hide Owes, Splice, AllFit, Min, Maps;
    OwesOne(total, wrote, now, left, Seg(d.addr as int - base + skip, d.len - skip), tail, frame, at,
            Part(d, skip, frame, at), Filled(now, d, base, skip, frame, at));
  }

  lemma OwesOne(total: Poured, wrote: nat, now: seq<byte>, left: seq<Seg>, s: Seg, tail: seq<Seg>, frame: seq<byte>, at: nat,
      n: nat, next: seq<byte>)
    requires Owes(total, wrote, now, left, frame, at) && left == [s] + tail && AllFit(tail, |now|) && Fits(s, |now|)
    requires at <= |frame| && n == Min(|frame| - at, s.len) && at + n <= |frame| && s.off + n <= |now|
    requires next == Splice(now, s.off, frame[at..at + n])
    ensures Owes(total, wrote + n, next, tail, frame, at + n)
  {
    SliceOfRest(frame, at, n);
    hide Splice, AllFit, Fits, Pour, Min;
    PourOne(now, s, tail, frame[at..], n);
  }

  lemma PartIs(now: seq<byte>, d: Desc, base: nat, skip: nat, frame: seq<byte>, at: nat)
    requires Takes(d, base, |now|, skip) && at <= |frame|
    ensures var n, s := Part(d, skip, frame, at), Seg(d.addr as int - base + skip, d.len - skip);
            && n == Min(|frame| - at, s.len) && at + n <= |frame| && s.off + n <= |now| && Fits(s, |now|)
            && Filled(now, d, base, skip, frame, at) == Splice(now, s.off, frame[at..at + n])
  {
    hide Splice;
  }

  lemma SliceOfRest(s: seq<byte>, at: nat, n: nat)
    requires at + n <= |s|
    ensures s[at..][..n] == s[at..at + n] && s[at..][n..] == s[at + n..]
  {
  }

  lemma NothingOwed(total: Poured, wrote: nat, now: seq<byte>, left: seq<Seg>, frame: seq<byte>, at: nat)
    requires Owes(total, wrote, now, left, frame, at) && (left == [] || at == |frame|)
    ensures total == Poured(now, wrote)
  {
    assert at == |frame| ==> frame[at..] == [];
  }

  lemma LeftLater(desc: seq<Desc>, base: nat, size: nat, path: seq<nat>, k: nat)
    requires Walkable(desc, base, size, path) && k < |path|
    ensures AllWhole(desc, base, size, path[k..])
    ensures Left(desc, base, size, path, k, 0) == MappedSegs(desc, base, size, path[k..])
  {
    var segs := MappedSegs(desc, base, size, path[k..]);
    if segs != [] {
      assert segs == [segs[0]] + segs[1..] && Seg(segs[0].off + 0, segs[0].len - 0) == segs[0];
    }
  }

  /** How the walk tells that the header is in the buffer it looks at. */
  function Skip(wrote: nat, cur: nat, head: nat): nat
  {
    if wrote > 0 && cur == head then HEADER_LEN else 0
  }

  lemma SkipAtHead(d: Desc, base: nat, size: nat, head: nat)
    ensures Skip(|Header(d, base, size)|, head, head) == |Header(d, base, size)|
  {
  }

  lemma NoSkip(desc: seq<Desc>, path: seq<nat>, k: nat, wrote: nat)
    requires On(desc, path, 0) && On(desc, path, k) && k > 0 && k < |path|
    ensures Skip(wrote, path[k], path[0]) == 0
  {
    NoReturn(desc, path, k);
  }

  // ── Transmitting ──────────────────────────────────────────────────────────

  /** What the device gathers from a chain. */
  function Gathered(desc: seq<Desc>, base: nat, ram: seq<byte>, head: u16): (data: seq<byte>)
    requires Sane(desc, base, |ram|, head)
  {
    SanePath(desc, base, |ram|, head);
    var path := Path(desc, head);
    Gather(ram, Upto(desc, base, |ram|, path, |path|))
  }

  predicate AllSane(desc: seq<Desc>, base: nat, size: nat, heads: seq<u16>)
  {
    forall i :: 0 <= i < |heads| ==> Sane(desc, base, size, heads[i])
  }

  /** A frame is passed on without its header, if there is anything behind it. */
  function Payload(data: seq<byte>): (frames: seq<seq<byte>>)
    ensures |frames| == if |data| > HEADER_LEN then 1 else 0
    ensures forall i :: 0 <= i < |frames| ==> data == data[..HEADER_LEN] + frames[i]
  {
    if |data| > HEADER_LEN then [data[HEADER_LEN..]] else []
  }

  /** A transmitted chain's frame is what its buffers hold behind the first twelve bytes. */
  lemma ChainIsSent(desc: seq<Desc>, base: nat, ram: seq<byte>, path: seq<nat>)
    requires TableOk(desc) && Linked(desc, path) && |path| <= 256 && AllWhole(desc, base, |ram|, path)
    ensures Sane(desc, base, |ram|, path[0])
    ensures var data := Gather(ram, Buffers(desc, base, |ram|, path));
            && Gathered(desc, base, ram, path[0]) == data
            && Payload(data) == if |data| > 12 then [data[12..]] else []
  {
    LinkedIsPath(desc, path);
    SanePath(desc, base, |ram|, path[0]);
    assert path[..|path|] == path;
    hide Path, Acyclic, Linked, Buffers, Gather;
  }

  /** The frames passed on from a run of chains, and the lengths reported. */
  function Sent(desc: seq<Desc>, base: nat, ram: seq<byte>, heads: seq<u16>): seq<seq<byte>>
    requires AllSane(desc, base, |ram|, heads)
    decreases heads
  {
    if heads == [] then []
    else
      var init, last := heads[..|heads| - 1], heads[|heads| - 1];
      Sent(desc, base, ram, init) + Payload(Gathered(desc, base, ram, last))
  }

  function SentLens(desc: seq<Desc>, base: nat, ram: seq<byte>, heads: seq<u16>): (lens: seq<u32>)
    requires AllSane(desc, base, |ram|, heads)
    ensures |lens| == |heads|
  {
    seq(|heads|, i requires 0 <= i < |heads| => |Gathered(desc, base, ram, heads[i])| % U32_RANGE)
  }

  /** The length reported for each chain is that of what was gathered from it. */
  lemma SentLength(desc: seq<Desc>, base: nat, ram: seq<byte>, heads: seq<u16>, i: nat)
    requires AllSane(desc, base, |ram|, heads) && i < |heads|
    ensures Sane(desc, base, |ram|, heads[i])
    ensures SentLens(desc, base, ram, heads)[i] == |Gathered(desc, base, ram, heads[i])| % 0x1_0000_0000
  {
    hide Sane, Gathered;
  }

  lemma SaneUpto(desc: seq<Desc>, base: nat, size: nat, heads: seq<u16>, n: nat)
    requires AllSane(desc, base, size, heads) && n < |heads|
    ensures Sane(desc, base, size, heads[n])
    ensures AllSane(desc, base, size, heads[..n]) && AllSane(desc, base, size, heads[..n + 1])
  {
    hide Sane;
  }

  lemma SentNext(desc: seq<Desc>, base: nat, ram: seq<byte>, heads: seq<u16>, n: nat)
    requires AllSane(desc, base, |ram|, heads) && n < |heads| && Sane(desc, base, |ram|, heads[n])
    requires AllSane(desc, base, |ram|, heads[..n]) && AllSane(desc, base, |ram|, heads[..n + 1])
    ensures Sent(desc, base, ram, heads[..n + 1])
            == Sent(desc, base, ram, heads[..n]) + Payload(Gathered(desc, base, ram, heads[n]))
  {
    hide Sane, Gathered, Payload, AllSane;
    var init := heads[..n + 1];
    assert init[..|init| - 1] == heads[..n] && init[|init| - 1] == heads[n];
  }

  lemma SentLensNext(desc: seq<Desc>, base: nat, ram: seq<byte>, heads: seq<u16>, n: nat)
    requires AllSane(desc, base, |ram|, heads) && n < |heads| && Sane(desc, base, |ram|, heads[n])
    requires AllSane(desc, base, |ram|, heads[..n]) && AllSane(desc, base, |ram|, heads[..n + 1])
    ensures SentLens(desc, base, ram, heads[..n + 1])
            == SentLens(desc, base, ram, heads[..n]) + [|Gathered(desc, base, ram, heads[n])| % U32_RANGE]
  {
    hide Sane, Gathered;
  }

  /** The part of RAM one descriptor adds to what is gathered. */
  function Piece(d: Desc, base: nat, ram: seq<byte>): seq<byte>
    requires Whole(d, base, |ram|)
  {
    if Maps(base, |ram|, d.addr) then ram[d.addr as int - base..d.addr as int - base + d.len] else []
  }

  lemma GatherBuffer(d: Desc, base: nat, ram: seq<byte>, segs: seq<Seg>)
    requires Whole(d, base, |ram|) && AllFit(segs, |ram|)
    ensures AllFit(segs + Buffer(d, base, |ram|), |ram|)
    ensures Gather(ram, segs + Buffer(d, base, |ram|)) == Gather(ram, segs) + Piece(d, base, ram)
  {
    if Maps(base, |ram|, d.addr) && d.len != 0 {
      var s := Seg(d.addr as int - base, d.len);
      assert Buffer(d, base, |ram|) == [s] && Fits(s, |ram|) && Piece(d, base, ram) == ram[s.off..s.off + s.len];
      hide *;
      GatherAppend(ram, segs, s);
    } else {
      assert Buffer(d, base, |ram|) == [] && segs + [] == segs && Piece(d, base, ram) == [];
      hide *;
    }
  }

  lemma GatherStart(desc: seq<Desc>, base: nat, ram: seq<byte>, head: u16)
    requires Sane(desc, base, |ram|, head)
    ensures Walkable(desc, base, |ram|, Path(desc, head)) && On(desc, Path(desc, head), 0) && head < |desc|
    ensures Path(desc, head)[0] == head
    ensures Gather(ram, Upto(desc, base, |ram|, Path(desc, head), 0)) == []
    ensures Gathered(desc, base, ram, head) == Gather(ram, Upto(desc, base, |ram|, Path(desc, head), |Path(desc, head)|))
  {
    SanePath(desc, base, |ram|, head);
    assert Upto(desc, base, |ram|, Path(desc, head), 0) == [];
  }

  // ── The device ────────────────────────────────────────────────────────────

  /** What a frame that finds a buffer waiting does to RAM and ring. */
  ghost predicate Received(desc: seq<Desc>, base: nat, frame: seq<byte>,
    was: seq<byte>, r: VirtQueue.Ring, now: seq<byte>, r': VirtQueue.Ring)
  {
    && VirtQueue.Sized(r) && Sane(desc, base, |was|, VirtQueue.NextHead(r))
    && (SanePath(desc, base, |was|, VirtQueue.NextHead(r));
        var p := Feed(desc, base, was, Path(desc, VirtQueue.NextHead(r)), frame);
        p.wrote < U32_RANGE && now == p.ram && r' == VirtQueue.ServeLast(r, p.wrote))
  }

  /** What draining the transmit queue passes on, and what it leaves of the ring. */
  ghost predicate Transmitted(desc: seq<Desc>, base: nat, ram: seq<byte>, r: VirtQueue.Ring, r': VirtQueue.Ring,
    was: seq<seq<byte>>, now: seq<seq<byte>>)
  {
    && VirtQueue.Sized(r) && AllSane(desc, base, |ram|, VirtQueue.PendingHeads(r))
    && now == was + Sent(desc, base, ram, VirtQueue.PendingHeads(r))
    && r' == VirtQueue.Serve(r, SentLens(desc, base, ram, VirtQueue.PendingHeads(r)))
  }

  class Net {
    const rxq: VirtQueue.Queue
    const txq: VirtQueue.Queue
    const rxDesc: seq<Desc>
    const txDesc: seq<Desc>
    const base: nat
    const ram: array<byte>
    var rxReady: bool
    var txReady: bool
    var rxQueue: seq<seq<byte>>
    var sent: seq<seq<byte>>
    var irq: bool

    constructor (rxq: VirtQueue.Queue, txq: VirtQueue.Queue, rxDesc: seq<Desc>, txDesc: seq<Desc>, base: nat, ram: array<byte>)
      ensures this.rxq == rxq && this.txq == txq && this.rxDesc == rxDesc && this.txDesc == txDesc
      ensures this.base == base && this.ram == ram
      ensures !rxReady && !txReady && !irq && rxQueue == [] && sent == []
    {
      this.rxq, this.txq, this.rxDesc, this.txDesc, this.base, this.ram := rxq, txq, rxDesc, txDesc, base, ram;
      rxReady, txReady, irq := false, false, false;
      rxQueue, sent := [], [];
    }

    predicate Wired(q: VirtQueue.Queue)
      reads q
    {
      VirtQueue.IsSize(q.avail.Length) && q.used.Length == q.avail.Length
    }

    method PutHeader(d: Desc) returns (wrote: nat)
      requires Whole(d, base, ram.Length)
      modifies ram
      ensures ram[..] == WithHeader(d, base, old(ram[..])) && wrote == |Header(d, base, ram.Length)|
    {
      wrote := 0;
      if Maps(base, ram.Length, d.addr) && d.len >= HEADER_LEN {
        Put(ram, d.addr - base, Zeros(HEADER_LEN));
        wrote := HEADER_LEN;
      }
    }

    /** Copies as much of the frame as one buffer takes behind its first `skip` bytes. */
    method CopyPart(d: Desc, skip: nat, frame: seq<byte>, offset: nat, wrote: nat,
        ghost total: Poured, ghost left: seq<Seg>, ghost tail: seq<Seg>)
      returns (offset': nat, wrote': nat)
      requires Takes(d, base, ram.Length, skip) && d.addr as int >= base && skip <= d.len && offset <= |frame|
      requires AllFit(tail, ram.Length) && Heads(left, d, base, skip, tail)
      requires Owes(total, wrote, ram[..], left, frame, offset)
      modifies ram
      ensures offset' <= |frame| && Owes(total, wrote', ram[..], tail, frame, offset')
    {
      FillOne(total, wrote, d, base, skip, ram[..], frame, offset, left, tail);
      hide Owes, Heads, AllFit;
      offset', wrote' := PutPart(d, skip, frame, offset, wrote);
    }

    method PutPart(d: Desc, skip: nat, frame: seq<byte>, offset: nat, wrote: nat) returns (offset': nat, wrote': nat)
      requires Takes(d, base, ram.Length, skip) && offset <= |frame|
      modifies ram
      ensures offset' == offset + Part(d, skip, frame, offset) && wrote' == wrote + Part(d, skip, frame, offset)
      ensures ram[..] == Filled(old(ram[..]), d, base, skip, frame, offset)
    {
      var n := Min(|frame| - offset, d.len - skip);
      offset', wrote' := offset, wrote;
      if n > 0 {
        Put(ram, d.addr - base + skip, frame[offset..offset + n]);
        offset', wrote' := offset + n, wrote + n;
      }
    }

    /** The header, then the frame, into the chain at `head`. */
    method Fill(head: u16, frame: seq<byte>, ghost path: seq<nat>) returns (wrote: nat)
      requires Walkable(rxDesc, base, ram.Length, path) && On(rxDesc, path, 0) && path[0] == head
      modifies ram
      ensures Feed(rxDesc, base, old(ram[..]), path, frame) == Poured(ram[..], wrote)
    {
      Turn(rxDesc, base, ram.Length, path, 0);
      SkipAtHead(rxDesc[head], base, ram.Length, head);
      hide *;
      ghost var k, total := 0, Feed(rxDesc, base, ram[..], path, frame);
      ghost var left := FeedStart(rxDesc, base, path, ram[..], frame);
      wrote := PutHeader(rxDesc[head]);
      var cur, more := head, true;
      var offset: nat := 0;
      while more && offset < |frame|
        invariant Owes(total, wrote, ram[..], left, frame, offset) && offset <= |frame|
        invariant k < |path| && cur == path[k] && cur < |rxDesc| && On(rxDesc, path, k)
        invariant more ==> Ahead(rxDesc, base, ram.Length, path, k, Skip(wrote, cur, head), left)
        invariant !more ==> left == [] || offset == |frame|
        decreases |path| - k, more
      {
        if !Maps(base, ram.Length, rxDesc[cur].addr) {
          AheadNone(rxDesc, base, ram.Length, path, k, Skip(wrote, cur, head), left);
          break;
        }
        ghost var tail := AheadStep(rxDesc, base, ram.Length, path, k, Skip(wrote, cur, head), left);
        Turn(rxDesc, base, ram.Length, path, k);
        offset, wrote := CopyPart(rxDesc[cur], Skip(wrote, cur, head), frame, offset, wrote, total, left, tail);
        left := tail;
        if offset < |frame| && HasNext(rxDesc[cur]) {
          cur := rxDesc[cur].next;
          k := k + 1;
          NoSkip(rxDesc, path, k, wrote);
        } else {
          more := false;
        }
      }
      NothingOwed(total, wrote, ram[..], left, frame, offset);
    }

    /** Delivers a frame into the next waiting chain, or drops it when there is none. */
    method DoFeedRx(frame: seq<byte>)
      requires Wired(rxq) && |frame| + HEADER_LEN < U32_RANGE
      requires rxReady && VirtQueue.HasNext(rxq.View()) ==>
                 Sane(rxDesc, base, ram.Length, VirtQueue.NextHead(rxq.View()))
      modifies rxq`usedIdx, rxq`lastAvail, rxq.used, ram, `irq
      ensures !rxReady || !old(VirtQueue.HasNext(rxq.View())) ==> unchanged(rxq, rxq.used, ram, `irq)
      ensures rxReady && old(VirtQueue.HasNext(rxq.View())) ==>
                irq && Received(rxDesc, base, frame, old(ram[..]), old(rxq.View()), ram[..], rxq.View())
    {
      if !rxReady || rxq.lastAvail == rxq.availIdx {
        return;
      }
      var head := rxq.Head();
      SanePath(rxDesc, base, ram.Length, head);
      ghost var path := Path(rxDesc, head);
      ghost var was := ram[..];
      FeedLen(rxDesc, base, was, path, frame);
      hide Sane, Path, Walkable, On, Feed;
      var wrote := Fill(head, frame, path);
      rxq.Return(head, wrote);
      irq := true;
    }

    /** The device's thread: takes the oldest frame queued and delivers or drops it. */
    method FlushOne()
      requires Wired(rxq) && rxQueue != [] && |rxQueue[0]| + HEADER_LEN < U32_RANGE
      requires rxReady && VirtQueue.HasNext(rxq.View()) ==>
                 Sane(rxDesc, base, ram.Length, VirtQueue.NextHead(rxq.View()))
      modifies rxq`usedIdx, rxq`lastAvail, rxq.used, ram, `irq, `rxQueue
      ensures rxQueue == old(rxQueue)[1..]
      ensures !rxReady || !old(VirtQueue.HasNext(rxq.View())) ==> unchanged(rxq, rxq.used, ram, `irq)
      ensures rxReady && old(VirtQueue.HasNext(rxq.View())) ==>
                irq && Received(rxDesc, base, old(rxQueue)[0], old(ram[..]), old(rxq.View()), ram[..], rxq.View())
    {
      hide *;
      var frame := rxQueue[0];
      rxQueue := rxQueue[1..];
      DoFeedRx(frame);
    }

    method GatherChain(head: u16) returns (data: seq<byte>)
      requires Sane(txDesc, base, ram.Length, head)
      ensures data == Gathered(txDesc, base, ram[..], head)
    {
      ghost var path, k := Path(txDesc, head), 0;
      GatherStart(txDesc, base, ram[..], head);
      hide *;
      var cur := head;
      data := [];
      while true
        invariant k < |path| && cur == path[k] && cur < |txDesc| && On(txDesc, path, k)
        invariant data == Gather(ram[..], Upto(txDesc, base, ram.Length, path, k))
        decreases |path| - k
      {
        Turn(txDesc, base, ram.Length, path, k);
        GatherBuffer(txDesc[cur], base, ram[..], Upto(txDesc, base, ram.Length, path, k));
        data := Append(data, txDesc[cur]);
        if !HasNext(txDesc[cur]) {
          break;
        }
        cur := txDesc[cur].next;
        k := k + 1;
      }
    }

    method Append(data: seq<byte>, d: Desc) returns (data': seq<byte>)
      requires Whole(d, base, ram.Length)
      ensures data' == data + Piece(d, base, ram[..])
    {
      data' := data;
      if Maps(base, ram.Length, d.addr) {
        data' := data' + ram[d.addr - base..d.addr - base + d.len];
      }
    }

    /** Hands a frame to the network stack. */
    method PassOn(data: seq<byte>)
      modifies `sent
      ensures sent == old(sent) + Payload(data)
    {
      if |data| > HEADER_LEN {
        sent := sent + [data[HEADER_LEN..]];
      }
    }

    /** Passes on and returns the next chain. */
    method TransmitOne()
      requires VirtQueue.Sized(txq.View()) && Sane(txDesc, base, ram.Length, VirtQueue.NextHead(txq.View()))
      modifies txq`usedIdx, txq`lastAvail, txq.used, `sent
      ensures var data := Gathered(txDesc, base, ram[..], VirtQueue.NextHead(old(txq.View())));
              && sent == old(sent) + Payload(data)
              && txq.View() == VirtQueue.ServeLast(old(txq.View()), |data| % U32_RANGE)
    {
      hide Sane, Gathered, Payload, VirtQueue.NextHead, VirtQueue.ServeLast;
      var head := txq.Head();
      var data := GatherChain(head);
      PassOn(data);
      VirtQueue.ReturnServes(txq.View(), |data| % U32_RANGE);
      txq.Return(head, |data| % U32_RANGE);
    }

    /** The loop of the drain. */
    method TransmitAll() returns (raised: bool)
      requires Wired(txq) && AllSane(txDesc, base, ram.Length, VirtQueue.PendingHeads(txq.View()))
      modifies txq`usedIdx, txq`lastAvail, txq.used, `sent
      ensures Transmitted(txDesc, base, ram[..], old(txq.View()), txq.View(), old(sent), sent)
      ensures raised == (VirtQueue.Pending(old(txq.View())) > 0)
    {
      ghost var r, was, n := txq.View(), sent, 0;
      raised := false;
      TransmitStart(txDesc, base, ram[..], r, was);
      hide Transmitting, Transmitted, Sane, AllSane, Gathered, Payload, Sent, SentLens, Wired;
      hide VirtQueue.Sized, VirtQueue.Serve, VirtQueue.ServeLast, VirtQueue.NextHead, VirtQueue.Pending, VirtQueue.PendingHeads;
      while txq.lastAvail != txq.availIdx
        invariant raised == (n > 0)
        invariant Transmitting(txDesc, base, ram[..], r, n, txq.View(), was, sent) && n <= VirtQueue.Pending(r)
        decreases VirtQueue.Pending(r) - n
      {
        TransmitStep(txDesc, base, ram[..], r, n, txq.View(), was, sent);
        TransmitOne();
        n := n + 1;
        raised := true;
      }
      TransmitEnd(txDesc, base, ram[..], r, n, txq.View(), was, sent);
    }

    /** The drain of the transmit queue. */
    method ProcessTx()
      requires Wired(txq)
      requires txReady ==> AllSane(txDesc, base, ram.Length, VirtQueue.PendingHeads(txq.View()))
      modifies txq`usedIdx, txq`lastAvail, txq.used, `sent, `irq
      ensures !txReady ==> unchanged(txq, txq.used, `sent, `irq)
      ensures txReady ==>
                && Transmitted(txDesc, base, ram[..], old(txq.View()), txq.View(), old(sent), sent)
                && irq == (old(irq) || VirtQueue.Pending(old(txq.View())) > 0)
    {
      if !txReady {
        return;
      }
      var raised := TransmitAll();
      if raised {
        irq := true;
      }
    }
  }

  lemma FeedLen(desc: seq<Desc>, base: nat, ram: seq<byte>, path: seq<nat>, frame: seq<byte>)
    requires Walkable(desc, base, |ram|, path)
    ensures Feed(desc, base, ram, path, frame).wrote <= |frame| + HEADER_LEN
  {
    PourLen(ram, MappedSegs(desc, base, |ram|, path), Header(desc[path[0]], base, |ram|) + frame);
  }

  /** A drain of the transmit queue that has served `n` chains. */
  ghost predicate Transmitting(desc: seq<Desc>, base: nat, ram: seq<byte>, r: VirtQueue.Ring, n: nat, now: VirtQueue.Ring,
    was: seq<seq<byte>>, sent: seq<seq<byte>>)
  {
    && VirtQueue.Sized(r) && VirtQueue.Sized(now) && n <= |VirtQueue.PendingHeads(r)| == VirtQueue.Pending(r)
    && var heads := VirtQueue.PendingHeads(r);
       && AllSane(desc, base, |ram|, heads) && AllSane(desc, base, |ram|, heads[..n])
       && sent == was + Sent(desc, base, ram, heads[..n])
       && now == VirtQueue.Serve(r, SentLens(desc, base, ram, heads[..n]))
  }

  lemma TransmitStart(desc: seq<Desc>, base: nat, ram: seq<byte>, r: VirtQueue.Ring, was: seq<seq<byte>>)
    requires VirtQueue.Sized(r) && AllSane(desc, base, |ram|, VirtQueue.PendingHeads(r))
    ensures Transmitting(desc, base, ram, r, 0, r, was, was)
  {
  }

  lemma TransmitStep(desc: seq<Desc>, base: nat, ram: seq<byte>, r: VirtQueue.Ring, n: nat, now: VirtQueue.Ring,
      was: seq<seq<byte>>, sent: seq<seq<byte>>)
    requires Transmitting(desc, base, ram, r, n, now, was, sent) && now.lastAvail != now.availIdx
    ensures VirtQueue.Sized(now) && n < VirtQueue.Pending(r)
    ensures var head := VirtQueue.NextHead(now);
            && Sane(desc, base, |ram|, head)
            && var data := Gathered(desc, base, ram, head);
               Transmitting(desc, base, ram, r, n + 1, VirtQueue.ServeLast(now, |data| % U32_RANGE), was, sent + Payload(data))
  {
    var heads := VirtQueue.PendingHeads(r);
    var lens := SentLens(desc, base, ram, heads[..n]);
    hide Sane, Gathered, Payload, VirtQueue.ServeLast, VirtQueue.Serve, VirtQueue.Pending, VirtQueue.PendingHead, VirtQueue.NextHead;
    VirtQueue.NextInDrain(r, lens);
    assert heads[n] == VirtQueue.NextHead(now);
    hide VirtQueue.PendingHeads;
    SaneUpto(desc, base, |ram|, heads, n);
    SentNext(desc, base, ram, heads, n);
    SentLensNext(desc, base, ram, heads, n);
    VirtQueue.ServeOne(r, lens, |Gathered(desc, base, ram, heads[n])| % U32_RANGE);
    RegroupFrames(was, Sent(desc, base, ram, heads[..n]), Payload(Gathered(desc, base, ram, heads[n])));
    hide Sent, SentLens, AllSane, VirtQueue.Sized;
  }

  lemma RegroupFrames(a: seq<seq<byte>>, b: seq<seq<byte>>, c: seq<seq<byte>>)
    ensures (a + b) + c == a + (b + c)
  {
  }

  lemma TransmitEnd(desc: seq<Desc>, base: nat, ram: seq<byte>, r: VirtQueue.Ring, n: nat, now: VirtQueue.Ring,
      was: seq<seq<byte>>, sent: seq<seq<byte>>)
    requires Transmitting(desc, base, ram, r, n, now, was, sent) && now.lastAvail == now.availIdx
    ensures n == VirtQueue.Pending(r) && Transmitted(desc, base, ram, r, now, was, sent)
  {
    var heads := VirtQueue.PendingHeads(r);
    VirtQueue.NextInDrain(r, SentLens(desc, base, ram, heads[..n]));
    assert n == |heads| ==> heads[..n] == heads;
    hide Sane, VirtQueue.Serve, VirtQueue.Pending, VirtQueue.PendingHead;
  }
}
