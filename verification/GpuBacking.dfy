/**
 The graphics device's copies from guest memory: a resource's backing is a list of stretches of guest
 memory, read as one byte string, and rectangles of it are copied into the resource's buffer.
 */
module GpuBacking {
  import opened Bytes

  const PIXEL := 4

  /** A stretch of guest memory. */
  datatype Entry = Entry(gpa: u64, len: u32)

  // ── The backing as one byte string ────────────────────────────────────────

  /** Guest memory outside RAM reads as zero. */
  function ByteAt(ram: seq<byte>, base: nat, gpa: nat): byte
  {
    if base <= gpa < base + |ram| then ram[gpa - base] else 0
  }

  function EntryBytes(e: Entry, ram: seq<byte>, base: nat): (s: seq<byte>)
    ensures |s| == e.len
  {
    seq<byte>(e.len as nat, (i: nat) requires i < e.len => ByteAt(ram, base, e.gpa as int + i))
  }

  function Flat(backing: seq<Entry>, ram: seq<byte>, base: nat): seq<byte>
    decreases backing
  {
    if backing == [] then []
    else Flat(backing[..|backing| - 1], ram, base) + EntryBytes(backing[|backing| - 1], ram, base)
  }

  /** Assumed of an entry: it lies in RAM as a whole or not at all. */
  predicate EntryOk(e: Entry, base: nat, size: nat)
  {
    && e.gpa as int + e.len as int <= U64_RANGE
    && (|| e.gpa as int + e.len as int <= base || base + size <= e.gpa as int
        || (base <= e.gpa as int && e.gpa as int + e.len as int <= base + size))
  }

  predicate BackingOk(backing: seq<Entry>, base: nat, size: nat)
  {
    forall i :: 0 <= i < |backing| ==> EntryOk(backing[i], base, size)
  }

  // ── Reading a window of it ────────────────────────────────────────────────

  function Max(a: nat, b: nat): (m: nat)
    ensures a <= m && b <= m && (m == a || m == b)
  {
    if a < b then b else a
  }

  /** The bytes of `flat` from `start` on, laid over `held` as far as they go. */
  function Window(flat: seq<byte>, start: nat, held: seq<byte>): (w: seq<byte>)
    ensures |w| == |held|
  {
    seq(|held|, i requires 0 <= i < |held| => if start + i < |flat| then flat[start + i] else held[i])
  }

  /** Appending to `flat` changes the window exactly where the two overlap: `n` bytes of `more` from `i` on. */
  lemma WindowGrows(flat: seq<byte>, more: seq<byte>, start: nat, held: seq<byte>, i: nat, n: nat, to: nat)
    requires |flat| + i == Max(|flat|, start) && |flat| + i + n == Min(|flat| + |more|, start + |held|)
    requires start + to == |flat| + i && to + n <= |held| && i + n <= |more|
    ensures Window(flat + more, start, held) == Splice(Window(flat, start, held), to, more[i..i + n])
  {
    var w, all, piece := Window(flat, start, held), flat + more, more[i..i + n];
    var w', s := Window(all, start, held), Splice(w, to, piece);
    assert forall j :: |flat| <= j < |all| ==> all[j] == more[j - |flat|];
    assert forall j :: 0 <= j < |piece| ==> piece[j] == more[i + j];
    hide Window, Splice;
    forall j | 0 <= j < |held| ensures w'[j] == s[j] {
      WindowAt(flat, start, held, j);
      WindowAt(all, start, held, j);
      SpliceAt(w, to, piece, j);
    }
  }

  lemma WindowStays(flat: seq<byte>, more: seq<byte>, start: nat, held: seq<byte>)
    requires Max(|flat|, start) >= Min(|flat| + |more|, start + |held|)
    ensures Window(flat + more, start, held) == Window(flat, start, held)
  {
    var w, w' := Window(flat, start, held), Window(flat + more, start, held);
    hide Window;
    forall i | 0 <= i < |held| ensures w'[i] == w[i] {
      WindowAt(flat, start, held, i);
      WindowAt(flat + more, start, held, i);
    }
  }

  lemma WindowAt(flat: seq<byte>, start: nat, held: seq<byte>, i: nat)
    requires i < |held|
    ensures Window(flat, start, held)[i] == if start + i < |flat| then flat[start + i] else held[i]
  {
  }

  lemma SpliceAt(s: seq<byte>, off: nat, data: seq<byte>, i: nat)
    requires off + |data| <= |s| && i < |s|
    ensures Splice(s, off, data)[i] == if off <= i < off + |data| then data[i - off] else s[i]
  {
  }

  /** A window that ends within `flat` does not change any more. */
  lemma WindowFull(flat: seq<byte>, more: seq<byte>, start: nat, held: seq<byte>)
    requires start + |held| <= |flat|
    ensures Window(flat + more, start, held) == Window(flat, start, held)
  {
    WindowStays(flat, more, start, held);
  }

  lemma WindowEmpty(start: nat, held: seq<byte>)
    ensures Window([], start, held) == held
  {
  }

  lemma SpliceInner(s: seq<byte>, at: nat, w: seq<byte>, off: nat, data: seq<byte>)
    requires at + |w| <= |s| && off + |data| <= |w|
    ensures Splice(Splice(s, at, w), at + off, data) == Splice(s, at, Splice(w, off, data))
  {
    var x, y := Splice(Splice(s, at, w), at + off, data), Splice(s, at, Splice(w, off, data));
    forall i | 0 <= i < |s| ensures x[i] == y[i] {
      SpliceAt(Splice(s, at, w), at + off, data, i);
      SpliceAt(s, at, w, i);
      SpliceAt(s, at, Splice(w, off, data), i);
      if at <= i < at + |w| {
        SpliceAt(w, off, data, i - at);
      }
    }
    hide Splice;
  }

  lemma SpliceSame(s: seq<byte>, at: nat, n: nat)
    requires at + n <= |s|
    ensures Splice(s, at, s[at..at + n]) == s
  {
  }

  /** What the copy of part of an entry takes: RAM, or zeros when the entry is not mapped. */
  lemma EntryPart(e: Entry, ram: seq<byte>, base: nat, i: nat, n: nat)
    requires EntryOk(e, base, |ram|) && 0 < n && i + n <= e.len
    ensures var gpa := e.gpa as int + i;
            if base <= gpa < base + |ram| then
              gpa + n <= base + |ram| && EntryBytes(e, ram, base)[i..i + n] == ram[gpa - base..gpa - base + n]
            else EntryBytes(e, ram, base)[i..i + n] == Zeros(n)
  {
    var gpa, part := e.gpa as int + i, EntryBytes(e, ram, base)[i..i + n];
    forall j | 0 <= j < n ensures part[j] == ByteAt(ram, base, gpa + j) {
      assert part[j] == EntryBytes(e, ram, base)[i + j];
    }
    hide EntryBytes;
  }

  lemma FlatNext(backing: seq<Entry>, ram: seq<byte>, base: nat, k: nat)
    requires k < |backing|
    ensures Flat(backing[..k + 1], ram, base) == Flat(backing[..k], ram, base) + EntryBytes(backing[k], ram, base)
  {
    assert backing[..k + 1][..k] == backing[..k];
  }

  /** The flattening of a prefix is a prefix. */
  lemma {:induction false} FlatPrefix(backing: seq<Entry>, ram: seq<byte>, base: nat, k: nat) returns (more: seq<byte>)
    requires k <= |backing|
    ensures Flat(backing, ram, base) == Flat(backing[..k], ram, base) + more
    decreases |backing| - k
  {
    if k == |backing| {
      assert backing[..k] == backing;
      more := [];
    } else {
      var rest := FlatPrefix(backing, ram, base, k + 1);
      FlatNext(backing, ram, base, k);
      more := EntryBytes(backing[k], ram, base) + rest;
      hide Flat, EntryBytes;
    }
  }

  /** `dst` with the window at `at`. */
  function Shown(was: seq<byte>, at: nat, len: nat, flat: seq<byte>, start: nat): (s: seq<byte>)
    requires at + len <= |was|
    ensures |s| == |was|
  {
    Splice(was, at, Window(flat, start, was[at..at + len]))
  }

  lemma ShownGrows(was: seq<byte>, at: nat, len: nat, flat: seq<byte>, start: nat, more: seq<byte>, i: nat, n: nat, to: nat)
    requires at + len <= |was| && i + |flat| == Max(|flat|, start) && n > 0 && to + start == at + i + |flat|
    requires i + n + |flat| == Min(|flat| + |more|, start + len)
    ensures to + n <= |was| && i + n <= |more|
    ensures Shown(was, at, len, flat + more, start) == Splice(Shown(was, at, len, flat, start), to, more[i..i + n])
  {
    hide Window, Shown, Splice;
    var held := was[at..at + len];
    WindowGrows(flat, more, start, held, i, n, to - at);
    SpliceInner(was, at, Window(flat, start, held), to - at, more[i..i + n]);
    ShownIs(was, at, len, flat, start);
    ShownIs(was, at, len, flat + more, start);
    hide *;
  }

  lemma ShownIs(was: seq<byte>, at: nat, len: nat, flat: seq<byte>, start: nat)
    requires at + len <= |was|
    ensures Shown(was, at, len, flat, start) == Splice(was, at, Window(flat, start, was[at..at + len]))
  {
  }

  lemma ShownStays(was: seq<byte>, at: nat, len: nat, flat: seq<byte>, start: nat, more: seq<byte>)
    requires at + len <= |was| && Max(|flat|, start) >= Min(|flat| + |more|, start + len)
    ensures Shown(was, at, len, flat + more, start) == Shown(was, at, len, flat, start)
  {
    WindowStays(flat, more, start, was[at..at + len]);
    hide Window, Splice, Max, Min;
  }

  /** How many of the `len` bytes from `start` on a byte string of length `n` has. */
  function Available(n: nat, start: nat, len: nat): nat
  {
    Min(n, start + len) - Min(n, start)
  }

  /** Copies the part of one entry that the window shows. */
  method CopyEntry(e: Entry, ram: array<byte>, base: nat, linBase: nat, start: nat, dst: array<byte>, at: nat, len: nat,
      ghost was: seq<byte>, ghost flat: seq<byte>)
    returns (n: nat)
    requires ram != dst && EntryOk(e, base, ram.Length) && |was| == dst.Length && at + len <= |was| && linBase == |flat|
    requires dst[..] == Shown(was, at, len, flat, start)
    modifies dst
    ensures dst[..] == Shown(was, at, len, flat + EntryBytes(e, ram[..], base), start)
    ensures Available(linBase + e.len, start, len) == Available(linBase, start, len) + n
  {
    hide *;
    var ovStart, ovEnd := Max(linBase, start), Min(linBase + e.len, start + len);
    n := 0;
    if ovStart < ovEnd {
      n := ovEnd - ovStart;
      ShownGrows(was, at, len, flat, start, EntryBytes(e, ram[..], base), ovStart - linBase, n, at + (ovStart - start));
      CopyPiece(e, ram, base, ovStart - linBase, n, dst, at + (ovStart - start));
    } else {
      ShownStays(was, at, len, flat, start, EntryBytes(e, ram[..], base));
    }
    OverlapCount(linBase, e.len, start, len, n);
  }

  /** What the overlap of an entry and a window adds to the count. */
  lemma OverlapCount(lin: nat, more: nat, start: nat, len: nat, n: nat)
    requires var lo, hi := Max(lin, start), Min(lin + more, start + len); n == if lo < hi then hi - lo else 0
    ensures Available(lin + more, start, len) == Available(lin, start, len) + n
  {
  }

  method CopyPiece(e: Entry, ram: array<byte>, base: nat, inEntry: nat, n: nat, dst: array<byte>, to: nat)
    requires ram != dst && EntryOk(e, base, ram.Length) && 0 < n && inEntry + n <= e.len && to + n <= dst.Length
    modifies dst
    ensures dst[..] == Splice(old(dst[..]), to, EntryBytes(e, ram[..], base)[inEntry..inEntry + n])
  {
    EntryPart(e, ram[..], base, inEntry, n);
    hide EntryBytes, Splice, EntryOk;
    var gpa := e.gpa as int + inEntry;
    if base <= gpa < base + ram.Length {
      Put(dst, to, ram[gpa - base..gpa - base + n]);
    } else {
      Put(dst, to, Zeros(n));
    }
  }

  /**
     Reads `len` bytes of the backing from offset `start` on into `dst`: zeros where an entry is not
     mapped, `dst` left alone past the end of the backing.
   */
  method ReadBacking(backing: seq<Entry>, ram: array<byte>, base: nat, start: nat, dst: array<byte>, at: nat, len: nat)
    returns (copied: nat)
    requires ram != dst && BackingOk(backing, base, ram.Length) && at + len <= dst.Length
    modifies dst
    ensures dst[..] == Shown(old(dst[..]), at, len, Flat(backing, ram[..], base), start)
    ensures copied == Available(|Flat(backing, ram[..], base)|, start, len)
  {
    ghost var was := dst[..];
    var endOff, linBase, k := start + len, 0, 0;
    copied := 0;
    WindowEmpty(start, was[at..at + len]);
    SpliceSame(was, at, len);
    while k < |backing|
      invariant k <= |backing| && linBase == |Flat(backing[..k], ram[..], base)|
      invariant dst[..] == Shown(was, at, len, Flat(backing[..k], ram[..], base), start)
      invariant copied == Available(linBase, start, len)
    {
      if linBase >= endOff {
        break;
      }
      FlatNext(backing, ram[..], base, k);
      var n := CopyEntry(backing[k], ram, base, linBase, start, dst, at, len, was, Flat(backing[..k], ram[..], base));
      copied := copied + n;
      linBase := linBase + backing[k].len;
      k := k + 1;
    }
    ghost var more := FlatPrefix(backing, ram[..], base, k);
    if k == |backing| {
      assert backing[..k] == backing;
    } else {
      WindowFull(Flat(backing[..k], ram[..], base), more, start, was[at..at + len]);
    }
  }
}
