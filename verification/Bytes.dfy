/** Machine integers, byte strings and their big- and little-endian encodings. */
module Bytes {

  type byte = x: int | 0 <= x < 0x100
  type u16 = x: int | 0 <= x < 0x1_0000
  type u32 = x: int | 0 <= x < 0x1_0000_0000
  type u64 = x: int | 0 <= x < 0x1_0000_0000_0000_0000

  /** Where unsigned integers of each width wrap around. */
  const U16_RANGE := 0x1_0000
  const U32_RANGE := 0x1_0000_0000
  const U64_RANGE := 0x1_0000_0000_0000_0000

  datatype Option<+T> = None | Some(value: T)

  function Min(a: nat, b: nat): (m: nat)
    ensures m <= a && m <= b && (m == a || m == b)
  {
    if a < b then a else b
  }

  // ── Big-endian ────────────────────────────────────────────────────────────

  function Be16(x: u16): (s: seq<byte>)
    ensures |s| == 2
  {
    [x / 0x100, x % 0x100]
  }

  function Be32(x: u32): (s: seq<byte>)
    ensures |s| == 4
  {
    Be16(x / 0x1_0000) + Be16(x % 0x1_0000)
  }

  function Be64(x: u64): (s: seq<byte>)
    ensures |s| == 8
  {
    Be32(x / 0x1_0000_0000) + Be32(x % 0x1_0000_0000)
  }

  function ReadBe16(s: seq<byte>, i: nat): u16
    requires i + 2 <= |s|
  {
    s[i] as int * 0x100 + s[i + 1] as int
  }

  function ReadBe32(s: seq<byte>, i: nat): u32
    requires i + 4 <= |s|
  {
    ReadBe16(s, i) as int * 0x1_0000 + ReadBe16(s, i + 2) as int
  }

  function ReadBe64(s: seq<byte>, i: nat): u64
    requires i + 8 <= |s|
  {
    ReadBe32(s, i) as int * 0x1_0000_0000 + ReadBe32(s, i + 4) as int
  }

  lemma ReadBe16At(s: seq<byte>, i: nat, x: u16)
    requires i + 2 <= |s| && s[i..i + 2] == Be16(x)
    ensures ReadBe16(s, i) == x
  {
    assert s[i..i + 2][0] == s[i] && s[i..i + 2][1] == s[i + 1];
  }

  lemma ReadBe32At(s: seq<byte>, i: nat, x: u32)
    requires i + 4 <= |s| && s[i..i + 4] == Be32(x)
    ensures ReadBe32(s, i) == x
  {
    var hi: u16, lo: u16 := x / 0x1_0000, x % 0x1_0000;
    assert s[i..i + 2] == s[i..i + 4][..2] == Be16(hi);
    assert s[i + 2..i + 4] == s[i..i + 4][2..] == Be16(lo);
    hide Be16, ReadBe16;
    ReadBe16At(s, i, hi);
    ReadBe16At(s, i + 2, lo);
  }

  lemma ReadBe64At(s: seq<byte>, i: nat, x: u64)
    requires i + 8 <= |s| && s[i..i + 8] == Be64(x)
    ensures ReadBe64(s, i) == x
  {
    hide Be32, ReadBe32;
    var hi: u32, lo: u32 := x / 0x1_0000_0000, x % 0x1_0000_0000;
    assert s[i..i + 4] == s[i..i + 8][..4] == Be32(hi);
    assert s[i + 4..i + 8] == s[i..i + 8][4..] == Be32(lo);
    ReadBe32At(s, i, hi);
    ReadBe32At(s, i + 4, lo);
  }

  /** Network order: the most significant byte first. */
  lemma BigEndian(s: seq<byte>, i: nat)
    ensures i + 2 <= |s| ==> ReadBe16(s, i) == 0x100 * s[i] as int + s[i + 1] as int
    ensures i + 4 <= |s| ==>
              ReadBe32(s, i) == 0x100_0000 * s[i] as int + 0x1_0000 * s[i + 1] as int + 0x100 * s[i + 2] as int + s[i + 3] as int
    ensures i + 8 <= |s| ==> ReadBe64(s, i) == 0x1_0000_0000 * ReadBe32(s, i) as int + ReadBe32(s, i + 4) as int
  {
  }

  // ── Little-endian ─────────────────────────────────────────────────────────

  function Le16(x: u16): (s: seq<byte>)
    ensures |s| == 2
  {
    [x % 0x100, x / 0x100]
  }

  function Le32(x: u32): (s: seq<byte>)
    ensures |s| == 4
  {
    Le16(x % 0x1_0000) + Le16(x / 0x1_0000)
  }

  function ReadLe16(s: seq<byte>, i: nat): u16
    requires i + 2 <= |s|
  {
    s[i] as int + s[i + 1] as int * 0x100
  }

  function ReadLe32(s: seq<byte>, i: nat): u32
    requires i + 4 <= |s|
  {
    ReadLe16(s, i) as int + ReadLe16(s, i + 2) as int * 0x1_0000
  }

  function ReadLe64(s: seq<byte>, i: nat): u64
    requires i + 8 <= |s|
  {
    ReadLe32(s, i) as int + ReadLe32(s, i + 4) as int * 0x1_0000_0000
  }

  /** The host's order: the least significant byte first. */
  lemma LittleEndian(s: seq<byte>, i: nat)
    ensures i + 2 <= |s| ==> ReadLe16(s, i) == s[i] as int + 0x100 * s[i + 1] as int
    ensures i + 4 <= |s| ==>
              ReadLe32(s, i) == s[i] as int + 0x100 * s[i + 1] as int + 0x1_0000 * s[i + 2] as int + 0x100_0000 * s[i + 3] as int
    ensures i + 8 <= |s| ==> ReadLe64(s, i) == ReadLe32(s, i) as int + 0x1_0000_0000 * ReadLe32(s, i + 4) as int
  {
  }

  lemma ReadLe16At(s: seq<byte>, i: nat, x: u16)
    requires i + 2 <= |s| && s[i..i + 2] == Le16(x)
    ensures ReadLe16(s, i) == x
  {
    assert s[i..i + 2][0] == s[i] && s[i..i + 2][1] == s[i + 1];
  }

  lemma ReadLe32At(s: seq<byte>, i: nat, x: u32)
    requires i + 4 <= |s| && s[i..i + 4] == Le32(x)
    ensures ReadLe32(s, i) == x
  {
    var hi: u16, lo: u16 := x / 0x1_0000, x % 0x1_0000;
    assert s[i..i + 2] == s[i..i + 4][..2] == Le16(lo);
    assert s[i + 2..i + 4] == s[i..i + 4][2..] == Le16(hi);
    hide Le16, ReadLe16;
    ReadLe16At(s, i, lo);
    ReadLe16At(s, i + 2, hi);
  }

  /** Reads see only the bytes they read. */
  lemma ReadShifted(s: seq<byte>, i: nat, t: seq<byte>, j: nat)
    requires i <= |s| && j <= |t| && s[i..] == t[j..]
    ensures i + 4 <= |s| ==> j + 4 <= |t| && ReadLe32(s, i) == ReadLe32(t, j) && ReadBe32(s, i) == ReadBe32(t, j)
    ensures i + 2 <= |s| ==> j + 2 <= |t| && ReadLe16(s, i) == ReadLe16(t, j) && ReadBe16(s, i) == ReadBe16(t, j)
    ensures i + 8 <= |s| ==> j + 8 <= |t| && ReadLe64(s, i) == ReadLe64(t, j)
  {
    assert forall k :: 0 <= k < |s| - i ==> s[i + k] == s[i..][k];
    assert forall k :: 0 <= k < |t| - j ==> t[j + k] == t[j..][k];
  }

  // ── Byte strings ──────────────────────────────────────────────────────────

  function Zeros(n: nat): (s: seq<byte>)
    ensures |s| == n && forall i :: 0 <= i < n ==> s[i] == 0
  {
    seq(n, i => 0)
  }

  lemma Regroup(a: seq<byte>, b: seq<byte>, c: seq<byte>)
    ensures (a + b) + c == a + (b + c)
    ensures a <= a + b
  {
  }

  /** The chunks of `ss`, one after the other. */
  function Concat(ss: seq<seq<byte>>): seq<byte>
  {
    if ss == [] then [] else ss[0] + Concat(ss[1..])
  }

  lemma {:induction false} ConcatAppend(ss: seq<seq<byte>>, ts: seq<seq<byte>>)
    ensures Concat(ss + ts) == Concat(ss) + Concat(ts)
  {
    if ss == [] {
      assert ss + ts == ts;
    } else {
      assert (ss + ts)[1..] == ss[1..] + ts;
      ConcatAppend(ss[1..], ts);
    }
  }

  lemma ConcatSingle(s: seq<byte>)
    ensures Concat([s]) == s
  {
    assert Concat([s]) == s + Concat([]);
  }

  lemma Uncons<T>(x: T, xs: seq<T>)
    ensures ([x] + xs)[0] == x && ([x] + xs)[1..] == xs
  {
  }

  /** `s` with the bytes from `off` on replaced by `data`. */
  function Splice(s: seq<byte>, off: nat, data: seq<byte>): (r: seq<byte>)
    requires off + |data| <= |s|
    ensures |r| == |s|
    ensures r[off..off + |data|] == data
    ensures forall i :: 0 <= i < |s| && (i < off || off + |data| <= i) ==> r[i] == s[i]
  {
    s[..off] + data + s[off + |data|..]
  }

  lemma SpliceTwice(s: seq<byte>, off: nat, a: seq<byte>, b: seq<byte>)
    requires off + |a| + |b| <= |s|
    ensures Splice(Splice(s, off, a), off + |a|, b) == Splice(s, off, a + b)
  {
  }

  /** `memcpy` into a buffer. */
  method Put(buf: array<byte>, off: nat, data: seq<byte>)
    requires off + |data| <= buf.Length
    modifies buf
    ensures buf[..] == Splice(old(buf[..]), off, data)
  {
    forall i | 0 <= i < |data| {
      buf[off + i] := data[i];
    }
  }
}
