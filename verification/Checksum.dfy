/**
 The Internet checksum of network.cpp, computed on a little-endian host, and the receiver's check
 of RFC 1071: the one's-complement sum over the finished bytes is all ones, whichever byte order
 the receiver reads its 16-bit words in.
 */
module Checksum {
  import opened Bytes

  /** Sum of 16-bit words as a little-endian host reads them; an odd last byte is a word of its own. */
  function Sum(s: seq<byte>): (n: nat)
    ensures n <= 0x1_0000 * |s|
  {
    if |s| == 0 then 0
    else if |s| == 1 then s[0]
    else s[0] as int + 0x100 * s[1] as int + Sum(s[2..])
  }

  /** The same sum for a reader in network byte order, which pads an odd last byte on the right. */
  function SumBe(s: seq<byte>): nat
  {
    if |s| == 0 then 0
    else if |s| == 1 then 0x100 * s[0] as int
    else 0x100 * s[0] as int + s[1] as int + SumBe(s[2..])
  }

  /**
     What the two sums are: every word of 16 bits counts once, and an odd last byte as a word whose
     other byte is zero, on the right of it in network byte order.
   */
  lemma {:induction false} SumGrows(s: seq<byte>, x: byte, y: byte)
    requires |s| % 2 == 0
    ensures Sum(s + [x]) == Sum(s) + x as int && SumBe(s + [x]) == SumBe(s) + 0x100 * x as int
    ensures Sum(s + [x, y]) == Sum(s) + x as int + 0x100 * y as int
    ensures SumBe(s + [x, y]) == SumBe(s) + 0x100 * x as int + y as int
  {
    if s == [] {
      assert s + [x] == [x] && s + [x, y] == [x, y];
      assert [x, y][2..] == [];
    } else {
      assert (s + [x])[2..] == s[2..] + [x] && (s + [x, y])[2..] == s[2..] + [x, y];
      SumGrows(s[2..], x, y);
    }
  }

  /** Carries added back in until 16 bits are left. */
  function Fold(n: nat): nat
  {
    if n < 0x1_0000 then n else Fold(n % 0x1_0000 + n / 0x1_0000)
  }

  /** What a receiver tests, in network byte order and in the host's. */
  predicate Verifies(s: seq<byte>)
  {
    Fold(SumBe(s)) == 0xffff && Fold(Sum(s)) == 0xffff
  }

  // ── Arithmetic modulo 0xffff ──────────────────────────────────────────────

  lemma SameRemainder(n: int, m: int, q: int)
    requires n == m + 0xffff * q
    ensures n % 0xffff == m % 0xffff
  {
    assert m == 0xffff * (m / 0xffff) + m % 0xffff;
    assert n == 0xffff * (m / 0xffff + q) + m % 0xffff;
  }

  lemma {:induction false} FoldMod(n: nat)
    ensures Fold(n) < 0x1_0000 && Fold(n) % 0xffff == n % 0xffff && (Fold(n) == 0 <==> n == 0)
  {
    if n >= 0x1_0000 {
      var m := n % 0x1_0000 + n / 0x1_0000;
      var q := n / 0x1_0000;
      FoldMod(m);
      assert n == m + 0xffff * q;
      SameRemainder(n, m, q);
    }
  }

  lemma FoldsToOnes(n: nat)
    ensures Fold(n) == 0xffff <==> n > 0 && n % 0xffff == 0
  {
    FoldMod(n);
  }

  /** Swapping the bytes of every word multiplies the sum by 0x100 modulo 0xffff. */
  lemma {:induction false} ByteOrder(s: seq<byte>) returns (k: int)
    ensures SumBe(s) == 0x100 * Sum(s) - 0xffff * k
    ensures Sum(s) == 0 <==> SumBe(s) == 0
  {
    if |s| <= 1 {
      k := 0;
    } else {
      var k' := ByteOrder(s[2..]);
      k := k' + s[1];
    }
  }

  /** Both receivers accept as soon as the little-endian sum is a positive multiple of 0xffff. */
  lemma BothVerify(s: seq<byte>)
    requires Sum(s) > 0 && Sum(s) % 0xffff == 0
    ensures Verifies(s)
  {
    var k := ByteOrder(s);
    Multiple(Sum(s), SumBe(s), k);
    FoldsToOnes(Sum(s));
    FoldsToOnes(SumBe(s));
    hide Sum, SumBe, Fold;
  }

  lemma Multiple(n: nat, m: nat, k: int)
    requires n % 0xffff == 0 && m == 0x100 * n - 0xffff * k
    ensures m % 0xffff == 0
  {
    var q := n / 0xffff;
    assert n == 0xffff * q && m == 0xffff * (0x100 * q - k);
  }

  lemma {:induction false} SumAppend(a: seq<byte>, b: seq<byte>)
    requires |a| % 2 == 0
    ensures Sum(a + b) == Sum(a) + Sum(b)
  {
    if a == [] {
      assert a + b == b;
    } else {
      assert (a + b)[2..] == a[2..] + b;
      SumAppend(a[2..], b);
    }
  }

  lemma {:induction false} SumBound(s: seq<byte>)
    ensures Sum(s) <= 0xffff * ((|s| + 1) / 2)
  {
    if |s| >= 2 {
      SumBound(s[2..]);
    }
  }

  /** The complement of the folded sum. */
  function Complement(s: seq<byte>): (ck: u16)
  {
    FoldMod(Sum(s));
    0xffff - Fold(Sum(s))
  }

  /** The value a UDP sender stores: zero would mean that there is no checksum. */
  function NonZero(ck: u16): u16
  {
    if ck == 0 then 0xffff else ck
  }

  /**
     A message with a zeroed checksum field at an even offset verifies once the field holds the
     complement of its sum, stored as the host stores a 16-bit word.
   */
  lemma FieldVerifies(before: seq<byte>, after: seq<byte>, ck: u16)
    requires |before| % 2 == 0
    requires ck == Complement(before + Le16(0) + after) || ck == NonZero(Complement(before + Le16(0) + after))
    ensures Verifies(before + Le16(ck) + after)
  {
    var n := Sum(before) + Sum(after);
    FieldSum(before, after, 0);
    FieldSum(before, after, ck);
    FoldMod(n);
    var f := Fold(n);
    assert ck == 0xffff - f || (ck == 0xffff && f == 0xffff);
    hide Sum, Fold, Le16, Verifies;
    Complements(n, f, ck);
    BothVerify(before + Le16(ck) + after);
  }

  lemma Complements(n: nat, f: nat, ck: u16)
    requires f % 0xffff == n % 0xffff && (f == 0 <==> n == 0)
    requires ck == 0xffff - f || (ck == 0xffff && f == 0xffff)
    ensures (n + ck) % 0xffff == 0 && n + ck > 0
  {
    var j := n / 0xffff - f / 0xffff;
    assert n == f + 0xffff * j;
    SameRemainder(n + ck, if ck == 0xffff - f then 0xffff else 0, if ck == 0xffff - f then j else j + 2);
  }

  lemma FieldSum(before: seq<byte>, after: seq<byte>, ck: u16)
    requires |before| % 2 == 0
    ensures Sum(before + Le16(ck) + after) == Sum(before) + ck + Sum(after)
  {
    assert before + Le16(ck) + after == before + (Le16(ck) + after);
    SumAppend(before, Le16(ck) + after);
    SumAppend(Le16(ck), after);
    assert Sum(Le16(ck)) == ck;
  }

  // ── The loops ─────────────────────────────────────────────────────────────

  /** `s += *w++` over the words of `p`, then the odd byte; the accumulator is 32 bits wide. */
  method AddWords(p: seq<byte>, start: u32) returns (s: u32)
    ensures start + Sum(p) < U32_RANGE ==> s == start + Sum(p)
  {
    s := start;
    var i: nat := 0;
    while |p| - i >= 2
      invariant i <= |p| && i % 2 == 0
      invariant start + Sum(p) < U32_RANGE ==> s + Sum(p[i..]) == start + Sum(p)
      decreases |p| - i
    {
      assert Sum(p[i..]) == p[i] as int + 0x100 * p[i + 1] as int + Sum(p[i..][2..]);
      assert p[i..][2..] == p[i + 2..];
      s := (s as int + ReadLe16(p, i) as int) % U32_RANGE;
      i := i + 2;
    }
    if i < |p| {
      assert p[i..] == [p[i]];
      s := (s as int + p[i] as int) % U32_RANGE;
    }
  }

  method FoldAndComplement(sum: u32) returns (ck: u16)
    ensures Fold(sum) <= 0xffff && ck == 0xffff - Fold(sum)
  {
    var s := sum;
    while s / 0x1_0000 != 0
      invariant Fold(s) == Fold(sum)
      decreases s
    {
      s := s % 0x1_0000 + s / 0x1_0000;
    }
    ck := (0xffff_ffff - s) % 0x1_0000;
  }

  /** No caller's length is more than 16 bits; the 32-bit accumulator is exact up to 131074 bytes. */
  method IpCksum(p: seq<byte>) returns (ck: u16)
    ensures |p| <= 131074 ==> ck == Complement(p)
  {
    SumBound(p);
    var s := AddWords(p, 0);
    ck := FoldAndComplement(s);
  }

  /** The pseudo-header of RFC 793 and RFC 768, in network byte order. */
  function PseudoHeader(sip: u32, dip: u32, proto: byte, len: u16): (s: seq<byte>)
    ensures |s| == 12
  {
    Be32(sip) + Be32(dip) + [0, proto] + Be16(len)
  }

  /** The sum runs over the pseudo-header and then the segment, and never overflows. */
  method TransportCksum(sip: u32, dip: u32, proto: byte, seg: seq<byte>) returns (ck: u16)
    requires |seg| < 0x1_0000
    ensures ck == Complement(PseudoHeader(sip, dip, proto, |seg|) + seg)
  {
    var ph := PseudoHeader(sip, dip, proto, |seg|);
    SumAppend(ph, seg);
    SumBound(ph);
    SumBound(seg);
    hide Sum, PseudoHeader;
    var s := AddWords(ph, 0);
    s := AddWords(seg, s);
    ck := FoldAndComplement(s);
  }
}
