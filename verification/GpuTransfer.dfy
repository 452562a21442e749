/**
 Copying rectangles from a resource's backing into its buffer, and what a covering set of such copies
 comes to.
 */
module GpuTransfer {
  import opened Bytes
  import opened GpuBacking

  datatype Rect = Rect(x: u32, y: u32, width: u32, height: u32)

  // ── The copy, as the code computes it ─────────────────────────────────────

  /** Row length in bytes, in 32 bits. */
  function Stride(width: u32): u32
  {
    width as int * PIXEL % U32_RANGE
  }

  /** The right and lower edges of a rectangle, clipped; the sums wrap at 32 bits. */
  function Right(r: Rect, width: u32): (x2: u32)
    ensures x2 <= width
  {
    Min((r.x as int + r.width as int) % U32_RANGE, width)
  }

  function Bottom(r: Rect, height: u32): (y2: u32)
    ensures y2 <= height
  {
    Min((r.y as int + r.height as int) % U32_RANGE, height)
  }

  function RowBytes(r: Rect, width: u32): u32
    requires r.x <= Right(r, width)
  {
    (Right(r, width) - r.x) as int * PIXEL % U32_RANGE
  }

  function Area(width: u32, height: u32): nat
  {
    width as int * height as int * PIXEL
  }

  /** Where a row of the rectangle goes in the buffer. */
  function RowStart(r: Rect, width: u32, row: nat): nat
  {
    row * Stride(width) + r.x as int * PIXEL
  }

  /** Where it comes from in the backing. */
  function RowSource(r: Rect, width: u32, offset: nat, row: nat): nat
    requires r.y as int <= row
  {
    offset + (row - r.y as int) * Stride(width)
  }

  /** Every row of a clipped rectangle lies in the buffer, whatever wrapped. */
  lemma RowInside(r: Rect, width: u32, height: u32, row: nat)
    requires r.x <= Right(r, width) && row < height
    ensures RowStart(r, width, row) + RowBytes(r, width) <= Area(width, height)
  {
    var w, s, x, n := width as int, Stride(width) as int, r.x as int, RowBytes(r, width) as int;
    assert s <= PIXEL * w && n <= PIXEL * (w - x) by {
      ModAtMost(PIXEL * w);
      ModAtMost((Right(r, width) - r.x) as int * PIXEL);
    }
    assert RowStart(r, width, row) == row * s + x * PIXEL;
    hide *;
    assert row * s <= row * (PIXEL * w) by { Monotone(row, s, PIXEL * w); }
    assert (row + 1) * (PIXEL * w) <= height as int * (PIXEL * w) by { Monotone(PIXEL * w, row + 1, height as int); }
    assert Area(width, height) == height as int * (PIXEL * w) by { AreaByRows(width, height); }
  }

  lemma ModAtMost(n: nat)
    ensures n % U32_RANGE <= n
  {
  }

  lemma Monotone(k: nat, a: nat, b: nat)
    requires a <= b
    ensures k * a <= k * b && a * k <= b * k
  {
  }

  lemma AreaByRows(width: u32, height: u32)
    ensures Area(width, height) == height as int * (PIXEL * width as int)
  {
  }

  /** The rows from the top of the rectangle up to, not including, `last`. */
  function Rows(buf: seq<byte>, flat: seq<byte>, width: u32, height: u32, r: Rect, offset: nat, last: nat): (buf': seq<byte>)
    requires |buf| == Area(width, height) && r.x <= Right(r, width) && r.y as int <= last <= height as int
    ensures |buf'| == |buf|
    decreases last
  {
    hide *;
    if last == r.y as int then buf
    else
      RowInside(r, width, height, last - 1);
      Shown(Rows(buf, flat, width, height, r, offset, last - 1), RowStart(r, width, last - 1), RowBytes(r, width),
            flat, RowSource(r, width, offset, last - 1))
  }

  /** The whole rectangle, if any of it is inside. */
  function Transfer(buf: seq<byte>, flat: seq<byte>, width: u32, height: u32, r: Rect, offset: nat): (buf': seq<byte>)
    requires |buf| == Area(width, height)
    ensures |buf'| == |buf|
  {
    if r.x < Right(r, width) && r.y < Bottom(r, height) then Rows(buf, flat, width, height, r, offset, Bottom(r, height))
    else buf
  }

  lemma RowsNext(buf: seq<byte>, flat: seq<byte>, width: u32, height: u32, r: Rect, offset: nat, row: nat)
    requires |buf| == Area(width, height) && r.x <= Right(r, width) && r.y as int <= row < height as int
    ensures RowStart(r, width, row) + RowBytes(r, width) <= |buf|
    ensures Rows(buf, flat, width, height, r, offset, row + 1)
            == Shown(Rows(buf, flat, width, height, r, offset, row), RowStart(r, width, row), RowBytes(r, width), flat,
                     RowSource(r, width, offset, row))
  {
    RowInside(r, width, height, row);
    hide RowSource, RowStart, RowBytes, Right, Area, Stride, Shown;
  }

  lemma TransferIs(buf: seq<byte>, flat: seq<byte>, width: u32, height: u32, r: Rect, offset: nat)
    requires |buf| == Area(width, height)
    ensures if r.x < Right(r, width) && r.y < Bottom(r, height) then
              && Transfer(buf, flat, width, height, r, offset) == Rows(buf, flat, width, height, r, offset, Bottom(r, height))
              && Rows(buf, flat, width, height, r, offset, r.y as int) == buf
            else Transfer(buf, flat, width, height, r, offset) == buf
  {
    hide RowSource, RowStart, RowBytes, Right, Bottom, Area, Stride, Shown;
  }

  /** One row. */
  method CopyRow(backing: seq<Entry>, ram: array<byte>, base: nat, buf: array<byte>,
      width: u32, height: u32, r: Rect, offset: nat, stride: u32, rowBytes: u32, row: nat)
    requires ram != buf && BackingOk(backing, base, ram.Length) && buf.Length == Area(width, height)
    requires r.x <= Right(r, width) && r.y <= row < height && stride == Stride(width) && rowBytes == RowBytes(r, width)
    modifies buf
    ensures RowStart(r, width, row) + rowBytes <= buf.Length
    ensures buf[..] == Shown(old(buf[..]), RowStart(r, width, row), rowBytes, Flat(backing, ram[..], base), RowSource(r, width, offset, row))
  {
    RowInside(r, width, height, row);
    var srcOff, dstOff := offset + (row - r.y) * stride, row * stride + r.x * PIXEL;
    assert srcOff == RowSource(r, width, offset, row) && dstOff == RowStart(r, width, row);
    hide *;
    var copied := ReadBacking(backing, ram, base, srcOff, buf, dstOff, rowBytes);
  }

  /** The loop over the rows. */
  method TransferRows(backing: seq<Entry>, ram: array<byte>, base: nat, buf: array<byte>,
      width: u32, height: u32, r: Rect, offset: nat)
    requires ram != buf && BackingOk(backing, base, ram.Length) && buf.Length == Area(width, height)
    modifies buf
    ensures buf[..] == Transfer(old(buf[..]), Flat(backing, ram[..], base), width, height, r, offset)
  {
    hide *;
    ghost var was, flat := buf[..], Flat(backing, ram[..], base);
    var x2, y2 := Right(r, width), Bottom(r, height);
    TransferIs(was, flat, width, height, r, offset);
    if r.x < x2 && r.y < y2 {
      var stride, rowBytes := Stride(width), RowBytes(r, width);
      var row: nat := r.y;
      while row < y2
        invariant r.y <= row <= y2
        invariant buf[..] == Rows(was, flat, width, height, r, offset, row)
      {
        RowsNext(was, flat, width, height, r, offset, row);
        CopyRow(backing, ram, base, buf, width, height, r, offset, stride, rowBytes, row);
        row := row + 1;
      }
    }
  }

  // ── What it copies ────────────────────────────────────────────────────────

  /** A byte `c` of row `row` belongs to the clipped rectangle. */
  predicate Covers(r: Rect, width: u32, height: u32, row: nat, c: nat)
  {
    r.y as int <= row < Bottom(r, height) as int && r.x as int * PIXEL <= c < Right(r, width) as int * PIXEL
  }

  lemma ShownAt(was: seq<byte>, at: nat, len: nat, flat: seq<byte>, start: nat, p: nat)
    requires at + len <= |was| && p < |was|
    ensures Shown(was, at, len, flat, start)[p]
            == if at <= p < at + len && start + (p - at) < |flat| then flat[start + (p - at)] else was[p]
  {
    var held := was[at..at + len];
    SpliceAt(was, at, Window(flat, start, held), p);
    if at <= p < at + len {
      WindowAt(flat, start, held, p - at);
    }
  }

  /** Rows of a common length do not overlap. */
  lemma SameRow(row: nat, k: nat, len: nat, c: nat, lo: nat, hi: nat)
    requires c < len && lo <= hi <= len
    ensures k * len + lo <= row * len + c < k * len + hi <==> row == k && lo <= c < hi
  {
    if row < k {
      Monotone(len, row + 1, k);
      assert row * len + len == (row + 1) * len;
    } else if k < row {
      Monotone(len, k + 1, row);
      assert k * len + len == (k + 1) * len;
    }
  }

  lemma InBuffer(width: u32, height: u32, row: nat, c: nat, len: nat, p: nat)
    requires row < height && len == width * PIXEL && c < len && p == row * len + c
    ensures p < Area(width, height)
  {
    AreaByRows(width, height);
    hide Area;
    Monotone(len, row + 1, height);
    assert (row + 1) * len == row * len + len;
  }

  /** The byte of the backing that belongs at byte `c` of row `row` in the rectangle. */
  function Source(r: Rect, offset: nat, len: nat, row: nat, c: nat): nat
    requires r.y as int <= row && r.x as int * PIXEL <= c
  {
    Monotone(len, 0, row - r.y as int);
    offset + (row - r.y as int) * len + (c - r.x as int * PIXEL)
  }

  /** What a byte becomes when the rows from the top of the rectangle up to `last` have been copied. */
  function Becomes(held: byte, flat: seq<byte>, r: Rect, x2: nat, offset: nat, last: nat, len: nat, row: nat, c: nat): byte
  {
    if r.y as int <= row < last && r.x as int * PIXEL <= c < x2 * PIXEL && Source(r, offset, len, row, c) < |flat|
    then flat[Source(r, offset, len, row, c)]
    else held
  }

  lemma {:induction false} RowsAt(buf: seq<byte>, flat: seq<byte>, width: u32, height: u32, r: Rect, offset: nat, last: nat,
      row: nat, c: nat, len: nat, p: nat)
    requires width * PIXEL < U32_RANGE && |buf| == Area(width, height) && len == width * PIXEL
    requires r.x <= Right(r, width) && r.y as int <= last <= height as int
    requires row < height && c < len && p == row * len + c && p < |buf|
    ensures Rows(buf, flat, width, height, r, offset, last)[p]
            == Becomes(buf[p], flat, r, Right(r, width), offset, last, len, row, c)
    decreases last
  {
    if last != r.y as int {
      var k, n := last - 1, RowBytes(r, width);
      RowInside(r, width, height, k);
      var prev := Rows(buf, flat, width, height, r, offset, k);
      var at, src := RowStart(r, width, k), RowSource(r, width, offset, k);
      assert Rows(buf, flat, width, height, r, offset, last) == Shown(prev, at, n, flat, src);
      Unwrapped(r, width, k, offset, len);
      hide *;
      RowsAt(buf, flat, width, height, r, offset, k, row, c, len, p);
      ShownAt(prev, at, n, flat, src, p);
      RowsStep(buf[p], prev[p], flat, r, Right(r, width), offset, k, len, row, c, p, at, n, src);
    } else {
      hide Right, Area, Stride, Source;
    }
  }

  /** One row more, for one byte. */
  lemma RowsStep(held: byte, prev: byte, flat: seq<byte>, r: Rect, x2: nat, offset: nat, k: nat, len: nat, row: nat, c: nat,
      p: nat, at: nat, n: nat, src: nat)
    requires c < len && p == row * len + c && r.y as int <= k && r.x as int <= x2 && x2 * PIXEL <= len
    requires at == k * len + r.x as int * PIXEL && r.x as int * PIXEL + n == x2 * PIXEL
    requires src == offset + (k - r.y as int) * len
    requires prev == Becomes(held, flat, r, x2, offset, k, len, row, c)
    ensures (if at <= p < at + n && src + (p - at) < |flat| then flat[src + (p - at)] else prev)
            == Becomes(held, flat, r, x2, offset, k + 1, len, row, c)
  {
    SameRow(row, k, len, c, r.x as int * PIXEL, x2 * PIXEL);
    if at <= p < at + n {
      assert row == k && src + (p - at) == Source(r, offset, len, row, c);
    }
    hide Source;
  }

  /** Without wrap-around, positions are what they should be. */
  lemma Unwrapped(r: Rect, width: u32, row: nat, offset: nat, len: nat)
    requires width * PIXEL < U32_RANGE && len == width * PIXEL && r.x <= Right(r, width) && r.y as int <= row
    ensures RowStart(r, width, row) == row * len + r.x as int * PIXEL
    ensures RowSource(r, width, offset, row) == offset + (row - r.y as int) * len
    ensures r.x as int * PIXEL + RowBytes(r, width) == Right(r, width) as int * PIXEL <= len
  {
    assert Stride(width) == len;
  }

  /**
     A transfer is an exact copy of the clipped rectangle, whatever the fragmentation of the backing:
     byte `c` of row `row` inside it becomes the byte at `offset + (row - y) * stride + (c - x * 4)` of
     the backing, or stays when the backing ends before that; every byte outside it stays.
   */
  lemma TransferAt(buf: seq<byte>, flat: seq<byte>, width: u32, height: u32, r: Rect, offset: nat, row: nat, c: nat,
      len: nat, p: nat)
    requires len == width * PIXEL < U32_RANGE && |buf| == Area(width, height)
    requires row < height && c < len && p == row * len + c
    ensures p < |buf|
            && Transfer(buf, flat, width, height, r, offset)[p]
               == if Covers(r, width, height, row, c) && Source(r, offset, len, row, c) < |flat|
                  then flat[Source(r, offset, len, row, c)] else buf[p]
  {
    InBuffer(width, height, row, c, len, p);
    hide Area;
    TransferByte(buf, flat, width, height, r, offset, row, c, len, p);
  }

  lemma TransferByte(buf: seq<byte>, flat: seq<byte>, width: u32, height: u32, r: Rect, offset: nat, row: nat, c: nat,
      len: nat, p: nat)
    requires width * PIXEL < U32_RANGE && |buf| == Area(width, height) && row < height && c < width * PIXEL
    requires len == width * PIXEL && p == row * len + c && p < |buf|
    ensures Transfer(buf, flat, width, height, r, offset)[p]
            == if Covers(r, width, height, row, c) && Source(r, offset, len, row, c) < |flat|
               then flat[Source(r, offset, len, row, c)] else buf[p]
  {
    TransferIs(buf, flat, width, height, r, offset);
    hide Rows, Transfer, Right, Bottom, Area, Source;
    if r.x < Right(r, width) && r.y < Bottom(r, height) {
      RowsAt(buf, flat, width, height, r, offset, Bottom(r, height), row, c, len, p);
    }
  }

  /**
     The same by pixels, where neither the rectangle nor a row wraps at 32 bits: byte `b` of the pixel at
     column `col` of row `row` comes from the pixel as far from the rectangle's corner in the backing.
   */
  lemma PixelMoves(buf: seq<byte>, flat: seq<byte>, width: u32, height: u32, r: Rect, offset: nat, row: nat, col: nat, b: nat,
      len: nat, p: nat)
    requires |buf| == width as int * height as int * 4 && len == width * 4 < 0x1_0000_0000
    requires r.x as int + r.width as int < 0x1_0000_0000 && r.y as int + r.height as int < 0x1_0000_0000
    requires row < height && col < width && b < 4 && p == row * len + col * 4 + b
    ensures p < |buf| && |buf| == Area(width, height)
    ensures Transfer(buf, flat, width, height, r, offset)[p]
            == if r.x as int <= col < r.x as int + r.width as int && r.y as int <= row < r.y as int + r.height as int
               then PixelFrom(flat, offset + (row - r.y as int) * len + (col - r.x as int) * 4 + b, buf[p]) else buf[p]
  {
    var c := col * 4 + b;
    assert |buf| == Area(width, height);
    PixelInside(r, width, height, row, col, b);
    if Covers(r, width, height, row, c) {
      assert Source(r, offset, len, row, c) == offset + (row - r.y as int) * len + (col - r.x as int) * 4 + b;
    }
    hide *;
    TransferAt(buf, flat, width, height, r, offset, row, c, len, p);
  }

  /** The byte at `at`, or `held` past the end of the backing. */
  function PixelFrom(flat: seq<byte>, at: int, held: byte): byte
  {
    if 0 <= at < |flat| then flat[at] else held
  }

  lemma PixelInside(r: Rect, width: u32, height: u32, row: nat, col: nat, b: nat)
    requires r.x as int + r.width as int < 0x1_0000_0000 && r.y as int + r.height as int < 0x1_0000_0000
    requires row < height && col < width && b < 4
    ensures Covers(r, width, height, row, col * 4 + b)
      <==> r.x as int <= col < r.x as int + r.width as int && r.y as int <= row < r.y as int + r.height as int
  {
  }

  // ── Tilings ───────────────────────────────────────────────────────────────

  /** The offset a driver gives when the backing has the layout of the buffer. */
  function OwnOffset(r: Rect, width: u32): nat
  {
    r.y * (width * PIXEL) + r.x * PIXEL
  }

  function TransferAll(buf: seq<byte>, flat: seq<byte>, width: u32, height: u32, rects: seq<Rect>): (buf': seq<byte>)
    requires |buf| == Area(width, height)
    ensures |buf'| == |buf|
    decreases rects
  {
    if rects == [] then buf
    else
      var r := rects[|rects| - 1];
      Transfer(TransferAll(buf, flat, width, height, rects[..|rects| - 1]), flat, width, height, r, OwnOffset(r, width))
  }

  ghost predicate Covered(rects: seq<Rect>, width: u32, height: u32, row: nat, c: nat)
  {
    exists i :: 0 <= i < |rects| && Covers(rects[i], width, height, row, c)
  }

  /** With its own offset, every rectangle takes a byte from where it goes. */
  lemma OwnSource(r: Rect, width: u32, row: nat, c: nat, len: nat)
    requires r.y <= row && r.x * PIXEL <= c && len == width * PIXEL
    ensures Source(r, OwnOffset(r, width), len, row, c) == row * len + c
  {
    var y, d := r.y as int, row - r.y;
    assert (y + d) * len == y * len + d * len;
  }

  /** After any sequence of transfers, a byte is that of the backing exactly if some rectangle covered it. */
  lemma {:induction false} TransferAllAt(buf: seq<byte>, flat: seq<byte>, width: u32, height: u32, rects: seq<Rect>, row: nat, c: nat,
      len: nat, p: nat)
    requires len == width * PIXEL < U32_RANGE && |buf| == Area(width, height) <= |flat|
    requires row < height && c < len && p == row * len + c
    ensures p < |buf|
            && TransferAll(buf, flat, width, height, rects)[p] == if Covered(rects, width, height, row, c) then flat[p] else buf[p]
    decreases rects
  {
    InBuffer(width, height, row, c, len, p);
    if rects != [] {
      var n := |rects| - 1;
      var r, init := rects[n], rects[..n];
      var before := TransferAll(buf, flat, width, height, init);
      CoveredBy(rects, width, height, row, c);
      assert TransferAll(buf, flat, width, height, rects) == Transfer(before, flat, width, height, r, OwnOffset(r, width));
      if Covers(r, width, height, row, c) {
        OwnSource(r, width, row, c, len);
      }
      hide TransferAll, Transfer, Covers, Covered, Source, OwnOffset, Area;
      TransferAllAt(buf, flat, width, height, init, row, c, len, p);
      TransferAt(before, flat, width, height, r, OwnOffset(r, width), row, c, len, p);
    }
  }

  lemma CoveredBy(rects: seq<Rect>, width: u32, height: u32, row: nat, c: nat)
    requires rects != []
    ensures Covered(rects, width, height, row, c)
            <==> Covered(rects[..|rects| - 1], width, height, row, c) || Covers(rects[|rects| - 1], width, height, row, c)
  {
    var n := |rects| - 1;
    if Covered(rects, width, height, row, c) {
      var i :| 0 <= i < |rects| && Covers(rects[i], width, height, row, c);
      assert i < n ==> Covers(rects[..n][i], width, height, row, c);
    }
    if Covered(rects[..n], width, height, row, c) {
      var i :| 0 <= i < n && Covers(rects[..n][i], width, height, row, c);
      assert Covers(rects[i], width, height, row, c);
    }
    hide Covers;
  }

  /** Together the rectangles cover the whole resource. */
  ghost predicate Tiling(rects: seq<Rect>, width: u32, height: u32)
  {
    forall row: nat, c: nat :: row < height && c < width * PIXEL ==> Covered(rects, width, height, row, c)
  }

  /**
     Any sequence of transfers that together cover the resource, each with its own offset, over a
     backing that is long enough leaves exactly the first bytes of the backing in the buffer,
     whatever was there before.
   */
  lemma TilingCopiesAll(buf: seq<byte>, flat: seq<byte>, width: u32, height: u32, rects: seq<Rect>)
    requires width * PIXEL < U32_RANGE && |buf| == Area(width, height) <= |flat| && Tiling(rects, width, height)
    ensures TransferAll(buf, flat, width, height, rects) == flat[..|buf|]
  {
    var buf' := TransferAll(buf, flat, width, height, rects);
    forall p | 0 <= p < |buf| ensures buf'[p] == flat[p] {
      var row, c := RowAndByte(width, height, p);
      assert Covered(rects, width, height, row, c);
      hide TransferAll, Covered, Area;
      TransferAllAt(buf, flat, width, height, rects, row, c, width * PIXEL, p);
    }
    hide *;
  }

  lemma RowAndByte(width: u32, height: u32, p: nat) returns (row: nat, c: nat)
    requires p < Area(width, height)
    ensures row < height && c < width * PIXEL && p == row * (width * PIXEL) + c
  {
    AreaByRows(width, height);
    var len, h: nat := width * PIXEL, height;
    hide *;
    assert p < h * len;
    row, c := Divide(p, len, h);
  }

  lemma BothPositive(a: nat, b: nat)
    requires 0 < a * b
    ensures 0 < a && 0 < b
  {
  }

  lemma Divide(p: nat, len: nat, h: nat) returns (row: nat, c: nat)
    requires p < h * len
    ensures row < h && c < len && p == row * len + c
  {
    if h == 1 || p < len {
      row, c := 0, p;
      BothPositive(h, len);
    } else {
      assert (h - 1) * len == h * len - len;
      row, c := Divide(p - len, len, h - 1);
      row := row + 1;
      assert (row - 1) * len + len == row * len;
    }
  }

  /** The rectangle that is the whole resource. */
  function FullRect(width: u32, height: u32): Rect
  {
    Rect(0, 0, width, height)
  }

  lemma WholeTiles(width: u32, height: u32)
    ensures Tiling([FullRect(width, height)], width, height) && OwnOffset(FullRect(width, height), width) == 0
  {
    forall row: nat, c: nat | row < height && c < width * PIXEL ensures Covered([FullRect(width, height)], width, height, row, c) {
      assert Covers([FullRect(width, height)][0], width, height, row, c);
    }
  }

  /** So a tiling leaves the same buffer as one transfer of everything. */
  lemma TilingIsFullTransfer(buf: seq<byte>, flat: seq<byte>, width: u32, height: u32, rects: seq<Rect>)
    requires width * PIXEL < U32_RANGE && |buf| == Area(width, height) <= |flat| && Tiling(rects, width, height)
    ensures TransferAll(buf, flat, width, height, rects) == Transfer(buf, flat, width, height, FullRect(width, height), 0)
  {
    var all := [FullRect(width, height)];
    WholeTiles(width, height);
    assert all[..|all| - 1] == [] && all[|all| - 1] == FullRect(width, height);
    assert TransferAll(buf, flat, width, height, all) == Transfer(buf, flat, width, height, FullRect(width, height), 0);
    TilingCopiesAll(buf, flat, width, height, rects);
    TilingCopiesAll(buf, flat, width, height, all);
    hide *;
  }
}
