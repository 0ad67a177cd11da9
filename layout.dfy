/**
 * Addressing of the flat RGBA buffer behind the logical grid.
 *
 * The buffer holds `height*pixelSize` raw rows of `width*pixelSize` raw pixels,
 * four bytes each. A logical pixel (x, y) is the `pixelSize × pixelSize` block of raw
 * pixels whose raw column lies in [x*pixelSize, (x+1)*pixelSize) and whose raw row lies
 * in [y*pixelSize, (y+1)*pixelSize).
 */
module Layout {
  import opened Pixels

  /** Bytes per logical row, the value `getIndex` caches as `rowItemsCount`. */
  function RowStride(width: int, pixelSize: int): int {
    width * ColorSize * pixelSize * pixelSize
  }

  /** Bytes per logical column, the value `getIndex` caches as `columnOffset`. */
  function ColumnStride(pixelSize: int): int {
    pixelSize * ColorSize
  }

  /** Bytes per raw row (`pixelsInRow` in drawPixel). */
  function RawRowStride(width: int, pixelSize: int): int {
    width * ColorSize * pixelSize
  }

  /**
   * The byte offset `getIndex(row, column)` returns: the first byte of the raw pixel at
   * raw row `row*pixelSize` and raw column `column*pixelSize`, the top-left corner of the block.
   */
  function Index(row: int, column: int, width: int, pixelSize: int): (r: int)
    ensures r == ((row * pixelSize) * (width * pixelSize) + column * pixelSize) * ColorSize
  {
    row * RowStride(width, pixelSize) + column * ColumnStride(pixelSize)
  }

  /** Size of the buffer for a canvas of `width*pixelSize` by `height*pixelSize` raw pixels. */
  function BufferLength(width: nat, height: nat, pixelSize: nat): nat {
    (width * pixelSize) * (height * pixelSize) * ColorSize
  }

  /** Raw row of the byte at offset `i`. */
  function RawY(i: int, width: int, pixelSize: int): int
    requires width > 0 && pixelSize > 0
  {
    (i / ColorSize) / (width * pixelSize)
  }

  /** Raw column of the byte at offset `i`. */
  function RawX(i: int, width: int, pixelSize: int): int
    requires width > 0 && pixelSize > 0
  {
    (i / ColorSize) % (width * pixelSize)
  }

  /** The logical pixel whose block holds the byte at offset `i`. */
  function LogicalOf(i: int, width: int, pixelSize: int): Point
    requires width > 0 && pixelSize > 0
  {
    Point(RawX(i, width, pixelSize) / pixelSize, RawY(i, width, pixelSize) / pixelSize)
  }

  predicate InGrid(p: Point, width: int, height: int) {
    0 <= p.x < width && 0 <= p.y < height
  }

  /** Every logical pixel of a `width × height` grid. */
  function Grid(width: nat, height: nat): set<Point> {
    set x, y | 0 <= x < width && 0 <= y < height :: Point(x, y)
  }

  /**
   * The buffer after every logical pixel in `pts` has been painted `c`: each byte of such
   * a block becomes the colour's channel (alpha 255), every other byte keeps its value.
   */
  function Paint(buf: seq<int>, pts: set<Point>, c: Color, width: int, pixelSize: int): (r: seq<int>)
    requires width > 0 && pixelSize > 0
    ensures |r| == |buf|
  {
    seq(|buf|, i requires 0 <= i < |buf| =>
      if LogicalOf(i, width, pixelSize) in pts then ChannelValue(c, i % ColorSize) else buf[i])
  }

  /** A buffer of `n` bytes whose every quad is `(c.r, c.g, c.b, 255)`. */
  function Filled(n: nat, c: Color): seq<int> {
    seq(n, i => ChannelValue(c, i % ColorSize))
  }

  /**
   * Whether drawPixel(p) has written the byte at offset `i` once it has done `rows` raw
   * rows of the block and `quads` quads of the next raw row.
   */
  predicate BlockPrefix(i: int, p: Point, rows: int, quads: int, width: int, pixelSize: int)
    requires width > 0 && pixelSize > 0
  {
    var ry, rx := RawY(i, width, pixelSize), RawX(i, width, pixelSize);
    var top, left := p.y * pixelSize, p.x * pixelSize;
    left <= rx < left + pixelSize && (top <= ry < top + rows || (ry == top + rows && rx < left + quads))
  }

  // ----- arithmetic helpers -----

  lemma MulMono(a: int, b: int, n: int)
    requires a <= b && n >= 0
    ensures a * n <= b * n
  {
    assert b * n - a * n == (b - a) * n;
  }

  lemma DivModUnique(q: int, n: int, a: int, b: int)
    requires n > 0 && 0 <= b < n && q == a * n + b
    ensures q / n == a && q % n == b
  {
    var d, m := q / n, q % n;
    assert q == d * n + m && 0 <= m < n;
    if a > d {
      MulMono(d + 1, a, n);
      assert false;
    } else if a < d {
      MulMono(a + 1, d, n);
      assert false;
    }
  }

  /** The byte `(ry*rw + rx)*4 + ch` has raw row `ry`, raw column `rx` and channel `ch`. */
  lemma Decompose(i: int, ry: int, rx: int, ch: int, rw: int)
    requires rw > 0 && 0 <= rx < rw && 0 <= ch < ColorSize
    requires i == (ry * rw + rx) * ColorSize + ch
    ensures i % ColorSize == ch && (i / ColorSize) / rw == ry && (i / ColorSize) % rw == rx
  {
    DivModUnique(i, ColorSize, ry * rw + rx, ch);
    DivModUnique(ry * rw + rx, rw, ry, rx);
  }

  lemma Recompose(i: int, rw: int)
    requires rw > 0
    ensures i == ((i / ColorSize) / rw * rw + (i / ColorSize) % rw) * ColorSize + i % ColorSize
  {
  }

  /** getIndex plus `r` raw rows and `k` quads, written as raw row and raw column. */
  lemma IndexShape(width: int, pixelSize: int, x: int, y: int, r: int, k: int, ch: int)
    ensures Index(y, x, width, pixelSize) + r * RawRowStride(width, pixelSize) + k * ColorSize + ch
      == ((y * pixelSize + r) * (width * pixelSize) + (x * pixelSize + k)) * ColorSize + ch
  {
    calc {
      Index(y, x, width, pixelSize) + r * RawRowStride(width, pixelSize) + k * ColorSize + ch;
      y * (width * 4 * pixelSize * pixelSize) + x * (pixelSize * 4) + r * (width * 4 * pixelSize) + k * 4 + ch;
      4 * (y * pixelSize * (width * pixelSize)) + 4 * (r * (width * pixelSize)) + 4 * (x * pixelSize) + 4 * k + ch;
      ((y * pixelSize + r) * (width * pixelSize) + (x * pixelSize + k)) * ColorSize + ch;
    }
  }

  // ----- the properties of getIndex and the block layout -----

  /**
   * getIndex(y, x) followed by `r` raw rows and `k` quads (what drawPixel addresses) lands
   * inside the buffer, in raw row y*pixelSize + r and raw column x*pixelSize + k, that is
   * inside the block of logical pixel (x, y), at channel `ch`.
   */
  lemma BlockByte(width: nat, height: nat, pixelSize: nat, x: int, y: int, r: int, k: int, ch: int)
    requires width > 0 && height > 0 && pixelSize > 0
    requires 0 <= x < width && 0 <= y < height
    requires 0 <= r < pixelSize && 0 <= k < pixelSize && 0 <= ch < ColorSize
    ensures var i := Index(y, x, width, pixelSize) + r * RawRowStride(width, pixelSize) + k * ColorSize + ch;
      0 <= i < BufferLength(width, height, pixelSize)
      && RawY(i, width, pixelSize) == y * pixelSize + r
      && RawX(i, width, pixelSize) == x * pixelSize + k
      && i % ColorSize == ch
      && LogicalOf(i, width, pixelSize) == Point(x, y)
  {
    var i := Index(y, x, width, pixelSize) + r * RawRowStride(width, pixelSize) + k * ColorSize + ch;
    var rw, rh := width * pixelSize, height * pixelSize;
    var ry, rx := y * pixelSize + r, x * pixelSize + k;
    IndexShape(width, pixelSize, x, y, r, k, ch);
    BlockCoord(x, pixelSize, width, k);
    BlockCoord(y, pixelSize, height, r);
    Decompose(i, ry, rx, ch, rw);
    QuadInCanvas(ry, rx, rw, rh);
  }

  /** Offset `off` into block `v` of size `n` is raw coordinate v*n + off, inside `count` blocks. */
  lemma BlockCoord(v: int, n: int, count: int, off: int)
    requires n > 0 && 0 <= v < count && 0 <= off < n
    ensures 0 <= v * n + off < count * n && (v * n + off) / n == v
  {
    MulMono(v + 1, count, n);
    DivModUnique(v * n + off, n, v, off);
  }

  lemma QuadInCanvas(ry: int, rx: int, rw: int, rh: int)
    requires 0 <= ry < rh && 0 <= rx < rw
    ensures 0 <= ry * rw + rx < rw * rh
  {
    MulMono(ry + 1, rh, rw);
    MulMono(0, ry, rw);
  }

  /**
   * Conversely, every byte of the buffer that belongs to logical pixel (x, y) is one that
   * drawPixel addresses: (x, y) is on the grid and the byte sits `r` raw rows and `k`
   * quads past getIndex(y, x), with `r` and `k` below pixelSize.
   */
  lemma BlockByteOf(i: int, width: nat, height: nat, pixelSize: nat, x: int, y: int)
    requires width > 0 && height > 0 && pixelSize > 0
    requires 0 <= i < BufferLength(width, height, pixelSize)
    requires LogicalOf(i, width, pixelSize) == Point(x, y)
    ensures InGrid(Point(x, y), width, height)
    ensures var r, k := RawY(i, width, pixelSize) - y * pixelSize, RawX(i, width, pixelSize) - x * pixelSize;
      0 <= r < pixelSize && 0 <= k < pixelSize
      && i == Index(y, x, width, pixelSize) + r * RawRowStride(width, pixelSize) + k * ColorSize + i % ColorSize
  {
    var ry, rx := RawY(i, width, pixelSize), RawX(i, width, pixelSize);
    var r, k := ry - y * pixelSize, rx - x * pixelSize;
    RawInCanvas(i, width, height, pixelSize);
    SplitRaw(rx, pixelSize, width);
    SplitRaw(ry, pixelSize, height);
    Recompose(i, width * pixelSize);
    IndexShape(width, pixelSize, x, y, r, k, i % ColorSize);
  }

  /** The raw row and column of every byte of the buffer lie inside the canvas. */
  lemma RawInCanvas(i: int, width: nat, height: nat, pixelSize: nat)
    requires width > 0 && height > 0 && pixelSize > 0
    requires 0 <= i < BufferLength(width, height, pixelSize)
    ensures 0 <= RawX(i, width, pixelSize) < width * pixelSize
    ensures 0 <= RawY(i, width, pixelSize) < height * pixelSize
  {
    var rw, rh := width * pixelSize, height * pixelSize;
    var q := i / ColorSize;
    var ry := q / rw;
    assert q < rw * rh;
    if ry >= rh {
      MulMono(rh, ry, rw);
      assert false;
    }
  }

  /** A raw coordinate below `count*pixelSize` splits into a logical one below `count` and an offset below pixelSize. */
  lemma SplitRaw(raw: int, pixelSize: int, count: int)
    requires pixelSize > 0 && 0 <= raw < count * pixelSize
    ensures 0 <= raw / pixelSize < count
    ensures 0 <= raw - raw / pixelSize * pixelSize < pixelSize
  {
    if raw / pixelSize >= count {
      MulMono(count, raw / pixelSize, pixelSize);
      assert false;
    }
  }

  lemma DivIff(v: int, n: int, q: int)
    requires n > 0
    ensures v / n == q <==> q * n <= v < q * n + n
  {
    if q * n <= v < q * n + n {
      DivModUnique(v, n, q, v - q * n);
    }
  }

  /** A byte belongs to logical pixel `p` exactly when drawPixel(p) writes it in one of its pixelSize raw rows. */
  lemma InBlockIff(i: int, p: Point, width: int, pixelSize: int)
    requires width > 0 && pixelSize > 0 && i >= 0
    ensures LogicalOf(i, width, pixelSize) == p <==> BlockPrefix(i, p, pixelSize, 0, width, pixelSize)
  {
    DivIff(RawX(i, width, pixelSize), pixelSize, p.x);
    DivIff(RawY(i, width, pixelSize), pixelSize, p.y);
  }

  /** Once all pixelSize raw rows of the block are written, the buffer is the painted one. */
  lemma BlockDone(before: seq<int>, after: seq<int>, p: Point, c: Color, width: int, pixelSize: int)
    requires width > 0 && pixelSize > 0 && |after| == |before|
    requires forall i :: 0 <= i < |after| ==>
      after[i] == if BlockPrefix(i, p, pixelSize, 0, width, pixelSize) then ChannelValue(c, i % ColorSize) else before[i]
    ensures after == Paint(before, {p}, c, width, pixelSize)
  {
    forall i | 0 <= i < |after|
      ensures after[i] == Paint(before, {p}, c, width, pixelSize)[i]
    {
      InBlockIff(i, p, width, pixelSize);
    }
  }

  /** The buffer is a whole number of RGBA quads. */
  lemma BufferHoldsQuads(width: nat, height: nat, pixelSize: nat)
    ensures BufferLength(width, height, pixelSize) % ColorSize == 0
  {
    var n := (width * pixelSize) * (height * pixelSize);
    assert BufferLength(width, height, pixelSize) == n * ColorSize;
  }

  /** Every byte of the buffer belongs to a logical pixel of the grid. */
  lemma OwnerInGrid(i: int, width: nat, height: nat, pixelSize: nat)
    requires width > 0 && height > 0 && pixelSize > 0
    requires 0 <= i < BufferLength(width, height, pixelSize)
    ensures LogicalOf(i, width, pixelSize) in Grid(width, height)
  {
    var p := LogicalOf(i, width, pixelSize);
    BlockByteOf(i, width, height, pixelSize, p.x, p.y);
  }

  // ----- properties of painting -----

  /** Painting `S` and then `T` in one colour is painting `S + T`. */
  lemma PaintUnion(buf: seq<int>, s: set<Point>, t: set<Point>, c: Color, width: int, pixelSize: int)
    requires width > 0 && pixelSize > 0
    ensures Paint(Paint(buf, s, c, width, pixelSize), t, c, width, pixelSize) == Paint(buf, s + t, c, width, pixelSize)
  {
  }

  /** Painting keeps every byte of the buffer a byte when the colour is valid. */
  lemma PaintKeepsBytes(buf: seq<int>, s: set<Point>, c: Color, width: int, pixelSize: int)
    requires width > 0 && pixelSize > 0
    requires IsByteSeq(buf) && ValidColor(c)
    ensures IsByteSeq(Paint(buf, s, c, width, pixelSize))
  {
  }

  /** Painting the whole grid gives the same buffer as a fill, whatever it held before. */
  lemma PaintGrid(buf: seq<int>, c: Color, width: nat, height: nat, pixelSize: nat)
    requires width > 0 && height > 0 && pixelSize > 0
    requires |buf| == BufferLength(width, height, pixelSize)
    ensures Paint(buf, Grid(width, height), c, width, pixelSize) == Filled(|buf|, c)
  {
    forall i | 0 <= i < |buf|
      ensures Paint(buf, Grid(width, height), c, width, pixelSize)[i] == Filled(|buf|, c)[i]
    {
      OwnerInGrid(i, width, height, pixelSize);
    }
  }

  /** Painting a filled buffer in its own fill colour changes nothing. */
  lemma PaintFilled(n: nat, s: set<Point>, c: Color, width: int, pixelSize: int)
    requires width > 0 && pixelSize > 0
    ensures Paint(Filled(n, c), s, c, width, pixelSize) == Filled(n, c)
  {
  }
}
