/**
 * CanvasEngine: a width × height grid of logical pixels, each drawn as a
 * pixelSize × pixelSize block of raw pixels in a flat RGBA byte buffer.
 */
module Engine {
  import opened Pixels
  import opened Layout
  import opened Line
  import opened KeyState

  const DefaultPixelSize: int := 5
  const DefaultWidth: int := 20
  const DefaultHeight: int := 20

  const MissingRender := "Render function not defined"

  /** The configuration object; `None` is a property that is not there. */
  datatype Config = Config(width: Option<int>, height: Option<int>, pixelSize: Option<int>)

  /** The dimensions the engine settles on after applying defaults. */
  datatype Settings = Settings(width: int, height: int, pixelSize: int)

  /** A numeric property is falsy when it is absent or zero. */
  predicate Falsy(v: Option<int>) {
    v.None? || v.value == 0
  }

  /** Negative sizes are left undefined by the engine; absent, zero and positive ones are handled. */
  predicate ConfigInRange(config: Config) {
    (config.width.Some? ==> config.width.value >= 0)
    && (config.height.Some? ==> config.height.value >= 0)
    && (config.pixelSize.Some? ==> config.pixelSize.value >= 0)
  }

  /** `value || fallback` for a numeric property. */
  function OrDefault(v: Option<int>, fallback: int): int {
    if Falsy(v) then fallback else v.value
  }

  /**
   * The checks and defaults of the constructor: a missing render callback is an error,
   * raised before the configuration is looked at; otherwise every falsy size falls back
   * to its default and every other size is kept.
   */
  function Configure(config: Config, renderGiven: bool): (r: Result<Settings, string>)
    ensures r.Failure? <==> !renderGiven
    ensures r.Failure? ==> r.error == MissingRender
    ensures r.Success? ==>
      (Falsy(config.width) ==> r.value.width == DefaultWidth)
      && (!Falsy(config.width) ==> r.value.width == config.width.value)
      && (Falsy(config.height) ==> r.value.height == DefaultHeight)
      && (!Falsy(config.height) ==> r.value.height == config.height.value)
      && (Falsy(config.pixelSize) ==> r.value.pixelSize == DefaultPixelSize)
      && (!Falsy(config.pixelSize) ==> r.value.pixelSize == config.pixelSize.value)
    ensures r.Success? && ConfigInRange(config) ==>
      r.value.width > 0 && r.value.height > 0 && r.value.pixelSize > 0
  {
    if !renderGiven then Failure(MissingRender)
    else Success(Settings(
      OrDefault(config.width, DefaultWidth),
      OrDefault(config.height, DefaultHeight),
      OrDefault(config.pixelSize, DefaultPixelSize)))
  }

  class CanvasEngine {
    const width: nat
    const height: nat
    const pixelSize: nat
    /** The image data's byte buffer: four bytes per raw pixel, row by row. */
    const data: array<int>
    /** Keys currently held, in the order they were pressed, repeats included. */
    var keys: seq<string>
    /** getIndex's cached strides; `None` until the first call sets them. */
    var rowItemsCount: Option<int>
    var columnOffset: Option<int>

    /** The dimensions are positive and the buffer has the size they call for. */
    ghost predicate Sized()
      reads this
    {
      width > 0 && height > 0 && pixelSize > 0
      && data.Length == BufferLength(width, height, pixelSize)
    }

    ghost predicate Valid()
      reads this, data
    {
      Sized()
      && IsByteSeq(data[..])
      && (rowItemsCount.Some? ==> rowItemsCount.value == RowStride(width, pixelSize))
      && (columnOffset.Some? ==> columnOffset.value == ColumnStride(pixelSize))
    }

    /**
     * Sizes the canvas to width*pixelSize × height*pixelSize raw pixels and takes its
     * image data, which starts out all zero (transparent black).
     */
    constructor (settings: Settings)
      requires settings.width > 0 && settings.height > 0 && settings.pixelSize > 0
      ensures Valid() && fresh(data)
      ensures width == settings.width && height == settings.height && pixelSize == settings.pixelSize
      ensures data.Length == (width * pixelSize) * (height * pixelSize) * ColorSize
      ensures forall i :: 0 <= i < data.Length ==> data[i] == 0
      ensures keys == [] && rowItemsCount.None? && columnOffset.None?
    {
      width := settings.width;
      height := settings.height;
      pixelSize := settings.pixelSize;
      keys := [];
      var canvasWidth := settings.width * settings.pixelSize;
      var canvasHeight := settings.height * settings.pixelSize;
      data := new int[canvasWidth * canvasHeight * ColorSize](_ => 0);
      rowItemsCount := None;
      columnOffset := None;
    }

    /** keydown: the key joins the list. */
    method KeyDown(key: string)
      modifies this`keys
      ensures keys == Pressed(old(keys), key)
    {
      keys := keys + [key];
    }

    /** keyup: every entry of the key leaves the list. */
    method KeyUp(key: string)
      modifies this`keys
      ensures keys == Released(old(keys), key)
    {
      keys := Released(keys, key);
    }

    /**
     * The byte offset of logical (row, column). The first call caches the two strides;
     * cached or not, the offset is the same.
     */
    method GetIndex(row: int, column: int) returns (index: int)
      requires Valid()
      modifies this`rowItemsCount, this`columnOffset
      ensures Valid()
      ensures index == Index(row, column, width, pixelSize)
      ensures rowItemsCount == Some(RowStride(width, pixelSize))
      ensures columnOffset == Some(ColumnStride(pixelSize))
    {
      if rowItemsCount.None? {
        rowItemsCount := Some(width * ColorSize * pixelSize * pixelSize);
      }
      if columnOffset.None? {
        columnOffset := Some(pixelSize * ColorSize);
      }
      index := row * rowItemsCount.value + column * columnOffset.value;
    }

    /** Every RGBA quad of the buffer becomes (c.r, c.g, c.b, 255). */
    method Fill(c: Color)
      requires Valid() && ValidColor(c)
      modifies data
      ensures Valid()
      ensures data[..] == Filled(data.Length, c)
    {
      BufferHoldsQuads(width, height, pixelSize);
      var i := 0;
      while i < data.Length
        invariant 0 <= i <= data.Length && i % ColorSize == 0
        invariant forall j :: 0 <= j < i ==> data[j] == ChannelValue(c, j % ColorSize)
      {
        data[i] := c.r;
        data[i + 1] := c.g;
        data[i + 2] := c.b;
        data[i + 3] := Opaque;
        i := i + ColorSize;
      }
      assert data[..] == Filled(data.Length, c);
    }

    /**
     * Paints logical pixel `point`: pixelSize raw rows of pixelSize quads, starting at
     * getIndex(point.y, point.x) and advancing one raw row at a time.
     */
    method DrawPixel(point: Point, color: Color)
      requires Valid() && ValidColor(color) && InGrid(point, width, height)
      modifies this`rowItemsCount, this`columnOffset, data
      ensures Valid()
      ensures data[..] == Paint(old(data[..]), {point}, color, width, pixelSize)
    {
      ghost var before := data[..];
      var index := GetIndex(point.y, point.x);
      var pixelsInRow := width * ColorSize * pixelSize;
      var nativeY := 0;
      while nativeY < pixelSize
        modifies data
        invariant 0 <= nativeY <= pixelSize
        invariant index == Index(point.y, point.x, width, pixelSize) + nativeY * pixelsInRow
        invariant forall i :: 0 <= i < data.Length ==>
          data[i] == if BlockPrefix(i, point, nativeY, 0, width, pixelSize)
                     then ChannelValue(color, i % ColorSize) else before[i]
      {
        DrawNativeRow(point, color, nativeY, index, before);
        index := index + pixelsInRow;
        nativeY := nativeY + 1;
      }
      BlockDone(before, data[..], point, color, width, pixelSize);
      PaintKeepsBytes(before, {point}, color, width, pixelSize);
    }

    /** drawPixel's inner loop: the pixelSize quads of raw row `nativeY` of the block, left to right. */
    method DrawNativeRow(point: Point, color: Color, nativeY: int, index: int, ghost before: seq<int>)
      requires Sized() && InGrid(point, width, height) && |before| == data.Length
      requires 0 <= nativeY < pixelSize
      requires index == Index(point.y, point.x, width, pixelSize) + nativeY * RawRowStride(width, pixelSize)
      requires forall i :: 0 <= i < data.Length ==>
        data[i] == if BlockPrefix(i, point, nativeY, 0, width, pixelSize)
                   then ChannelValue(color, i % ColorSize) else before[i]
      modifies data
      ensures forall i :: 0 <= i < data.Length ==>
        data[i] == if BlockPrefix(i, point, nativeY + 1, 0, width, pixelSize)
                   then ChannelValue(color, i % ColorSize) else before[i]
    {
      var nativeX := 0;
      while nativeX < pixelSize * ColorSize
        invariant 0 <= nativeX <= pixelSize * ColorSize && nativeX % ColorSize == 0
        invariant forall i :: 0 <= i < data.Length ==>
          data[i] == if BlockPrefix(i, point, nativeY, nativeX / ColorSize, width, pixelSize)
                     then ChannelValue(color, i % ColorSize) else before[i]
      {
        WriteQuad(point, color, nativeY, nativeX, index, before);
        nativeX := nativeX + ColorSize;
      }
      assert nativeX / ColorSize == pixelSize;
    }

    /** One pass of drawPixel's inner loop: the quad `nativeX` bytes into raw row `nativeY` of the block. */
    method WriteQuad(point: Point, color: Color, nativeY: int, nativeX: int, index: int, ghost before: seq<int>)
      requires Sized() && InGrid(point, width, height) && |before| == data.Length
      requires 0 <= nativeY < pixelSize && 0 <= nativeX < pixelSize * ColorSize && nativeX % ColorSize == 0
      requires index == Index(point.y, point.x, width, pixelSize) + nativeY * RawRowStride(width, pixelSize)
      requires forall i :: 0 <= i < data.Length ==>
        data[i] == if BlockPrefix(i, point, nativeY, nativeX / ColorSize, width, pixelSize)
                   then ChannelValue(color, i % ColorSize) else before[i]
      modifies data
      ensures forall i :: 0 <= i < data.Length ==>
        data[i] == if BlockPrefix(i, point, nativeY, nativeX / ColorSize + 1, width, pixelSize)
                   then ChannelValue(color, i % ColorSize) else before[i]
    {
      var k := nativeX / ColorSize;
      assert nativeX == k * ColorSize;
      BlockByte(width, height, pixelSize, point.x, point.y, nativeY, k, 0);
      BlockByte(width, height, pixelSize, point.x, point.y, nativeY, k, 1);
      BlockByte(width, height, pixelSize, point.x, point.y, nativeY, k, 2);
      BlockByte(width, height, pixelSize, point.x, point.y, nativeY, k, 3);
      data[nativeX + index] := color.r;
      data[nativeX + index + 1] := color.g;
      data[nativeX + index + 2] := color.b;
      data[nativeX + index + 3] := Opaque;
      var ry, rx := point.y * pixelSize + nativeY, point.x * pixelSize + k;
      forall i | 0 <= i < data.Length && RawY(i, width, pixelSize) == ry && RawX(i, width, pixelSize) == rx
        ensures nativeX + index <= i < nativeX + index + ColorSize
      {
        Recompose(i, width * pixelSize);
        IndexShape(width, pixelSize, point.x, point.y, nativeY, k, i % ColorSize);
      }
    }

    /** Paints every pixel of LinePoints(a, b) and nothing else. */
    method DrawLine(a: Point, b: Point, color: Color)
      requires Valid() && ValidColor(color) && InGrid(a, width, height) && InGrid(b, width, height)
      modifies this`rowItemsCount, this`columnOffset, data
      ensures Valid()
      ensures data[..] == Paint(old(data[..]), LineSet(a, b), color, width, pixelSize)
    {
      var dx := a.x - b.x;
      var dy := a.y - b.y;
      if dx == 0 {
        DrawColumn(a, b, color);
        return;
      }
      if dy == 0 {
        DrawRow(a, b, color);
        return;
      }
      dx := b.x - a.x;
      dy := b.y - a.y;
      if Abs(dx) >= Abs(dy) {
        DrawXMajor(a, b, color);
      } else {
        DrawYMajor(a, b, color);
      }
    }

    /** drawLine's vertical case: every row from the smaller y to the larger, in column a.x. */
    method DrawColumn(a: Point, b: Point, color: Color)
      requires Valid() && ValidColor(color) && InGrid(a, width, height) && InGrid(b, width, height)
      requires a.x == b.x
      modifies this`rowItemsCount, this`columnOffset, data
      ensures Valid()
      ensures data[..] == Paint(old(data[..]), LineSet(a, b), color, width, pixelSize)
    {
      ghost var before := data[..];
      ghost var pts := LinePoints(a, b);
      var y1 := Min(a.y, b.y);
      var y2 := Max(a.y, b.y);
      while y1 <= y2
        invariant Min(a.y, b.y) <= y1 <= y2 + 1
        invariant Valid()
        invariant data[..] == Paint(before, Elements(pts[..y1 - Min(a.y, b.y)]), color, width, pixelSize)
      {
        var k := y1 - Min(a.y, b.y);
        LineInBox(a, b, k);
        DrawStep(pts, k, Point(a.x, y1), color, before);
        y1 := y1 + 1;
      }
      assert pts[..|pts|] == pts;
    }

    /** drawLine's horizontal case: every column from the smaller x to the larger, in row a.y. */
    method DrawRow(a: Point, b: Point, color: Color)
      requires Valid() && ValidColor(color) && InGrid(a, width, height) && InGrid(b, width, height)
      requires a.x != b.x && a.y == b.y
      modifies this`rowItemsCount, this`columnOffset, data
      ensures Valid()
      ensures data[..] == Paint(old(data[..]), LineSet(a, b), color, width, pixelSize)
    {
      ghost var before := data[..];
      ghost var pts := LinePoints(a, b);
      var x1 := Min(a.x, b.x);
      var x2 := Max(a.x, b.x);
      while x1 <= x2
        invariant Min(a.x, b.x) <= x1 <= x2 + 1
        invariant Valid()
        invariant data[..] == Paint(before, Elements(pts[..x1 - Min(a.x, b.x)]), color, width, pixelSize)
      {
        var k := x1 - Min(a.x, b.x);
        LineInBox(a, b, k);
        DrawStep(pts, k, Point(x1, a.y), color, before);
        x1 := x1 + 1;
      }
      assert pts[..|pts|] == pts;
    }

    /** drawLine's x-major case: one pixel per column from a.x to b.x, row floor(y). */
    method DrawXMajor(a: Point, b: Point, color: Color)
      requires Valid() && ValidColor(color) && InGrid(a, width, height) && InGrid(b, width, height)
      requires a.x != b.x && a.y != b.y && Abs(b.x - a.x) >= Abs(b.y - a.y)
      modifies this`rowItemsCount, this`columnOffset, data
      ensures Valid()
      ensures data[..] == Paint(old(data[..]), LineSet(a, b), color, width, pixelSize)
    {
      ghost var before := data[..];
      ghost var pts := LinePoints(a, b);
      var dx := b.x - a.x;
      var dy := b.y - a.y;
      var y: real := a.y as real + 0.5;
      var dly: real := (dy as real) / (dx as real);
      if dx > 0 {
        var x := a.x;
        while x <= b.x
          invariant a.x <= x <= b.x + 1
          invariant y == Accumulated(a.y, dy, dx, x - a.x)
          invariant Valid()
          invariant data[..] == Paint(before, Elements(pts[..x - a.x]), color, width, pixelSize)
        {
          LineInBox(a, b, x - a.x);
          DrawStep(pts, x - a.x, Point(x, y.Floor), color, before);
          AccumulatedStep(a.y, dy, dx, x - a.x);
          y := y + dly;
          x := x + 1;
        }
        assert pts[..x - a.x] == pts;
      } else {
        var x := a.x;
        while x >= b.x
          invariant b.x - 1 <= x <= a.x
          invariant y == Accumulated(a.y, dy, dx, x - a.x)
          invariant Valid()
          invariant data[..] == Paint(before, Elements(pts[..a.x - x]), color, width, pixelSize)
        {
          LineInBox(a, b, a.x - x);
          DrawStep(pts, a.x - x, Point(x, y.Floor), color, before);
          AccumulatedStep(a.y, dy, dx, x - a.x);
          y := y - dly;
          x := x - 1;
        }
        assert pts[..a.x - x] == pts;
      }
    }

    /** drawLine's y-major case: one pixel per row from a.y to b.y, column floor(x). */
    method DrawYMajor(a: Point, b: Point, color: Color)
      requires Valid() && ValidColor(color) && InGrid(a, width, height) && InGrid(b, width, height)
      requires a.x != b.x && a.y != b.y && Abs(b.x - a.x) < Abs(b.y - a.y)
      modifies this`rowItemsCount, this`columnOffset, data
      ensures Valid()
      ensures data[..] == Paint(old(data[..]), LineSet(a, b), color, width, pixelSize)
    {
      ghost var before := data[..];
      ghost var pts := LinePoints(a, b);
      var dx := b.x - a.x;
      var dy := b.y - a.y;
      var x: real := a.x as real + 0.5;
      var dlx: real := (dx as real) / (dy as real);
      if dy > 0 {
        var y := a.y;
        while y <= b.y
          invariant a.y <= y <= b.y + 1
          invariant x == Accumulated(a.x, dx, dy, y - a.y)
          invariant Valid()
          invariant data[..] == Paint(before, Elements(pts[..y - a.y]), color, width, pixelSize)
        {
          LineInBox(a, b, y - a.y);
          DrawStep(pts, y - a.y, Point(x.Floor, y), color, before);
          AccumulatedStep(a.x, dx, dy, y - a.y);
          x := x + dlx;
          y := y + 1;
        }
        assert pts[..y - a.y] == pts;
      } else {
        var y := a.y;
        while y >= b.y
          invariant b.y - 1 <= y <= a.y
          invariant x == Accumulated(a.x, dx, dy, y - a.y)
          invariant Valid()
          invariant data[..] == Paint(before, Elements(pts[..a.y - y]), color, width, pixelSize)
        {
          LineInBox(a, b, a.y - y);
          DrawStep(pts, a.y - y, Point(x.Floor, y), color, before);
          AccumulatedStep(a.x, dx, dy, y - a.y);
          x := x - dlx;
          y := y - 1;
        }
        assert pts[..a.y - y] == pts;
      }
    }

    /** One iteration of a drawLine loop: draws pts[k], extending the painted prefix by one. */
    method DrawStep(ghost pts: seq<Point>, ghost k: int, point: Point, color: Color, ghost before: seq<int>)
      requires Valid() && ValidColor(color) && InGrid(point, width, height)
      requires 0 <= k < |pts| && pts[k] == point
      requires data[..] == Paint(before, Elements(pts[..k]), color, width, pixelSize)
      modifies this`rowItemsCount, this`columnOffset, data
      ensures Valid()
      ensures data[..] == Paint(before, Elements(pts[..k + 1]), color, width, pixelSize)
    {
      DrawPixel(point, color);
      PaintUnion(before, Elements(pts[..k]), {point}, color, width, pixelSize);
      ElementsStep(pts, k);
    }

    /** Strokes the outline: drawLine(a, b), then drawLine(b, c), then drawLine(a, c). */
    method DrawTriangle(a: Point, b: Point, c: Point, color: Color)
      requires Valid() && ValidColor(color)
      requires InGrid(a, width, height) && InGrid(b, width, height) && InGrid(c, width, height)
      modifies this`rowItemsCount, this`columnOffset, data
      ensures Valid()
      ensures data[..] == Paint(Paint(Paint(old(data[..]), LineSet(a, b), color, width, pixelSize),
                                      LineSet(b, c), color, width, pixelSize),
                                LineSet(a, c), color, width, pixelSize)
      ensures data[..] == Paint(old(data[..]), TriangleSet(a, b, c), color, width, pixelSize)
    {
      ghost var before := data[..];
      DrawLine(a, b, color);
      DrawLine(b, c, color);
      DrawLine(a, c, color);
      PaintUnion(before, LineSet(a, b), LineSet(b, c), color, width, pixelSize);
      PaintUnion(before, LineSet(a, b) + LineSet(b, c), LineSet(a, c), color, width, pixelSize);
    }
  }

  /** `new CanvasEngine(canvas, config, render)`: fails without a render callback. */
  method NewEngine(config: Config, renderGiven: bool) returns (r: Result<CanvasEngine, string>)
    requires ConfigInRange(config)
    ensures r.Failure? <==> !renderGiven
    ensures r.Failure? ==> r.error == MissingRender
    ensures r.Success? ==>
      var e := r.value;
      Configure(config, renderGiven) == Success(Settings(e.width, e.height, e.pixelSize))
      && fresh(e) && fresh(e.data) && e.Valid() && e.keys == []
      && e.data.Length == (e.width * e.pixelSize) * (e.height * e.pixelSize) * ColorSize
  {
    var settings := Configure(config, renderGiven);
    if settings.Failure? {
      return Failure(settings.error);
    }
    var engine := new CanvasEngine(settings.value);
    return Success(engine);
  }

  /**
   * On a 4 × 4 grid at pixel size 1, filling white and drawing the diagonal from (0, 0)
   * to (3, 3) in black leaves exactly the four diagonal pixels black and the other
   * twelve white.
   */
  lemma DiagonalScenario()
    ensures var buf := Paint(Filled(BufferLength(4, 4, 1), White), LineSet(Point(0, 0), Point(3, 3)), Black, 4, 1);
      |buf| == 64
      && forall i :: 0 <= i < 64 ==>
        buf[i] == (if LogicalOf(i, 4, 1).x == LogicalOf(i, 4, 1).y then ChannelValue(Black, i % 4)
                   else ChannelValue(White, i % 4))
  {
    DiagonalExample();
    var diag := LineSet(Point(0, 0), Point(3, 3));
    assert diag == {Point(0, 0), Point(1, 1), Point(2, 2), Point(3, 3)};
    forall i | 0 <= i < 64
      ensures LogicalOf(i, 4, 1) in diag <==> LogicalOf(i, 4, 1).x == LogicalOf(i, 4, 1).y
    {
      OwnerInGrid(i, 4, 4, 1);
    }
  }
}
