# canvas-engine in Dafny

A model of `CanvasEngine`, a minimal pixel-grid renderer. The engine keeps a grid of
`width × height` logical pixels. Each logical pixel is drawn as a `pixelSize × pixelSize`
block of raw pixels in one flat RGBA byte buffer (the canvas image data). The engine
fills the buffer, paints single logical pixels, rasterises lines with a DDA, strokes
triangles, and keeps the list of held keys that it hands to the per-frame render callback.

Files and modules:

- `types.dfy`, module `Pixels`: colours, logical points, `Option`/`Result`, and the byte written per RGBA channel (alpha is always 255).
- `layout.dfy`, module `Layout`: the addressing arithmetic of `getIndex` and `drawPixel`. `LogicalOf(i)` is the logical pixel that owns byte `i`. `Paint(buf, pts, c)` is the buffer after the pixels `pts` are painted `c`, and it is the specification of every drawing method.
- `line.dfy`, module `Line`: `LinePoints(a, b)`, the pixels `drawLine` visits, as a pure function. The DDA's running fraction is an exact `real`. The module also holds the lemmas about lines and triangle outlines.
- `keys.dfy`, module `KeyState`: the key list after keydown and keyup, and the frame's key snapshot.
- `engine.dfy`, module `Engine`: the class `CanvasEngine` with the buffer as an `array<int>`, the constructor's checks and defaults, and the methods. Each method is proved against the `Paint` specification.

Notes on the model:

- `getIndex` caches its two strides in the object on first use. The model keeps that cache as the fields `rowItemsCount` and `columnOffset` (`None` until set). `Valid()` says a set cache holds the right stride. `GetIndex` returns the same offset whether or not the cache was already set.
- `drawPixel` starts at `getIndex(y, x)`, which steps one logical row (`width*4*pixelSize*pixelSize` bytes) per `y`. Inside the block it advances one raw row (`width*4*pixelSize`, canvas-engine.js:121), not getIndex's logical-row stride (canvas-engine.js:284). `BlockByte`/`BlockByteOf` prove that this stride covers exactly the block of the logical pixel.
- `drawLine` is one method with four branches. The model keeps its dispatch in `DrawLine` and proves each branch in its own method (`DrawColumn`, `DrawRow`, `DrawXMajor`, `DrawYMajor`). `drawPixel`'s inner loop is likewise `DrawNativeRow`, and its loop body is `WriteQuad`. The loops, their order and their arithmetic are the source's.
- The key list is a sequence, as in the code, not a set. A repeated keydown appends the key again, and a keyup removes every occurrence.
- The constructor tests `render` for truthiness only, so the callback is the boolean `renderGiven`. The model assumes a given callback is a function.
- A configuration property that is absent is `None`. "Falsy" means absent or 0.
- The image data of a freshly sized canvas is taken to be all zero (transparent black).

## Model

| member | source | states |
|---|---|---|
| `Engine.Configure` | canvas-engine.js:52-59 | Fails with "Render function not defined" exactly when no render callback is given, whatever the configuration. Otherwise each falsy width, height or pixelSize becomes 20, 20 or 5, and every other value is kept. Non-negative input gives positive sizes. |
| `Engine.NewEngine` | canvas-engine.js:52-72 | Construction either fails (no render callback) or yields a fresh engine with the configured sizes, an empty key list and a valid buffer of `(width*pixelSize)*(height*pixelSize)*4` bytes. |
| `Engine.CanvasEngine.constructor` | canvas-engine.js:57-71 | Sizes the buffer to `(width*pixelSize)*(height*pixelSize)*4` zero bytes, starts with no keys and no cached strides. |
| `Layout.Index` | canvas-engine.js:281-290 | getIndex's offset `row*rowItemsCount + column*columnOffset` is the first byte of raw pixel `(column*pixelSize, row*pixelSize)`, the top-left corner of logical pixel `(column, row)`'s block. |
| `Layout.Paint` | canvas-engine.js:119-143 | The specification of every drawing method: each byte whose owning logical pixel is in `pts` takes the colour's channel (alpha 255), and every other byte is kept. Its contract states that the buffer length is kept. The rest of its meaning is proved about it by `InBlockIff`, `BlockDone`, `PaintUnion`, `PaintGrid` and `PaintFilled`. |
| `Engine.CanvasEngine.GetIndex` | canvas-engine.js:281-290 | Returns `row*width*4*pixelSize² + column*pixelSize*4` whether or not the strides were cached before, and leaves both strides cached with those values. |
| `Layout.BlockByte` | canvas-engine.js:119-143 | For `(x, y)` on the grid and `r, k < pixelSize`, the byte `getIndex(y,x) + r*width*4*pixelSize + 4k + ch` is inside the buffer. It lies in raw row `y*pixelSize + r` and raw column `x*pixelSize + k`, so it belongs to logical pixel `(x, y)`, at channel `ch`. Distinct `(r, k)` give distinct raw pixels. |
| `Layout.BlockByteOf` | canvas-engine.js:119-143 | Conversely, every buffer byte owned by `(x, y)` has that form for some `r, k < pixelSize`, and `(x, y)` is on the grid. |
| `Layout.InBlockIff` | canvas-engine.js:123-140 | A byte belongs to logical pixel `p` exactly when it lies in one of the `pixelSize` raw rows and `pixelSize` raw columns that drawPixel's two loops cover. |
| `Layout.BlockDone` | canvas-engine.js:123-140 | Once the loops have covered all `pixelSize` raw rows, the buffer equals `Paint(before, {p}, c)`. |
| `Layout.OwnerInGrid` | canvas-engine.js:63-71 | Every byte of a buffer of the constructed size belongs to a logical pixel of the grid. |
| `Layout.BufferHoldsQuads` | canvas-engine.js:104 | The buffer length is a multiple of 4, so fill's step of 4 writes whole quads and never runs past the end. |
| `Layout.PaintGrid` | canvas-engine.js:103-110 | Painting every logical pixel of the grid gives the filled buffer, whatever the buffer held before. |
| `Layout.PaintFilled` | canvas-engine.js:103-110 | Painting a filled buffer in the fill colour changes nothing. |
| `Layout.PaintUnion` | canvas-engine.js:265-269 | Painting `S` and then `T` in one colour equals painting `S ∪ T`, so repeated pixels are written harmlessly. |
| `Layout.PaintKeepsBytes` | canvas-engine.js:133-136 | Painting with a colour whose channels are in 0..255 keeps every buffer entry a byte. |
| `Engine.CanvasEngine.Fill` | canvas-engine.js:103-110 | Afterwards every quad of the buffer is `(c.r, c.g, c.b, 255)`. |
| `Engine.CanvasEngine.DrawPixel` | canvas-engine.js:119-143 | The buffer becomes `Paint(old, {point}, c)`: every byte of the block of `point` holds the colour's channel, and every other byte is unchanged. |
| `Engine.CanvasEngine.DrawNativeRow` | canvas-engine.js:128-137 | The inner loop extends the painted part of the block by one full raw row. |
| `Engine.CanvasEngine.WriteQuad` | canvas-engine.js:133-136 | One inner iteration writes exactly the next quad of the current raw row and nothing else. |
| `Engine.CanvasEngine.DrawLine` | canvas-engine.js:153-254 | The buffer becomes `Paint(old, LineSet(a, b), c)`: exactly the pixels of `LinePoints(a, b)` are painted. |
| `Engine.CanvasEngine.DrawColumn` | canvas-engine.js:157-173 | The vertical case paints exactly `LineSet(a, b)`. |
| `Engine.CanvasEngine.DrawRow` | canvas-engine.js:175-191 | The horizontal case paints exactly `LineSet(a, b)`. |
| `Engine.CanvasEngine.DrawXMajor` | canvas-engine.js:196-224 | The x-major DDA, in both directions, paints exactly `LineSet(a, b)`. Its accumulator stays equal to `A.y + 0.5 + (x - A.x)*dy/dx` at every step. |
| `Engine.CanvasEngine.DrawYMajor` | canvas-engine.js:225-253 | The y-major DDA, in both directions, paints exactly `LineSet(a, b)`. Its accumulator stays equal to `A.x + 0.5 + (y - A.y)*dx/dy`. |
| `Engine.CanvasEngine.DrawStep` | canvas-engine.js:161-169 | One loop step of drawLine (in any of its four loops) draws the next point of `LinePoints` and extends the painted prefix by it. |
| `Engine.CanvasEngine.DrawTriangle` | canvas-engine.js:265-269 | The buffer equals drawLine(a,b), then drawLine(b,c), then drawLine(a,c) applied in turn, which equals painting the union of the three lines. |
| `Line.LinePoints` | canvas-engine.js:153-253 | The pixels drawLine visits, in order: min→max for the axis cases, and otherwise the floor of `A.minor + 1/2 + t·slope` along the major axis from A to B. It has `max(abs(dx), abs(dy)) + 1` points. |
| `Line.AccumulatedStep` | canvas-engine.js:210-222 | Adding (or subtracting) `dy/dx` to the accumulator moves it one step forward (or back) along the exact line. |
| `Line.MinorAtEnds` | canvas-engine.js:197-198 | The DDA's floor of `A.minor + 0.5 + t*slope` is `A.minor` at `t = 0` and `B.minor` at `t = dMajor`. |
| `Line.MinorAtBetween` | canvas-engine.js:196-224 | For steps between the two ends, the drawn minor coordinate lies between the two end coordinates. |
| `Line.MinorAtStep` | canvas-engine.js:196-224 | When `|dMinor| <= |dMajor|`, one major step moves the drawn minor coordinate by at most one. |
| `Line.MinorAtReversed` | canvas-engine.js:196-253 | Walking from B reaches each major coordinate with the same exact minor value as walking from A, so it draws the same pixel. |
| `Line.LineEnds` | canvas-engine.js:153-253 | A line has `max(abs(dx), abs(dy)) + 1` pixels, never zero. Axis-aligned lines run from the smaller to the larger coordinate. Other lines start at A and end at B. |
| `Line.EndsDrawn` | canvas-engine.js:153-253 | Both end points are painted. |
| `Line.LineInBox` | canvas-engine.js:153-253 | Every painted pixel lies in the bounding box of A and B, so lines between grid points stay on the grid. |
| `Line.LineConnected` | canvas-engine.js:193-253 | Consecutive pixels are 8-neighbours. The major coordinate moves by exactly one towards B; the minor one moves by at most one. The line has no gaps. |
| `Line.VerticalLine` | canvas-engine.js:157-173 | If `A.x == B.x` (A == B included), a pixel is painted if and only if it is `(A.x, y)` with `y` between the two end rows. |
| `Line.HorizontalLine` | canvas-engine.js:175-191 | If `A.y == B.y`, a pixel is painted if and only if it is `(x, A.y)` with `x` between the two end columns. |
| `Line.ReversedStep` | canvas-engine.js:196-253 | For lines that are not axis-aligned, step `k` of drawLine(a, b) is step `n - k` of drawLine(b, a). |
| `Line.LineSymmetric` | canvas-engine.js:153-254 | drawLine(a, b) and drawLine(b, a) paint the same set of pixels. |
| `Line.DiagonalExample` | canvas-engine.js:196-211 | drawLine({0,0},{3,3}) visits exactly (0,0), (1,1), (2,2), (3,3). |
| `Line.HorizontalExample` | canvas-engine.js:175-191 | drawLine({0,0},{5,0}) visits exactly (0,0) … (5,0). |
| `Line.TriangleCorners` | canvas-engine.js:265-269 | All three corners of a triangle are painted. |
| `Line.TriangleOrder` | canvas-engine.js:265-269 | The painted outline is the same whatever order the corners are given in. |
| `Engine.DiagonalScenario` | canvas-engine.js:103-224 | On a 4×4 grid at pixel size 1, after fill(WHITE) and drawLine({0,0},{3,3},BLACK), exactly the four diagonal pixels are black and the other twelve white. |
| `Engine.CanvasEngine.KeyDown` | canvas-engine.js:73-77 | The key is appended to the list. |
| `Engine.CanvasEngine.KeyUp` | canvas-engine.js:78-80 | The list is replaced by the filtered list `Released(keys, key)`. |
| `KeyState.Pressed` | canvas-engine.js:76 | The new list is the old one followed by the key. |
| `KeyState.Released` | canvas-engine.js:79 | The key no longer occurs, and every other key occurs exactly as often as before. |
| `KeyState.SnapshotFrom` | canvas-engine.js:87-91 | The fold's map holds exactly the accumulator's keys and the listed keys, and maps every listed key to true. |
| `KeyState.Snapshot` | canvas-engine.js:86-91 | The frame's snapshot holds exactly the listed keys, each mapped to true, with no false entries. |
| `KeyState.ReleasedAppend` | canvas-engine.js:79 | Filtering distributes over concatenation, so the kept keys stay in their order. |
| `KeyState.ReleasedNotHeld` | canvas-engine.js:79 | Releasing a key that is not held leaves the list unchanged. |
| `KeyState.ReleasedTwice` | canvas-engine.js:79 | A second keyup of the same key changes nothing. |
| `KeyState.PressThenRelease` | canvas-engine.js:76-79 | A keyup undoes the keydown of a key that was not held. |
| `KeyState.ReleaseOther` | canvas-engine.js:79 | A keyup of another key leaves this key's count unchanged. |
| `KeyState.SnapshotPressed` | canvas-engine.js:76-91 | After a keydown, the snapshot is the old one with the key mapped to true. |
| `KeyState.SnapshotReleased` | canvas-engine.js:79-91 | After a keyup, the snapshot is the old one without the key. |

## Left out

- Canvas plumbing (`getContext`, `getImageData`, `putImageData`) is reduced to a zeroed byte array of the computed size. The canvas element's width and height attributes are not modelled.
- `window.addEventListener` wiring and `console.log` in the key handlers are left out. Only the list updates are modelled, as `KeyDown` and `KeyUp`.
- `renderLoop`'s scheduling through `requestAnimationFrame`, the call of the render callback and the presentation of the buffer are left out: they are an endless host-driven loop around an opaque function. Only the snapshot it builds is modelled (`Snapshot`).
- `Engine.CanvasEngine.DrawXMajor`, `Engine.CanvasEngine.DrawYMajor`, `Line.LinePoints`: the DDA fraction is exact rational arithmetic. The source accumulates it in IEEE doubles, which can land just below an integer where the exact value is that integer. For example, with `dy/dx = 0.1`, five additions to 0.5 give 0.9999999999999999, so the source can draw a different row than the model near such boundaries.
- `Engine.Configure`, `Engine.NewEngine`: two TypeErrors of the source's constructor are not modelled. Reading `config.width` (canvas-engine.js:57) throws when `config` is undefined or null, and `Config(None, None, None)` does not stand for that case. `render.bind(this)` (canvas-engine.js:72) throws for a truthy `render` that is not a function, after the canvas has already been resized. Sizes are integers (`Option<int>`); non-integer sizes are not modelled.
- `Engine.NewEngine` requires present sizes to be non-negative. Negative sizes are undefined behaviour in the source and are excluded. Falsy values other than absent and 0 (NaN, empty string, false) are not modelled.
- Drawing at coordinates off the grid, and colour channels outside 0..255 (which the clamped byte array would clamp), are excluded by preconditions. The source leaves both unchecked.
- The colour constants are not modelled, except WHITE and BLACK, which the scenario lemma uses.
