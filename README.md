# Mandelbrot tile server, modelled in Dafny

The server answers `GET /mandelbrot/{z}/{x}/{y}` with a 256 x 256 PNG tile
of the Mandelbrot set, addressed like a slippy map: zoom `z` splits the
square [-2, 2] x [-2, 2] of the complex plane into 2^z x 2^z tiles, and
`(x, y)` picks one of them.

The repository carries two renderers that define the same names:

- **main.go** samples a 256 x 256 grid of the tile with `linspace` and
  `complexMatrix`. `getMembers` keeps the samples whose orbit stays within
  radius 2 after 20 steps. `processInput` plots each member in colour
  (255, 0, 128, 255) on a zeroed (transparent) image.
- **mandelbrot.go** computes every pixel directly. It paints the image white
  and then fills one row per goroutine. Each pixel samples
  `c = (xmin + x*dx, ymin + y*dy)` and runs 35 orbit steps. It stays white
  if `|z_35| > 2`. Otherwise it gets `hsl(hue*360, 0.5, 0.5)` with
  `hue = 1 - min(|z_35|/2, 1)`.

The repository also carries two copies of the HTTP handler
`handleMandelbrot`:

- **server.go** logs the request and, after validation, logs the tile
  indices and the rectangle with two `log.Printf` calls.
- **controllers.go** logs the request too, but lacks those two
  `log.Printf` calls.

Both copies check z, x and y in that order, render the tile's rectangle at
256 x 256, and answer 400, 500 or the PNG.

Modules:

- `Orbits` (orbits.dfy): complex numbers over exact reals and the orbit
  `z_0 = 0, z_{k+1} = z_k^2 + c`, shared by both renderers.
- `Tiles` (tiles.dfy): `slippyToMandelbrot`. The function is identical in
  main.go and mandelbrot.go, so it is defined once.
- `Raster` (raster.dfy): the RGBA pixel buffer, an `array2<Rgba>` indexed
  `[y, x]`.
- `ScatterRenderer` (scatter_renderer.dfy): main.go.
- `PixelRenderer` (pixel_renderer.dfy): mandelbrot.go.
- `TileRequests` (tile_requests.dfy): parameters, responses and the ordered
  list of checks shared by both handlers.
- `Server` (server.dfy): server.go.
- `Controllers` (controllers.dfy): controllers.go, proved to answer every
  request exactly as `Server` does.

Inputs the model does not compute itself:

- **`strconv.Atoi`.** Each path segment arrives already parsed, as a
  `Param`: either `Parsed(n)` or `Unparsable`.
- **`processInput`, from the handler's side.** The handler receives the
  renderer as a parameter `render`, a function from the rectangle and the
  size to the PNG bytes or an encoder error.
- **`cmplx.Abs`, in mandelbrot.go.** This is the parameter `abs`. The
  predicate `IsModulus` states that it is the non-negative square root of
  `re^2 + im^2`; the lemmas that need it require it.
- **`colorful.Hsl`.** This is the parameter `hsl`.
- **main.go's `cmplx.Abs(z) <= 2`.** This is stated exactly, as
  `re^2 + im^2 <= 4`.

## Model

| member | source | states |
|---|---|---|
| Orbits.OrbitFirstSteps | mandelbrot.go:81-87 | zero iterations return 0; one iteration returns c |
| Orbits.OrbitOfZero | mandelbrot.go:81-87 | for c = 0 the orbit stays at 0 for every iteration count |
| Orbits.NormSqOfConj | main.go:90 | a complex number and its conjugate have the same modulus |
| Orbits.IterateOfConj | mandelbrot.go:84 | one step `z*z + c` commutes with conjugation |
| Orbits.OrbitOfConj | mandelbrot.go:81-87 | the orbit of conj(c) is the conjugate of the orbit of c, for every iteration count |
| Orbits.RealOrbit | mandelbrot.go:81-87 | a sample on the real axis has a real orbit |
| Tiles.Pow2 | main.go:29 | `1 << z` is at least 1 |
| Tiles.SlippyToMandelbrot | main.go:28-35 | tile (z, x, y) has width and height exactly 4/2^z; for 0 <= x < 2^z it has -2 <= xmin < xmax <= 2, and likewise for y |
| Tiles.EdgeStep | main.go:30-31 | consecutive tile boundaries are exactly 4/2^z apart, and that gap is positive |
| Tiles.Span | main.go:30-33 | an in-range column (or row) spans a non-empty interval inside [-2, 2] |
| Tiles.EdgeMonotone | main.go:30-31 | tile boundaries strictly increase with their index |
| Tiles.EdgeBounds | main.go:30-31 | boundary 0 is -2, boundary 2^z is 2, and every boundary in between lies in [-2, 2] |
| Tiles.AdjacentTilesShareEdges | main.go:30-33 | xmax of (z, x, y) equals xmin of (z, x+1, y), and ymax of (z, x, y) equals ymin of (z, x, y+1) |
| Tiles.LiteralTiles | mandelbrot.go:27-34 | (0,0,0) maps to (-2,-2,2,2), (1,0,0) to (-2,-2,0,0), (1,1,1) to (0,0,2,2), and (2,1,1) to (-1,-1,0,0) |
| Tiles.ColumnOf | main.go:29-31 | every p in [-2, 2) lies in an in-range column k of zoom z, with Edge(z, k) <= p < Edge(z, k+1) |
| Tiles.ColumnsDisjoint | main.go:29-31 | two columns containing the same point are the same column |
| Tiles.TilesPartitionPlane | main.go:28-35 | every point of [-2, 2) x [-2, 2) lies in exactly one in-range tile of each zoom |
| Tiles.EdgeAtNextZoom | main.go:29-31 | boundary 2k at zoom z+1 equals boundary k at zoom z |
| Tiles.ChildTiles | main.go:28-35 | the four tiles (2x+i, 2y+j) at zoom z+1 split tile (z, x, y) into quarters at its midpoint |
| Raster.NewRgba | main.go:42 | a fresh width x height buffer whose pixels all hold the zero colour |
| ScatterRenderer.LinspaceClosedForm | main.go:77-80 | element i is start + i*(end-start)/num |
| ScatterRenderer.LinspaceOrdered | main.go:77-81 | for start < end: element 0 is start, elements strictly increase, and every element is below end |
| ScatterRenderer.Linspace | main.go:76-83 | returns num elements, element i is start + i*step; for start < end the result is strictly increasing and lies in [start, end) |
| ScatterRenderer.Grid | main.go:63-74 | n rows of n entries; entry [i][j] has real part re[j] and imaginary part im[i] |
| ScatterRenderer.ComplexMatrix | main.go:63-74 | the nested fill loops build exactly Grid |
| ScatterRenderer.IsStable | main.go:85-91 | returns whether z_n lies in the closed disc of radius 2 |
| ScatterRenderer.OriginIsStable | main.go:85-91 | c = 0 is stable for every iteration budget |
| ScatterRenderer.StableUnderConj | main.go:85-91 | c and conj(c) are both stable or both unstable |
| ScatterRenderer.StableMembersAppend | main.go:95-101 | filtering a concatenation filters each part, so all members of an earlier row come before those of a later row |
| ScatterRenderer.StableMembersExact | main.go:93-103 | v is a member exactly when it is an entry and is stable |
| ScatterRenderer.StableMembersLength | main.go:93-103 | there are never more members than entries |
| ScatterRenderer.StableMembersInOrder | main.go:93-103 | the members form a subsequence of the entries: member k is entry idx[k], with idx strictly increasing |
| ScatterRenderer.GetMembers | main.go:93-103 | the nested append loops return exactly the stable entries of the row-major flattening, in order |
| ScatterRenderer.FlattenSquare | main.go:66-68 | an n-row matrix of n-entry rows flattens to n*n entries |
| ScatterRenderer.MemberCountBound | main.go:38-39 | getMembers on the n x n sample grid returns at most n*n members, so at most 256*256 for processInput |
| ScatterRenderer.FlattenContains | main.go:95-96 | the entries of the flattening are exactly the matrix entries |
| ScatterRenderer.Trunc | main.go:46-47 | `int(f)` rounds toward zero: floor for f >= 0, ceiling for f < 0 |
| ScatterRenderer.ProcessInput | main.go:37-53 | a fresh width x height image in which exactly the pixels some member lands on hold (255, 0, 128, 255); every other pixel keeps the zero colour |
| ScatterRenderer.PaintedMeansLanded | main.go:44-53 | a pixel is painted exactly when some member of the list lands on it |
| ScatterRenderer.LinspacePixel | main.go:46-47 | over exact reals, linspace point j of n is plotted at pixel j*size/n, which lies in [0, size) |
| ScatterRenderer.GridEntryLands | main.go:44-53 | grid entry [i][j] lands at pixel (j*width/n, i*height/n), inside any non-empty image, so the bounds test never drops a member |
| ScatterRenderer.StableSamplePainted | main.go:37-53 | every stable grid sample [i][j] paints pixel (j*width/256, i*height/256) |
| ScatterRenderer.PaintedPixelHasStableSample | main.go:37-53 | every painted pixel is the pixel of some stable grid sample |
| ScatterRenderer.PaintedExactly | main.go:37-53 | a pixel is painted exactly when a grid sample that stays bounded for 20 steps maps to it |
| PixelRenderer.IsStable | mandelbrot.go:81-87 | returns z_n, the n-th orbit value |
| PixelRenderer.Hue | mandelbrot.go:63-64 | the hue is at least 0, at most 1 for a magnitude, and 0 exactly when the magnitude reaches 2 |
| PixelRenderer.HueAntitone | mandelbrot.go:64 | a larger magnitude never gives a larger hue |
| PixelRenderer.EscapedExactly | mandelbrot.go:60 | with `abs` the modulus, the escape test holds exactly when re^2 + im^2 > 4 |
| PixelRenderer.RenderRow | mandelbrot.go:55-68 | the task of row y shades each non-escaped pixel of that row, leaves escaped pixels as they were, and changes no other row |
| PixelRenderer.FillWhite | mandelbrot.go:44-49 | after the background loop every pixel is white |
| PixelRenderer.ProcessInput | mandelbrot.go:37-70 | a fresh width x height image in which every pixel holds PixelColour: white if its orbit escapes, its shade otherwise |
| PixelRenderer.RowTaskGivesPixelColour | mandelbrot.go:41-42 | with dx = (xmax-xmin)/width and dy = (ymax-ymin)/height, the row task's result on white is the final pixel colour |
| PixelRenderer.PixelColourByEscape | mandelbrot.go:58-66 | a pixel is white when re^2 + im^2 of z_35 exceeds 4, and otherwise hsl(hue(|z_35|)*360, 0.5, 0.5) |
| PixelRenderer.ModulusOfZero | mandelbrot.go:63 | the modulus of 0 is 0 |
| PixelRenderer.ShadeOfZero | mandelbrot.go:60-65 | an orbit ending at 0 is not escaped and gets hsl(360, 0.5, 0.5) |
| PixelRenderer.OriginPixel | mandelbrot.go:57-66 | the pixel whose sample is the origin is coloured hsl(360, 0.5, 0.5) |
| PixelRenderer.MirroredSample | mandelbrot.go:41-42 | in a rectangle with ymin = -ymax, row height-y samples the conjugates of row y |
| PixelRenderer.MirroredRowsAgree | mandelbrot.go:53-70 | in a rectangle with ymin = -ymax, rows y and height-y are coloured alike |
| TileRequests.Checks | server.go:25-52 | the six guards in handler order; all pass exactly when the request names a valid tile |
| TileRequests.FirstFailing | server.go:25-52 | the position of the first failing guard: all earlier guards pass and that one fails |
| TileRequests.FirstFailingIsUnique | server.go:25-52 | a failing guard preceded only by passing ones is the first failing one |
| Server.Decide | server.go:25-54 | renders exactly the valid tiles, at SlippyToMandelbrot(z, x, y) and 256 x 256; rejects everything else with 400 |
| Server.RejectionNamesFirstFailedCheck | server.go:25-52 | the 400 message is the message of the first guard, in z, x, y order, that the request fails |
| Server.Respond | server.go:58-64 | a renderer error gives 500 "Error generating image"; success gives Content-Type image/png with the renderer's bytes |
| Server.HandleMandelbrot | server.go:22-65 | 400 exactly for invalid tiles, with the first failing guard's message; for valid tiles, 500 on a renderer error and the PNG otherwise |
| Server.ZoomRejectionIgnoresRest | server.go:25-33 | once z is rejected, the response is 400 with the z message whatever x, y and the renderer are |
| Server.ColumnRejectionIgnoresRest | server.go:34-43 | once x is rejected, the response is 400 with the x message whatever y and the renderer are |
| Server.RowRejectionIgnoresRenderer | server.go:44-52 | once y is rejected, the response is 400 with the y message whatever the renderer is |
| Server.RenderedRectangleInPlane | server.go:54-58 | an accepted tile is a square of side 4/2^z inside [-2, 2] x [-2, 2] |
| Server.LiteralRequests | server.go:25-58 | pinned responses: z = 25 and z = -1 give the z range message; x = 2 at z = 1 gives the x range message; an unparsable y gives "Invalid y parameter"; (0,0,0) and (2,1,1) render their pinned rectangles |
| Controllers.HandleMandelbrot | controllers.go:22-62 | 400 exactly for invalid tiles; for valid tiles, 500 on a renderer error and the PNG otherwise |
| Controllers.AgreesWithServer | controllers.go:22-62 | this copy gives the same response as server.go's to every request and renderer, so its 400 message is also the first failing guard's |

## Left out

- Floating point. Reals are exact: there is no rounding, overflow, NaN or infinity.
  - For validated tiles, the rectangle corners are dyadic rationals and are exact in float64.
  - The `cmplx.IsNaN` test (mandelbrot.go:60) can never hold of a real, so it is dropped.
  - Orbit values and linspace points can differ from the float64 run.
- PixelRenderer.IsModulus: `cmplx.Abs` is the `abs` parameter. The lemmas about escaping require it to be the modulus; the renderer itself works for any `abs`.
- HSL-to-RGB conversion (`colorful.Hsl`) is the parameter `hsl`, a foreign library.
- The colour `colorful.Hex("#ffffff")` is taken as white (255, 255, 255, 255).
- PNG encoding and `bytes.Buffer` are left out. In the handlers, the renderer's outcome (bytes or an error) is an input.
- Goroutines and `sync.WaitGroup`: the row tasks run one after another. `RenderRow` is proved to change only its own row, so the order does not matter.
- `strconv.Atoi`, `r.PathValue`, `http.Error` and header writes are left out. The parse result is an input, and the response is a returned value.
- Routing, `ListenAndServe`, static files, `logRequest`, the `log.Printf` calls, `handleLivez`/`handleHealthz` and `main`'s PORT handling are I/O only.
- Tiles.SlippyToMandelbrot: z is a natural number. A negative z, or a shift of 63 or more, misbehaves in Go (`1 << uint(z)` wraps). The handlers never pass such a z.
- ScatterRenderer.ProcessInput: requires xmax != xmin and ymax != ymin. Go divides by zero there, and `int` of the resulting infinity or NaN is implementation-defined. The handlers only pass tiles of positive size.
- Width, height, `num`, `pixelDensity` and the iteration counts are natural numbers. Every call site passes 256, 20 or 35, so no negative value reaches these functions. In Go, negative values would behave differently:
  - a negative iteration count runs the orbit loop zero times;
  - a negative `num` or `pixelDensity` makes `make` panic (main.go:66, 68, 78) rather than return an empty slice;
  - a negative width or height gives a non-empty |width| x |height| image, because `image.Rect` swaps reversed corners. That image stays all zeros: main.go's bounds test rejects every pixel, and mandelbrot.go's loops never run, so its pixels are not even white.
