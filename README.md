# js_globe_gen core in Dafny

A model of the procedural-globe generator in `globe.js`, with proofs about it. The model covers:

- **The seeded random source.** `mulberry32` and `initializeNoiseSeeds` fill the per-octave seed tables `seed`, `capSeed[0]` and `capSeed[1]`.
- **The altitude/biome logic of `getAlt`.** This is everything after the Perlin octave loop: classification, the polar cap floor, and the clamp with its biome override.
- **The geometry half of `generateGlobe`.** This covers:
  - the vertex loop, which fills `globe.points`, `index` and `landPoints`;
  - the face loop, which builds `facesIndex` and closes the longitude seam through column 0.
- **The colour ramp.** `colorMapPoints`, `lerp` in CUBIC mode, and `colorMap`.
- **The texture pass.** The white background fill, then painting of mid-latitude pixels that are not ice.
- **The start-up zeroing of `globe.points` and the `getMaxAlt` scan.**

The Perlin noise library, trigonometry and `Math.sqrt` are inputs to the model:

- `NoiseField` maps `(dx, dy)` to the three octave sums.
- `Trig` supplies `sin` and `cos`.
- `surfaceBreak` is given as a value whose square is `iceCapLevel * iceCapTransitionRange`.
- `Math.random()` becomes the per-row oracle `seamCoin`.

Files and modules:

| file | module | contents |
|---|---|---|
| `basics.dfy` | `Basics` | maxima and minima, the JavaScript array assignment `Put`, real-arithmetic steps |
| `angles.dfy` | `Angles` | `Math.PI` and the sample angles of the vertex grid and of the texture |
| `seeds.dfy` | `SeedRng` | mulberry32 over `bv32`, the class `Mulberry32`, the class `NoiseSeeds` with `InitializeNoiseSeeds` |
| `altitude.dfy` | `Altitude` | `Classify`, `CapFloor`, `Decide`, `GetAlt` and the cap-floor lemmas |
| `colour.dfy` | `ColourRamp` | control points, `Ease`, `Lerp`, `ColourAt` and the imperative scan `ColorMap` |
| `mesh.dfy` | `Mesh` | vertex numbering, per-cell faces, the face list `Faces` and the face loop `BuildFaces` |
| `texture.dfy` | `Texture` | band test, the per-pixel specification `PixelColour`, and the in-place paint loop on an `array2` |
| `globe.dfy` | `Generator` | configuration and defaults, the class `Globe` (its `points` table), the vertex loop, `GetMaxAlt`, `GenerateGlobe` |

Notes on how the model reads the code:

- **The non-seam diagonal is fixed.**
  - Line 417 tests `Math.random < 0.5`, which compares the function object itself and is always false.
  - Every non-seam cell therefore takes the `(a,b)-(a,b+1)-(a+1,b+1)` / `(a+1,b+1)-(a+1,b)-(a,b)` pair. `Mesh.CellFaces` reproduces this.
  - Only the seam column depends on a random draw.
- **Grid sizes follow the code.**
  - A grid of `lonRes x latRes` cells has `lonRes * (latRes + 1)` vertices. The seam column is not duplicated, and each column carries both poles.
  - It has `6 * lonRes * latRes` face indices. For 4 x 4 that is 20 vertices and 96 indices.
- **`capAlt` and `iceCapLevel`.**
  - `capAlt == iceCapLevel` holds in the flat cap zone.
  - It also holds exactly on the inner edge of the ramp, where the parabola peaks.
  - `Altitude.CapFloor` states this exact condition, both ways.
- **Colour at and beyond the last control point.** `colorMap(1)` and any `t >= 1` or `t < -1` give black, `(0, 0, 0)`.
- **Stale rows of `globe.points` survive.**
  - The vertex loop rewrites rows `a < longitudeRes` only.
  - Rows left over from an earlier, larger `longitudeRes` are kept, and `getMaxAlt` still scans them.
  - `Generator.VerticesBuilt` and `Generator.Globe.ResetPoints` state this.

## Model

| member | source | states |
|---|---|---|
| `SeedRng.Advance` | globe.js:239 | `a += 0x6D2B79F5`, seen modulo 2^32; defined by that line, and `Mulberry32.Next` states the step |
| `SeedRng.Mix` | globe.js:240-242 | the three mixing steps of one draw, with `Math.imul` as multiplication modulo 2^32; defined by those lines, and `Output` states the range of the result |
| `SeedRng.Output` | globe.js:240-242 | a draw is an unsigned 32-bit value divided by 2^32, so it lies in [0, 1) |
| `SeedRng.Scale` | globe.js:255-257 | `(2x - 1) * 65536` maps [0, 1) onto [-65536, 65536) and can be inverted |
| `SeedRng.SeedEntry` | globe.js:253-257 | the scaled draw number `k` of a generator lies in [-65536, 65536) |
| `SeedRng.InitialState` | globe.js:237-239 | the captured `a` of `mulberry32(seedValue)`, as the 32-bit pattern `imul`, `^`, `|` and `>>>` read: the seed modulo 2^32; see `Mulberry32.constructor` |
| `SeedRng.Mulberry32.constructor` | globe.js:237-238 | the generator's state is the seed modulo 2^32 |
| `SeedRng.Mulberry32.Next` | globe.js:238-243 | one call adds `0x6D2B79F5` to the state modulo 2^32 and returns the mixed new state over 2^32, in [0, 1) |
| `Basics.Put` | globe.js:255-257 | a JavaScript array assignment at index `i <= length` sets slot `i`, appending when `i == length`, and keeps every other slot; used for the seed tables and for the rows of `globe.points` (globe.js:266-267, 377) |
| `SeedRng.DrawInto` | globe.js:255-257 | one draw moves the generator one step and extends the filled prefix of a table by one slot |
| `SeedRng.TablesDetermined` | globe.js:251-259 | the same seed gives the same tables whatever they held before, as long as they held at most the `n` slots the fill writes; so the start-up fill from `[]` (globe.js:262) and a re-fill of the 7-slot tables with the same seed (globe.js:528) agree |
| `SeedRng.NoiseSeeds.constructor` | globe.js:247-248 | the seed tables start empty |
| `SeedRng.NoiseSeeds.InitializeNoiseSeeds` | globe.js:251-259 | `seed[a]`, `capSeed[0][a]` and `capSeed[1][a]` for `a < 7` are draws `3a`, `3a+1` and `3a+2` scaled to [-65536, 65536); later slots keep their old values |
| `Altitude.Classify` | globe.js:316-320 | "ICE CAPS" exactly beyond a cap boundary; otherwise "OCEAN" exactly when the raw altitude is negative, else "DEFAULT" |
| `Altitude.CapFloor` | globe.js:321-330 | the floor is at most `iceCapLevel` for a positive transition range; it equals `iceCapLevel` in the flat zone, and it equals `iceCapLevel` exactly in the flat zone or on the inner ramp edge |
| `Altitude.Decide` | globe.js:316-336 | the altitude is the larger of raw altitude and floor; "ICE CAPS EDGE" exactly when the floor raised the altitude and differs from `iceCapLevel`; the classification survives when the raw altitude is not below the floor; any result other than "ICE CAPS EDGE" keeps the classification, including an altitude raised to exactly `iceCapLevel`; "ICE CAPS" implies beyond a boundary, and beyond a boundary the biome is one of the two ice biomes; "OCEAN" implies a negative raw altitude |
| `Altitude.GetAlt` | globe.js:305-339 | with the boundaries perturbed by the octave sums, `alt = max(rawAlt, capAlt)`; "ICE CAPS" implies beyond a boundary, "OCEAN" a negative raw altitude, "ICE CAPS EDGE" an altitude raised to a floor other than `iceCapLevel`, and any other biome is the classification of lines 316-320 |
| `Altitude.Parabola` | globe.js:327-329 | `iceCapLevel - d^2 / iceCapTransitionRange` for the distance `d` from the inner ramp edge; see `CapFloor`, `NorthRampFloor` and `ParabolaOrdered` |
| `Altitude.FloorZeroAtNorthBoundary` | globe.js:326-327 | at `dy == capLat1 > 0` the parabola gives a floor of 0 |
| `Altitude.FloorZeroAtSouthBoundary` | globe.js:328-329 | at `dy == capLat2 <= 0` the parabola gives a floor of 0 |
| `Altitude.NorthRampFloor` | globe.js:326-327 | inside the northern ramp the floor is `iceCapLevel - d^2 / range`, with `d` measured from the inner edge |
| `Altitude.FloorRisesAcrossNorthRamp` | globe.js:322-327 | across the northern ramp the floor rises monotonically from 0 towards `iceCapLevel` |
| `Altitude.ParabolaOrdered` | globe.js:326-327 | the parabola is between 0 and `iceCapLevel` on [0, surfaceBreak] and decreasing in the distance |
| `Angles.GridLongitude` | globe.js:380 | `(a / longitudeRes * 2 - 1) * PI` lies in [-PI, PI) for every column `a < longitudeRes` |
| `Angles.Latitude` | globe.js:381 | `(b / rows - 0.5) * PI` lies in [-PI/2, PI/2] and is negative exactly in the lower half of the rows |
| `Angles.TextureLongitude` | globe.js:495 | the texture longitude is the vertex grid's longitude (globe.js:380) plus PI |
| `ColourRamp.PointsIncreasing` | globe.js:440-449 | the control points are strictly increasing in position |
| `ColourRamp.PointsInByteRange` | globe.js:440-449 | every control colour channel is in [0, 255] |
| `ColourRamp.Ease` | globe.js:452-454 | the CUBIC easing `-2t^3 + 3t^2`; defined by those lines, and `EaseRange` and `EaseBelowOne` bound it |
| `ColourRamp.Lerp` | globe.js:451-458 | `min + ease(t) * (max - min)`; defined by those lines, and `LerpBetween` bounds it |
| `ColourRamp.SegmentColour` | globe.js:464-468 | the colour segment `k` gives `t`, channel by channel; defined by those lines, and `SegmentColourBetween` and `SegmentMeetsNext` bound it |
| `ColourRamp.EaseRange` | globe.js:453-454 | the cubic ease maps [0, 1] into [0, 1] |
| `ColourRamp.EaseBelowOne` | globe.js:453-454 | the cubic ease maps [0, 1) into [0, 1) |
| `ColourRamp.LerpBetween` | globe.js:451-458 | an eased interpolation lies between its two endpoints |
| `ColourRamp.SegmentColourBetween` | globe.js:463-468 | each channel of a segment's colour lies between the channels of the segment's two control points |
| `ColourRamp.SegmentsDisjoint` | globe.js:463 | no position lies in two segments |
| `ColourRamp.SegmentOf` | globe.js:462-463 | every position in [-1, 1) lies in some segment |
| `ColourRamp.ColourAt` | globe.js:460-472 | the colour of a position, black outside [-1, 1); every channel is in [0, 255] |
| `ColourRamp.CoveredExactly` | globe.js:460-470 | a position in segment `k` gets segment `k`'s colour, and every position in [-1, 1) is in some segment |
| `ColourRamp.ColourAtControlPoint` | globe.js:440-470 | at each control point below 1 (`p_0` to `p_6`) the result is that point's colour; at `p_7 = 1` no segment matches and the result is black |
| `ColourRamp.SegmentMeetsNext` | globe.js:451-468 | each segment's colour reaches the next control colour at its upper end, so the ramp is continuous inside [-1, 1) |
| `ColourRamp.ColorMap` | globe.js:460-472 | the loop's result is `ColourAt(t)`: the matching segment's colour, black for `t < -1` or `t >= 1` |
| `Mesh.VertexId` | globe.js:386 | the id `a * (latitudeRes + 1) + b` that `landPoints.length / 3` takes for vertex `(a, b)`; see `VertexIdInjective`, `VertexIdBelowCount` and `Globe.BuildVertices` |
| `Mesh.VertexIdInjective` | globe.js:386 | different grid positions get different vertex ids |
| `Mesh.VertexIdBelowCount` | globe.js:386 | every vertex id is below `longitudeRes * (latitudeRes + 1)` |
| `Mesh.CellFaces` | globe.js:398-432 | the six indices emitted for cell `(a, b)`: the seam branch on the coin, and the fixed non-seam branch of line 417; see `CellUsesCorners`, `CellSplitsQuad` and `FacesLayout` |
| `Mesh.ColumnFaces` | globe.js:397-433 | the indices of cells `(a, 0)` to `(a, b - 1)` in emission order; see `ColumnFacesLength` and `ColumnFacesAt` |
| `Mesh.FacesUpTo` | globe.js:396-434 | the indices of columns `0` to `a - 1` in emission order; see `FacesUpToLength` and `FacesUpToAt` |
| `Mesh.Faces` | globe.js:395-436 | the whole of `facesIndex`; see `FacesLayout`, `FacesLength`, `FacesEntriesBelowCount` and `BuildFaces` |
| `Mesh.CellUsesCorners` | globe.js:398-432 | every index of cell `(a, b)` is a corner on rows `b`, `b+1` and columns `a`, `(a+1) mod longitudeRes`, and is below the vertex count |
| `Mesh.CellSplitsQuad` | globe.js:398-432 | with two or more columns both triangles have distinct corners and together cover the cell's four corners; non-seam cells do not depend on the coin |
| `Mesh.FacesLayout` | globe.js:396-397 | cell `(a, b)`'s six indices are entries `6 * (a * latitudeRes + b)` onwards of `facesIndex` |
| `Mesh.FacesLength` | globe.js:396-436 | `facesIndex` has `6 * longitudeRes * latitudeRes` entries |
| `Mesh.FacesEntriesBelowCount` | globe.js:396-436 | every entry of `facesIndex` is below the vertex count |
| `Mesh.BuildFaces` | globe.js:393-436 | from the vertex table, the nested loops produce exactly `Faces`, of length `6 * longitudeRes * latitudeRes`, with every entry a valid vertex id |
| `Texture.BandInIntegers` | globe.js:494 | `abs(b / H - 0.5) < 0.3` holds exactly when `abs(10b - 5H) < 3H` |
| `Texture.PixelColourCases` | globe.js:474-504 | pixels outside the band or on ice stay white; a non-white pixel was painted with the ramp colour of its altitude; every pixel is in byte range |
| `Texture.FillBackground` | globe.js:474-476 | every pixel becomes `#ffffff` |
| `Texture.PaintLand` | globe.js:492-504 | each band pixel whose sampled biome is neither ice biome gets `colorMap(alt)`; every other pixel is unchanged |
| `Texture.Sample` | globe.js:495-497 | the place `getAlt(angleA, angleB)` reports for texture pixel `(a, b)`; see `Painted`, `PixelColourCases` and `PaintLand` |
| `Texture.Painted` | globe.js:492-504 | the colour of pixel `(a, b)` after the paint loop, given its colour before; `PaintLand` is proved to produce it |
| `Texture.PixelColour` | globe.js:474-504 | the colour of pixel `(a, b)` in the finished texture; see `PixelColourCases` and `PaintTexture` |
| `Texture.PaintTexture` | globe.js:474-504 | after fill and paint, every pixel equals `PixelColour` |
| `Generator.VertexAlt` | globe.js:380-385 | the altitude `getAlt(angleA, angleB).alt` stored for vertex `(a, b)`; see `Globe.BuildVertices` |
| `Generator.VertexPosition` | globe.js:380-389 | the three coordinates pushed for vertex `(a, b)`; see `Position`, `OnSphere` and `Globe.BuildVertices` |
| `Generator.Position` | globe.js:387-389 | three coordinates per vertex |
| `Generator.ScaleRadius` | globe.js:387-389 | scaling `radius` scales all three coordinates by the same factor |
| `Generator.OnSphere` | globe.js:387-389 | given `sin^2 + cos^2 = 1`, a vertex is at distance `radius * (1 + heightScale * alt)` from the centre |
| `Generator.BuildColumn` | globe.js:379-390 | after the inner loop, every vertex of column `a` is in place, earlier columns are untouched, and `landPoints` has grown by three per vertex |
| `Generator.Globe.constructor` | globe.js:7-27 | the default settings and an empty `points` |
| `Generator.Globe.ResetPoints` | globe.js:266-271 | rows `a < longitudeRes` become `latitudeRes` zeros and later rows are kept |
| `Generator.Globe.BuildVertices` | globe.js:374-391 | `index[a][b] == a * (latitudeRes + 1) + b`; `landPoints` holds exactly three coordinates per vertex at `3 * index[a][b]`; `points[a]` has `latitudeRes + 1` sampled altitudes for `a < longitudeRes`; later rows are kept |
| `Generator.Globe.GetMaxAlt` | globe.js:643-653 | the result is at least 0 and at least every entry of `points`, and it is 0 or equal to some entry |
| `Generator.Globe.GenerateGlobe` | globe.js:372-505 | vertices as above, `facesIndex == Faces` with its length and bounds, and a fresh texture whose every pixel equals `PixelColour` |

## Left out

- The Perlin library (`noise.seed`, `noise.perlin2`, `noise.perlin3`) is not modelled. The octave sums of globe.js:311-315 are an input function, `NoiseField`.
- `Math.sin`, `Math.cos` and `Math.sqrt` are not modelled.
  - Trigonometry is the `Trig` parameter.
  - The square root on line 322 is the `surfaceBreak` field of `CapConfig`. `CapConfig.Valid()` ties it to its square.
- `Math.random()` on line 399 is not modelled. It is the oracle `seamCoin`, with one draw per row of the seam column.
- `lerp`'s SINE mode and other non-CUBIC modes are left out. `colorMap` only uses CUBIC.
- Floating point is not modelled: all JavaScript numbers are reals.
  - NaN and Infinity are not represented.
  - Rounding in `mulberry32`'s addition is not modelled. It only matters once the state exceeds 2^53, which is far beyond the 21 draws made from a normal seed.
- The `"rgb(...)"` string formatting and the canvas's 8-bit quantisation of `fillStyle` are left out. Colours are real triples.
- THREE.js meshes, materials, texture offsets, the renderer, camera, lights and render loop are left out. So are DOM setup, input handlers, the settings form and `server.js`. None of them compute anything the core depends on.
- `Altitude.GetAlt`, `Altitude.Decide` and `Altitude.CapFloor`: require `CapConfig.Valid()`, for two reasons reals cannot represent.
  - A zero `iceCapTransitionRange` divides by zero in the source, giving Infinity or NaN.
  - A negative `iceCapLevel * iceCapTransitionRange`, which the settings form accepts (globe.js:523-524), gives a NaN `surfaceBreak`. Every comparison with it is then false and `capAlt` is NaN, so the source applies no floor at all. Neither case is modelled.
- `Generator.Globe.BuildVertices`: requires `latitudeRes > 0`. With 0 the source computes `0 / 0` (NaN) for the latitude of its single row, which reals cannot represent.
- `Generator.Globe.GenerateGlobe`: requires `latitudeRes > 0` for the same reason.
- Settings are not validated, and changes arriving from the form are left out. The class holds whatever `Config` it was given.
- A fresh texture is modelled as an array allocated in black and then filled white. The canvas's transparent initial state is not represented, since the fill overwrites it.
