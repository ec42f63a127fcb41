# Still-life sketch: colour caches, tiling and the wallpaper passes

A verified Dafny model of the logic in the p5.js still-life sketch
`sketch.js`, leaving out its drawing.  Three parts are modelled:

- **The palette.** A `ColorConfig` is a memoised colour. `getValue()` runs
  its generator on the first call and keeps the result. The palette holds
  two of them. The generator of `gradientStop` reads `gradientStart`, so
  resolving the stop first resolves the start. Building a `Config` draws the
  wallpaper's tile size and pass count and then resolves both colours, start
  first.
- **The tiling driver `tileShape`.** Two nested `while` loops walk `posX`
  across the canvas and `posY` down it in steps of `tileSize`. They call the
  pattern's generator once per cursor position.
- **The wallpaper painter `paintWallpaper`.** It picks one pattern with
  `floor(random(0, n))` and tiles the canvas with it once per pass.

`maybe` and the six stroke decisions of the `squareWorms` pattern are also
modelled.

Modules: `Draws` (draws.dfy) is p5's `random`. `Colors` (colors.dfy) holds
`ColorConfig`, the palette and `getRandomColor`. `Tiling` (tiling.dfy) holds
`tileShape` and its grid. `Wallpaper` (wallpaper.dfy) holds `Config`,
`WallpaperConfig`, `paintWallpaper` and `maybe`.

How the model stands in for the sketch's environment:

- **Randomness.** `random(lo, hi)` becomes `Draws.Random.Next`. It takes the
  next draw `u` in [0, 1) from a fixed stream supplied from outside and
  returns `lo + u * (hi - lo)`. Each draw advances a cursor, so the
  contracts say which draw feeds which value.
- **Colours.** p5's `color` and `lerpColor` are kept symbolic: `Rgb(r, g, b)`
  and `Lerp(from, to, amount)`.
- **Generator calls.** A generator call `shape.generator(posX, posY)`
  becomes a `Call(shape, Point(posX, posY))` appended to a trace.
- **Canvas size.** The p5 globals `width` and `height` are the canvas size
  in `Config`, 800 by 800, which `setup` creates the canvas from.
- **Positions.** Positions are exact reals, so after `k` steps the cursor is
  exactly `k * tileSize`.

Three facts about `sketch.js` shape the model:

- `passes` is not an integer. It is the real `random(3, 12)` (sketch.js:25),
  so the pass loop `for (i = 0; i < passes; ++i)` runs `ceil(passes)` times,
  between 3 and 12.
- `tileShape` steps by the single `tileSize` in both directions
  (sketch.js:137-146).
- `getRandomPaletteColor` blends by `random(0.2, 0.8)` (sketch.js:111).

## Model

| member | source | states |
|---|---|---|
| `Draws.Scale` | sketch.js:24-25 | `random(lo, hi)` with `lo < hi` lies in `[lo, hi)` |
| `Draws.Random.Next` | sketch.js:24-25 | consumes exactly one draw and returns it scaled onto `[lo, hi)` |
| `Colors.RandomRgb` | sketch.js:122-128 | a random colour is an RGB colour with every channel in `[0, 255)` |
| `Colors.GetRandomColor` | sketch.js:122-128 | consumes three draws (red, green, blue in that order) and returns the colour built from them |
| `Colors.ColorConfig.constructor` | sketch.js:7-10 | a new cache holds its generator with an empty value and has run it zero times |
| `Colors.ColorConfig.GetValue` | sketch.js:12-17 | an empty cache runs its generator exactly once and stores the result; a filled cache returns its value with no generator call, no draw and no other change; `Valid()` (the generator has run once if the cache is filled, never otherwise) is preserved; the derived generator first resolves its start (from the first three draws if the start is empty, unchanged if it is filled), then blends it towards a seed colour drawn after it by `random(.25, .99)` |
| `Colors.LookupTwice` | sketch.js:12-17 | two lookups return the same value, and that value is the cached one; the generator has run once in all |
| `Colors.ResolveStopFirst` | sketch.js:89-99 | resolving `gradientStop` on a fresh palette fills `gradientStart` first from draws 0-2, then fills the stop with the blend of that colour towards the colour from draws 3-5 by draw 6; each generator runs once |
| `Colors.Palette.constructor` | sketch.js:89-100 | the start cache uses `getRandomColor`, the stop cache derives from the start, and both caches are empty |
| `Colors.Palette.RandomPaletteColor` | sketch.js:107-113 | resolves both caches, never changing a filled one, and returns the blend of start towards stop by a `random(0.2, 0.8)` draw taken after both |
| `Wallpaper.WallpaperConfig.constructor` | sketch.js:21-78 | draws `tileSize` in `[15, 60)`, then `passes` in `[3, 12)`, then resolves start and then stop; `baseColor` and `secondaryColor` are the values the caches then hold; filled caches keep their values; an unresolved palette consumes nine draws in all; the patterns are `squareWorms` and `stucco` |
| `Wallpaper.Config.constructor` | sketch.js:82-104 | the canvas is 800 by 800; both palette caches are filled, each generator has run exactly once, and `baseColor == gradientStart.value`, `secondaryColor == gradientStop.value`; the palette is fresh, so no cache from an earlier generation cycle is reused; gives the exact draws behind every value |
| `Tiling.StepsIndex` | sketch.js:140-141 | the `k`-th cursor value `k * step` is below the limit exactly when `k < Steps(limit, step)`; for a positive limit, `Steps` is `ceil(limit / step)` |
| `Tiling.TileShape` | sketch.js:136-148 | for `tileSize > 0`, the nested loops terminate and the generator calls are exactly `TileCalls`: the grid of rows `Steps(height)` by columns `Steps(width)` |
| `Tiling.RowLength` | sketch.js:141-144 | a row of `n` steps makes `n` calls |
| `Tiling.RowAt` | sketch.js:141-144 | call `i` of row `j` is at `(i * step, j * step)` |
| `Tiling.GridLength` | sketch.js:140-147 | `rows` rows of `cols` calls make `rows * cols` calls |
| `Tiling.GridAt` | sketch.js:140-147 | call number `j * cols + i` is at `(i * step, j * step)`: row-major order |
| `Tiling.RowOrdered` | sketch.js:141-144 | a row lies on `y == j * step`, its `x` values increase strictly and stay below `n * step` |
| `Tiling.GridOrdered` | sketch.js:140-147 | every call of a grid lies above row `rows`, and any earlier call precedes any later one in reading order |
| `Tiling.TileCount` | sketch.js:136-148 | `tileShape` makes `ceil(width / tileSize) * ceil(height / tileSize)` calls on a surface of positive size, and none when either side is not positive |
| `Tiling.TileInBounds` | sketch.js:140-147 | every call uses the given shape at a position with `0 <= posX < width` and `0 <= posY < height` |
| `Tiling.TileCovers` | sketch.js:140-147 | conversely, every lattice point `(i * tileSize, j * tileSize)` on the surface is called, at index `j * cols + i` |
| `Tiling.TileRowMajor` | sketch.js:140-147 | the calls come in reading order: `posY` ascending, and `posX` ascending within a row |
| `Wallpaper.MaybeFires` | sketch.js:130-134 | `maybe` runs its callback's effects exactly when the raw draw `u` exceeds one half (`Maybe(u, effects) == effects`), and has no effect otherwise (`[]`) |
| `Wallpaper.Strokes` | sketch.js:45-62 | the six `maybe` stroke decisions of `squareWorms` draw at most one stroke per call, and only strokes with an index below the number of calls |
| `Wallpaper.StrokesExact` | sketch.js:45-62 | through `maybe`, stroke `k` is drawn exactly when its draw exceeds one half; drawn strokes appear once each and in call order (the six `maybe` calls of `squareWorms`, sketch.js:45-62) |
| `Wallpaper.PassCountRange` | sketch.js:174 | with `passes` from `random(3, 12)`, the pass loop runs `ceil(passes)` times, between 3 and 12 |
| `Wallpaper.ShapeIndex` | sketch.js:172-173 | `floor(random(0, n))` is an index in `[0, n)` for `n > 0` |
| `Wallpaper.RepeatLength` | sketch.js:174-176 | `n` passes of a tiling of `m` calls make `n * m` calls |
| `Wallpaper.RepeatAt` | sketch.js:174-176 | pass `p` repeats the single tiling exactly, starting at call `p * m` |
| `Wallpaper.RepeatElements` | sketch.js:174-176 | every call of the repeated passes is a call of the single tiling |
| `Wallpaper.PaintWallpaper` | sketch.js:167-177 | consumes one draw of its own (the pattern choice) and makes exactly the calls `WallpaperCalls`: `ceil(passes)` copies of `tileShape`'s calls for the chosen pattern over the canvas |
| `Wallpaper.WallpaperCount` | sketch.js:172-176 | the chosen index is in range, every call uses that one pattern, and there are `ceil(passes) * ceil(width / tileSize) * ceil(height / tileSize)` calls on the canvas |

## Left out

- The p5 drawing calls are not modelled, because they are foreign rendering code. These are `push`/`pop`, `stroke`, `strokeWeight`, `line`, `point`, `arc`, `rect`, `fill`, `background` (including the one in `paintWallpaper`), `createCanvas`, `angleMode` and `noLoop`.
- Colour arithmetic (`color`, `lerpColor`) is library code. Colours are symbolic terms, so nothing is proved about channel values after an interpolation.
- `paintBowl` and `paintTable` are not modelled: they only combine library colour calls with drawing.
- The `squareWorms` geometry is not modelled: the jittered tile size `max(tileSize + random(-10, 10), 10)`, the stroke colour and the line coordinates. Only its six `maybe` decisions are (`Strokes`).
- `stucco` is not modelled: random points over the whole canvas, with a loop bound re-drawn on every iteration.
- `Tiling.TileShape`: the draws the pattern generators themselves consume are not threaded through it, so a `Call` records only which pattern was called and where.
- `Wallpaper.PaintWallpaper`: the draws the pattern generators consume on each call are not counted, so its `rng.pos == old(rng.pos) + 1` covers only its own pattern choice. In `sketch.js` each `squareWorms` tile also draws eight values and each `stucco` tile a variable number, so the real cursor advances further.
- The host lifecycle is not modelled: `setup`, `draw` and the global `config` singleton. Configuration is passed explicitly, and `config.possibleSubjects` (always empty) is omitted.
- The quality of p5's random numbers is not modelled; draws are an input stream.
- p5's swapping of `random(lo, hi)` arguments when `lo > hi` is not modelled. Every call in the sketch has `lo < hi`.
- Floating-point rounding of `posX += tileSize` is not modelled, because positions are exact reals. With floating point, the cursor could drift and a boundary position could fall on either side of `width` or `height`.
- `Colors.ColorConfig.GetValue`: the cache is empty exactly when `value` is `None`, standing for JavaScript's `null`. Both generators of the sketch return p5 colour objects, which are always truthy, so the case where a falsy result is computed again never arises and is not modelled.
