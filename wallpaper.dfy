/** The generation config (`Config`, `WallpaperConfig`) and the wallpaper
    painter (`paintWallpaper`), with the `maybe` combinator that the
    `squareWorms` pattern draws its strokes through. */
module Wallpaper {
  import opened Draws
  import opened Colors
  import opened Tiling

  /** `maybe(fn)`: the effects of `fn` happen when `random(0, 1)` exceeds one half. */
  function Maybe<E>(u: Unit, effects: seq<E>): seq<E>
  {
    if Scale(u, 0.0, 1.0) > 0.5 then effects else []
  }

  /** `maybe` runs its callback exactly when the raw draw exceeds one half,
      and otherwise has no effect. */
  lemma MaybeFires<E>(u: Unit, effects: seq<E>)
    ensures u > 0.5 ==> Maybe(u, effects) == effects
    ensures u <= 0.5 ==> Maybe(u, effects) == []
  {
    assert Scale(u, 0.0, 1.0) == u;
  }

  /** The strokes a sequence of `maybe` calls draws: call `k` decides stroke `k`
      from draw `us[k]`.  `squareWorms` makes six such calls, one per candidate line. */
  function Strokes(us: seq<Unit>): (r: seq<nat>)
    ensures |r| <= |us|
    ensures forall x :: x in r ==> x < |us|
  {
    if |us| == 0 then [] else Strokes(us[..|us| - 1]) + Maybe(us[|us| - 1], [|us| - 1])
  }

  /** Stroke `k` is drawn exactly when its draw exceeds one half; each drawn
      stroke appears once, and in the order of the calls. */
  lemma {:induction false} StrokesExact(us: seq<Unit>)
    ensures forall k: nat :: k in Strokes(us) <==> k < |us| && us[k] > 0.5
    ensures forall a, b :: 0 <= a < b < |Strokes(us)| ==> Strokes(us)[a] < Strokes(us)[b]
  {
    if |us| > 0 {
      var init := us[..|us| - 1];
      StrokesExact(init);
      MaybeFires(us[|us| - 1], [|us| - 1]);
      assert forall k :: 0 <= k < |init| ==> us[k] == init[k];
      var head := Strokes(init);
      var all := Strokes(us);
      forall a, b | 0 <= a < b < |all|
        ensures all[a] < all[b]
      {
        if b >= |head| {
          assert all[a] == head[a] && head[a] in head;
        }
      }
    }
  }

  /** The number of iterations of `for (i = 0; i < passes; ++i)`: `ceil(passes)`
      for a positive `passes`. */
  function PassCount(passes: real): nat
  {
    Steps(passes, 1.0)
  }

  /** `passes` comes from `random(3, 12)`, so the pass loop runs `ceil(passes)`
      times, between 3 and 12. */
  lemma PassCountRange(passes: real)
    requires 3.0 <= passes < 12.0
    ensures 3 <= PassCount(passes) <= 12
    ensures PassCount(passes) == Ceil(passes)
  {
    StepsIndex(passes, 1.0, 0);
  }

  /** `n` copies of `s`, one after another. */
  function Repeat<T>(n: nat, s: seq<T>): seq<T>
  {
    if n == 0 then [] else Repeat(n - 1, s) + s
  }

  /** `Repeat(n, s)` has `n * |s|` elements, and copy `p` of `s` starts at `p * |s|`. */
  lemma {:induction false} RepeatAt<T>(n: nat, s: seq<T>, p: nat, m: nat)
    requires p < n && m < |s|
    ensures |Repeat(n, s)| == n * |s|
    ensures p * |s| + m < n * |s|
    ensures Repeat(n, s)[p * |s| + m] == s[m]
  {
    RepeatLength(n, s);
    RepeatLength(n - 1, s);
    assert n * |s| == (n - 1) * |s| + |s|;
    if p < n - 1 {
      RepeatAt(n - 1, s, p, m);
    }
  }

  lemma {:induction false} RepeatLength<T>(n: nat, s: seq<T>)
    ensures |Repeat(n, s)| == n * |s|
  {
    if n > 0 {
      RepeatLength(n - 1, s);
      assert n * |s| == (n - 1) * |s| + |s|;
    }
  }

  lemma {:induction false} RepeatElements<T>(n: nat, s: seq<T>)
    ensures forall x :: x in Repeat(n, s) ==> x in s
  {
    if n > 0 {
      RepeatElements(n - 1, s);
    }
  }

  /** `floor(random(0, n))`: the pattern index `paintWallpaper` picks. */
  function ShapeIndex(u: Unit, n: nat): (k: int)
    ensures n > 0 ==> 0 <= k < n
  {
    Scale(u, 0.0, n as real).Floor
  }

  /** `WallpaperConfig`: the tile size, the pass count and the two base colours
      of the wallpaper, all fixed when it is built, and its two patterns. */
  class WallpaperConfig {
    const palette: Palette
    const tileSize: real
    const passes: real
    const baseColor: Color
    const secondaryColor: Color
    const patterns: seq<Pattern>

    ghost predicate Valid()
    {
      15.0 <= tileSize < 60.0 && 3.0 <= passes < 12.0 && patterns == [SquareWorms, Stucco]
    }

    /** Draws the tile size, then the pass count, then resolves the start
        colour and the stop colour, in that order. */
    constructor (pal: Palette, rng: Random)
      requires pal.Valid()
      modifies rng, pal.gradientStart, pal.gradientStop
      ensures Valid() && palette == pal && pal.Valid()
      ensures tileSize == Scale(rng.stream(old(rng.pos)), 15.0, 60.0)
      ensures passes == Scale(rng.stream(old(rng.pos) + 1), 3.0, 12.0)
      ensures pal.gradientStart.value == Some(baseColor)
      ensures pal.gradientStop.value == Some(secondaryColor)
      ensures old(pal.gradientStart.value).Some? ==> pal.gradientStart.value == old(pal.gradientStart.value)
      ensures old(pal.gradientStop.value).Some? ==> pal.gradientStop.value == old(pal.gradientStop.value)
      // on an unresolved palette: three draws for the start, three for the seed, one for the blend
      ensures old(pal.gradientStart.value).None? && old(pal.gradientStop.value).None? ==>
        var p := old(rng.pos);
        baseColor == RandomRgb(rng.stream, p + 2) &&
        secondaryColor == Lerp(baseColor, RandomRgb(rng.stream, p + 5), Scale(rng.stream(p + 8), 0.25, 0.99)) &&
        rng.pos == p + 9
    {
      palette := pal;
      var size := rng.Next(15.0, 60.0);
      var count := rng.Next(3.0, 12.0);
      tileSize := size;
      passes := count;
      var base := pal.gradientStart.GetValue(rng);
      var secondary := pal.gradientStop.GetValue(rng);
      baseColor := base;
      secondaryColor := secondary;
      patterns := [SquareWorms, Stucco];
    }
  }

  /** `Config`: the canvas size, the palette and the wallpaper settings of one
      generation cycle. */
  class Config {
    const canvasWidth: nat
    const canvasHeight: nat
    const palette: Palette
    const wallpaper: WallpaperConfig

    ghost predicate Valid()
      reads palette.gradientStart, palette.gradientStop
    {
      palette.Valid() && wallpaper.Valid() && wallpaper.palette == palette
    }

    /** Builds a fresh palette and resolves it through the wallpaper settings,
        so both colour caches are filled once construction ends. */
    constructor (rng: Random)
      modifies rng
      ensures Valid()
      ensures canvasWidth == 800 && canvasHeight == 800
      ensures fresh(palette) && fresh(palette.gradientStart) && fresh(palette.gradientStop) && fresh(wallpaper)
      ensures palette.gradientStart.value == Some(wallpaper.baseColor)
      ensures palette.gradientStop.value == Some(wallpaper.secondaryColor)
      ensures palette.gradientStart.invocations == 1 && palette.gradientStop.invocations == 1
      ensures var p := old(rng.pos);
        wallpaper.tileSize == Scale(rng.stream(p), 15.0, 60.0) &&
        wallpaper.passes == Scale(rng.stream(p + 1), 3.0, 12.0) &&
        wallpaper.baseColor == RandomRgb(rng.stream, p + 2) &&
        wallpaper.secondaryColor ==
          Lerp(wallpaper.baseColor, RandomRgb(rng.stream, p + 5), Scale(rng.stream(p + 8), 0.25, 0.99)) &&
        rng.pos == p + 9
    {
      canvasWidth := 800;
      canvasHeight := 800;
      var pal := new Palette();
      palette := pal;
      wallpaper := new WallpaperConfig(pal, rng);
    }
  }

  /** The calls `paintWallpaper` makes when its pattern draw is `u`: the chosen
      pattern tiled over the whole canvas once per pass. */
  function WallpaperCalls(wallpaper: WallpaperConfig, width: real, height: real, u: Unit): seq<Call>
    requires wallpaper.Valid()
  {
    var shape := wallpaper.patterns[ShapeIndex(u, |wallpaper.patterns|)];
    Repeat(PassCount(wallpaper.passes), TileCalls(shape, width, height, wallpaper.tileSize))
  }

  /** `paintWallpaper`: picks one pattern with a single draw, then tiles the
      canvas with that same pattern on each pass. */
  method PaintWallpaper(config: Config, rng: Random) returns (calls: seq<Call>)
    requires config.wallpaper.Valid()
    modifies rng
    ensures rng.pos == old(rng.pos) + 1
    ensures calls == WallpaperCalls(config.wallpaper, config.canvasWidth as real, config.canvasHeight as real,
                                    rng.stream(old(rng.pos)))
  {
    var patterns := config.wallpaper.patterns;
    var width, height := config.canvasWidth as real, config.canvasHeight as real;
    var u := rng.Next(0.0, |patterns| as real);
    var shapeIndex := u.Floor;
    var shape := patterns[shapeIndex];
    ghost var tile := TileCalls(shape, width, height, config.wallpaper.tileSize);
    ghost var total := PassCount(config.wallpaper.passes);
    calls := [];
    var i := 0;
    while (i as real) < config.wallpaper.passes
      invariant 0 <= i <= total
      invariant calls == Repeat(i, tile)
      invariant rng.pos == old(rng.pos) + 1
      decreases total - i
    {
      StepsIndex(config.wallpaper.passes, 1.0, i);
      var pass := TileShape(shape, config.wallpaper.tileSize, width, height);
      calls := calls + pass;
      i := i + 1;
    }
    StepsIndex(config.wallpaper.passes, 1.0, i);
  }

  /** `paintWallpaper` uses one pattern for every call, and makes `ceil(passes)`
      times the calls of one `tileShape` pass: on the canvas,
      `ceil(passes) * ceil(width / tileSize) * ceil(height / tileSize)`. */
  lemma WallpaperCount(wallpaper: WallpaperConfig, width: real, height: real, u: Unit)
    requires wallpaper.Valid()
    ensures var calls := WallpaperCalls(wallpaper, width, height, u);
      var k := ShapeIndex(u, |wallpaper.patterns|);
      0 <= k < |wallpaper.patterns| &&
      (forall c :: c in calls ==> c.shape == wallpaper.patterns[k]) &&
      |calls| == PassCount(wallpaper.passes) * (Steps(width, wallpaper.tileSize) * Steps(height, wallpaper.tileSize))
    ensures width > 0.0 && height > 0.0 ==>
      |WallpaperCalls(wallpaper, width, height, u)| ==
        Ceil(wallpaper.passes) * (Ceil(width / wallpaper.tileSize) * Ceil(height / wallpaper.tileSize))
  {
    var k := ShapeIndex(u, |wallpaper.patterns|);
    var shape := wallpaper.patterns[k];
    var tile := TileCalls(shape, width, height, wallpaper.tileSize);
    RepeatLength(PassCount(wallpaper.passes), tile);
    RepeatElements(PassCount(wallpaper.passes), tile);
    TileCount(shape, width, height, wallpaper.tileSize);
    TileInBounds(shape, width, height, wallpaper.tileSize);
    PassCountRange(wallpaper.passes);
  }
}
