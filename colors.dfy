/** The palette: memoised colour caches (`ColorConfig`) and the two of them
    that every generation cycle derives its colours from.

    Colours are kept symbolic.  p5's `color` and `lerpColor` are library code
    whose numeric behaviour is not modelled, so a colour records how it was
    built: from three channel draws, or as an interpolation between two
    colours by a given amount. */
module Colors {
  import opened Draws

  datatype Option<T> = None | Some(value: T)

  datatype Color =
    | Rgb(r: real, g: real, b: real)
    | Lerp(from: Color, to: Color, amount: real)

  /** The colour `getRandomColor` builds from the three draws at `p`, `p + 1`
      and `p + 2`: each channel is `random(0, 255)`. */
  function RandomRgb(stream: nat -> Unit, p: nat): (c: Color)
    ensures c.Rgb?
    ensures 0.0 <= c.r < 255.0 && 0.0 <= c.g < 255.0 && 0.0 <= c.b < 255.0
  {
    Rgb(Scale(stream(p), 0.0, 255.0), Scale(stream(p + 1), 0.0, 255.0), Scale(stream(p + 2), 0.0, 255.0))
  }

  /** `getRandomColor`: consumes three draws, red, green and blue in that order. */
  method GetRandomColor(rng: Random) returns (c: Color)
    modifies rng
    ensures rng.pos == old(rng.pos) + 3
    ensures c == RandomRgb(rng.stream, old(rng.pos))
  {
    var red := rng.Next(0.0, 255.0);
    var green := rng.Next(0.0, 255.0);
    var blue := rng.Next(0.0, 255.0);
    c := Rgb(red, green, blue);
  }

  /** The zero-argument generator a `ColorConfig` is built with.
      `FreshRandom` is `getRandomColor`; `DerivedFrom(start)` is the closure
      that resolves `start`, draws a seed colour and interpolates from the
      first towards the second by `random(.25, .99)`. */
  datatype Generator = FreshRandom | DerivedFrom(start: ColorConfig)

  /** A lazily computed colour: the generator runs on the first `GetValue`
      and the result is kept in `value` for every later call. */
  class ColorConfig {
    const generator: Generator
    var value: Option<Color>
    /** How many times the generator has run. */
    ghost var invocations: nat

    /** The other caches the generator reads. */
    function Deps(): set<object> {
      if generator.DerivedFrom? then {generator.start} else {}
    }

    /** Dependency depth, which bounds the recursion of `GetValue`. */
    function Level(): nat {
      if generator.DerivedFrom? then 1 else 0
    }

    /** The generator has run exactly once if the cache is filled, and never otherwise. */
    ghost predicate RanAtMostOnce()
      reads this
    {
      invocations == if value.Some? then 1 else 0
    }

    /** The cache invariant, and no cyclic dependency: a derived colour's
        start is another cache, and one that depends on nothing. */
    ghost predicate Valid()
      reads this, Deps()
    {
      RanAtMostOnce() &&
      (generator.DerivedFrom? ==>
        generator.start != this &&
        generator.start.generator.FreshRandom? &&
        generator.start.RanAtMostOnce())
    }

    constructor (g: Generator)
      ensures generator == g && value == None && invocations == 0
    {
      generator := g;
      value := None;
      invocations := 0;
    }

    /** `getValue`: runs the generator when the cache is empty, stores its
        result, and returns the cached colour. */
    method GetValue(rng: Random) returns (v: Color)
      requires Valid()
      modifies this, rng, Deps()
      decreases Level()
      ensures Valid() && value == Some(v)
      // a filled cache is returned as it is: no generator call, no draw, no other change
      ensures old(value).Some? ==>
        v == old(value).value && invocations == old(invocations) && rng.pos == old(rng.pos)
      ensures old(value).Some? && generator.DerivedFrom? ==> unchanged(generator.start)
      // an empty cache runs the generator once
      ensures old(value).None? ==> invocations == old(invocations) + 1
      ensures old(value).None? && generator.FreshRandom? ==>
        v == RandomRgb(rng.stream, old(rng.pos)) && rng.pos == old(rng.pos) + 3
      // the derived generator resolves its start first (a cache hit leaves it as it was)
      ensures old(value).None? && generator.DerivedFrom? ==>
        var start := generator.start;
        var seedAt := old(rng.pos) + (if old(start.value).None? then 3 else 0);
        start.value == (if old(start.value).Some? then old(start.value)
                        else Some(RandomRgb(rng.stream, old(rng.pos)))) &&
        start.invocations == 1 &&
        v == Lerp(start.value.value, RandomRgb(rng.stream, seedAt), Scale(rng.stream(seedAt + 3), 0.25, 0.99)) &&
        rng.pos == seedAt + 4
    {
      if value.None? {
        var c: Color;
        match generator {
          case FreshRandom =>
            c := GetRandomColor(rng);
          case DerivedFrom(start) =>
            var bgColor := start.GetValue(rng);
            var seedColor := GetRandomColor(rng);
            var amount := rng.Next(0.25, 0.99);
            c := Lerp(bgColor, seedColor, amount);
        }
        value := Some(c);
        invocations := invocations + 1;
      }
      v := value.value;
    }
  }

  /** Two successive lookups give the same colour and run the generator once in all. */
  method LookupTwice(cache: ColorConfig, rng: Random) returns (first: Color, second: Color)
    requires cache.Valid()
    modifies cache, rng, cache.Deps()
    ensures cache.Valid() && first == second && cache.value == Some(first)
    ensures cache.invocations == 1
    ensures old(cache.value).Some? ==> first == old(cache.value).value
  {
    first := cache.GetValue(rng);
    second := cache.GetValue(rng);
  }

  /** Resolving `gradientStop` on a fresh palette first resolves `gradientStart`
      from the first three draws, then blends it towards a seed colour drawn
      after it; each generator runs once. */
  method ResolveStopFirst(rng: Random) returns (palette: Palette, stop: Color)
    modifies rng
    ensures fresh(palette) && palette.Valid()
    ensures palette.gradientStart.value == Some(RandomRgb(rng.stream, old(rng.pos)))
    ensures palette.gradientStop.value == Some(stop)
    ensures stop == Lerp(RandomRgb(rng.stream, old(rng.pos)), RandomRgb(rng.stream, old(rng.pos) + 3),
                         Scale(rng.stream(old(rng.pos) + 6), 0.25, 0.99))
    ensures palette.gradientStart.invocations == 1 && palette.gradientStop.invocations == 1
    ensures rng.pos == old(rng.pos) + 7
  {
    palette := new Palette();
    stop := palette.gradientStop.GetValue(rng);
  }

  /** The palette object: `gradientStart` from a random colour, and
      `gradientStop` from the start colour blended towards a random one. */
  class Palette {
    const gradientStart: ColorConfig
    const gradientStop: ColorConfig

    ghost predicate Valid()
      reads gradientStart, gradientStop
    {
      gradientStart.generator == FreshRandom &&
      gradientStop.generator == DerivedFrom(gradientStart) &&
      gradientStart.Valid() && gradientStop.Valid()
    }

    constructor ()
      ensures Valid() && fresh(gradientStart) && fresh(gradientStop)
      ensures gradientStart.value == None && gradientStop.value == None
    {
      var start := new ColorConfig(FreshRandom);
      gradientStart := start;
      gradientStop := new ColorConfig(DerivedFrom(start));
    }

    /** `getRandomPaletteColor`: resolves start, then stop, then blends
        between them by `random(0.2, 0.8)`. */
    method RandomPaletteColor(rng: Random) returns (c: Color)
      requires Valid()
      modifies rng, gradientStart, gradientStop
      ensures Valid() && gradientStart.value.Some? && gradientStop.value.Some?
      ensures old(gradientStart.value).Some? ==> gradientStart.value == old(gradientStart.value)
      ensures old(gradientStop.value).Some? ==> gradientStop.value == old(gradientStop.value)
      ensures rng.pos > old(rng.pos)
      ensures c == Lerp(gradientStart.value.value, gradientStop.value.value, Scale(rng.stream(rng.pos - 1), 0.2, 0.8))
      ensures old(gradientStart.value).Some? && old(gradientStop.value).Some? ==> rng.pos == old(rng.pos) + 1
    {
      var from := gradientStart.GetValue(rng);
      var to := gradientStop.GetValue(rng);
      var amount := rng.Next(0.2, 0.8);
      c := Lerp(from, to, amount);
    }
  }
}
