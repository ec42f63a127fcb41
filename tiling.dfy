/** The tiling driver `tileShape`: it walks a cursor across the surface in
    steps of the tile size, row by row, and calls the pattern's generator at
    every cursor position.

    Positions are exact reals: the cursor after `k` steps is `k * tileSize`,
    with none of the rounding that floating-point addition would add.  A
    generator call is recorded as a `Call` in a trace. */
module Tiling {

  /** The wallpaper patterns of the sketch. */
  datatype Pattern = SquareWorms | Stucco

  datatype Point = Point(x: real, y: real)

  /** One call `shape.generator(posX, posY)`. */
  datatype Call = Call(shape: Pattern, at: Point)

  /** The least integer that is not below `x`. */
  function Ceil(x: real): (r: int)
    ensures r as real - 1.0 < x <= r as real
  {
    if x.Floor as real == x then x.Floor else x.Floor + 1
  }

  /** How many of the cursor values `0, step, 2 * step, ...` lie below `limit`,
      i.e. how often a loop `while (pos < limit) { ...; pos += step }` runs. */
  function Steps(limit: real, step: real): nat
    requires step > 0.0
  {
    if limit <= 0.0 then 0 else Ceil(limit / step)
  }

  /** The `k`-th cursor value is below `limit` exactly when `k < Steps(limit, step)`.
      For a positive limit, `Steps` is `ceil(limit / step)`. */
  lemma StepsIndex(limit: real, step: real, k: nat)
    requires step > 0.0
    ensures k as real * step < limit <==> k < Steps(limit, step)
    ensures limit > 0.0 ==> Steps(limit, step) == Ceil(limit / step)
  {
    if limit > 0.0 {
      var q := limit / step;
      assert q * step == limit;
      var c := Ceil(q);
      if k as real * step < limit {
        if k as real >= q {
          MultiplyMonotone(q, k as real, step);
        }
        assert (k as real) < q;
      } else {
        if k as real < q {
          MultiplyStrict(k as real, q, step);
        }
        assert (k as real) >= q;
      }
    } else {
      MultiplyMonotone(0.0, k as real, step);
    }
  }

  // Monotonicity of multiplication by a positive factor, proved without a
  // body; the callers use it to keep nonlinear terms over plain arguments.
  lemma MultiplyMonotone(a: real, b: real, c: real)
    requires a <= b && c > 0.0
    ensures a * c <= b * c
  {
  }

  lemma MultiplyStrict(a: real, b: real, c: real)
    requires a < b && c > 0.0
    ensures a * c < b * c
  {
  }

  /** The first `n` calls of row `j`: cursor `x` at `0, step, ..., (n - 1) * step`. */
  function Row(shape: Pattern, j: nat, n: nat, step: real): seq<Call>
  {
    if n == 0 then [] else Row(shape, j, n - 1, step) + [Call(shape, Point((n - 1) as real * step, j as real * step))]
  }

  /** Rows `0 .. rows - 1`, each of `cols` calls, one after another. */
  function Grid(shape: Pattern, rows: nat, cols: nat, step: real): seq<Call>
  {
    if rows == 0 then [] else Grid(shape, rows - 1, cols, step) + Row(shape, rows - 1, cols, step)
  }

  /** The calls `tileShape` makes on a `width` by `height` surface. */
  function TileCalls(shape: Pattern, width: real, height: real, step: real): seq<Call>
    requires step > 0.0
  {
    Grid(shape, Steps(height, step), Steps(width, step), step)
  }

  /** `tileShape`: the outer loop walks `posY` down the surface, the inner
      loop walks `posX` across it, and `posX` goes back to 0 after each row. */
  method TileShape(shape: Pattern, tileSize: real, width: real, height: real) returns (calls: seq<Call>)
    requires tileSize > 0.0
    ensures calls == TileCalls(shape, width, height, tileSize)
  {
    ghost var rows := Steps(height, tileSize);
    ghost var cols := Steps(width, tileSize);
    var posX := 0.0;
    var posY := 0.0;
    calls := [];
    ghost var j: nat := 0;
    while posY < height
      invariant j <= rows
      invariant posY == j as real * tileSize && posX == 0.0
      invariant calls == Grid(shape, j, cols, tileSize)
      decreases rows - j
    {
      StepsIndex(height, tileSize, j);
      ghost var i: nat := 0;
      while posX < width
        invariant i <= cols
        invariant posX == i as real * tileSize
        invariant calls == Grid(shape, j, cols, tileSize) + Row(shape, j, i, tileSize)
        decreases cols - i
      {
        StepsIndex(width, tileSize, i);
        assert Row(shape, j, i + 1, tileSize) == Row(shape, j, i, tileSize) + [Call(shape, Point(posX, posY))];
        calls := calls + [Call(shape, Point(posX, posY))];
        posX := posX + tileSize;
        i := i + 1;
      }
      StepsIndex(width, tileSize, i);
      posY := posY + tileSize;
      posX := 0.0;
      j := j + 1;
    }
    StepsIndex(height, tileSize, j);
  }

  lemma {:induction false} RowLength(shape: Pattern, j: nat, n: nat, step: real)
    ensures |Row(shape, j, n, step)| == n
  {
    if n > 0 {
      RowLength(shape, j, n - 1, step);
    }
  }

  /** Call `i` of row `j` is made at `(i * step, j * step)`. */
  lemma {:induction false} RowAt(shape: Pattern, j: nat, n: nat, step: real, i: nat)
    requires i < n
    ensures |Row(shape, j, n, step)| == n
    ensures Row(shape, j, n, step)[i] == Call(shape, Point(i as real * step, j as real * step))
  {
    RowLength(shape, j, n, step);
    if i < n - 1 {
      RowAt(shape, j, n - 1, step, i);
    } else {
      RowLength(shape, j, n - 1, step);
    }
  }

  /** A grid of `rows` rows of `cols` calls makes `rows * cols` calls. */
  lemma {:induction false} GridLength(shape: Pattern, rows: nat, cols: nat, step: real)
    ensures |Grid(shape, rows, cols, step)| == rows * cols
  {
    if rows > 0 {
      GridLength(shape, rows - 1, cols, step);
      RowLength(shape, rows - 1, cols, step);
      OneMoreRow(rows, cols);
    }
  }

  /** Row-major layout: call number `j * cols + i` is made at `(i * step, j * step)`. */
  lemma {:induction false} GridAt(shape: Pattern, rows: nat, cols: nat, step: real, j: nat, i: nat)
    requires j < rows && i < cols
    ensures |Grid(shape, rows, cols, step)| == rows * cols
    ensures j * cols + i < rows * cols
    ensures Grid(shape, rows, cols, step)[j * cols + i] == Call(shape, Point(i as real * step, j as real * step))
  {
    GridLength(shape, rows, cols, step);
    GridLength(shape, rows - 1, cols, step);
    var k := RowMajorIndex(rows, cols, j, i);
    if j < rows - 1 {
      GridAt(shape, rows - 1, cols, step, j, i);
      GridKeepsPrefix(shape, rows, cols, step, k);
    } else {
      RowAt(shape, rows - 1, cols, step, i);
      GridEndsWithRow(shape, rows, cols, step, i);
    }
  }

  // A call-site hint, proved without a body: extending a grid by a row keeps
  // its earlier calls.  Naming the step keeps `GridAt` and `GridOrdered` cheap.
  lemma GridKeepsPrefix(shape: Pattern, rows: nat, cols: nat, step: real, k: nat)
    requires rows > 0 && k < |Grid(shape, rows - 1, cols, step)|
    ensures k < |Grid(shape, rows, cols, step)|
    ensures Grid(shape, rows, cols, step)[k] == Grid(shape, rows - 1, cols, step)[k]
  {
  }

  lemma GridEndsWithRow(shape: Pattern, rows: nat, cols: nat, step: real, i: nat)
    requires rows > 0 && i < cols
    ensures |Grid(shape, rows - 1, cols, step)| + i < |Grid(shape, rows, cols, step)|
    ensures Grid(shape, rows, cols, step)[|Grid(shape, rows - 1, cols, step)| + i] == Row(shape, rows - 1, cols, step)[i]
  {
    RowLength(shape, rows - 1, cols, step);
  }

  /** Index arithmetic of a row-major grid: `k` is the index of column `i` of row `j`. */
  lemma RowMajorIndex(rows: nat, cols: nat, j: nat, i: nat) returns (k: nat)
    requires j < rows && i < cols
    ensures k == j * cols + i && k < rows * cols
    ensures j < rows - 1 ==> k < (rows - 1) * cols
    ensures j == rows - 1 ==> k == (rows - 1) * cols + i
  {
    k := j * cols + i;
    MultiplyIntMonotone(j + 1, rows, cols);
    assert (j + 1) * cols == j * cols + cols;
    if j < rows - 1 {
      MultiplyIntMonotone(j + 1, rows - 1, cols);
    }
  }

  /** One more row adds `cols` to the count.  A call-site hint, proved without
      a body, that keeps the nonlinear step out of the callers. */
  lemma OneMoreRow(rows: nat, cols: nat)
    requires rows > 0
    ensures rows * cols == (rows - 1) * cols + cols
  {
  }

  /** `p` comes before `q` in reading order: an earlier row, or the same row further left. */
  predicate Precedes(p: Point, q: Point)
  {
    p.y < q.y || (p.y == q.y && p.x < q.x)
  }

  /** A row lies on one horizontal line, left to right. */
  lemma {:induction false} RowOrdered(shape: Pattern, j: nat, n: nat, step: real)
    requires step > 0.0
    ensures |Row(shape, j, n, step)| == n
    ensures forall a :: 0 <= a < n ==> Row(shape, j, n, step)[a].at.y == j as real * step
    ensures forall a :: 0 <= a < n ==> Row(shape, j, n, step)[a].at.x < n as real * step
    ensures forall a, b :: 0 <= a < b < n ==>
      Precedes(Row(shape, j, n, step)[a].at, Row(shape, j, n, step)[b].at)
  {
    if n > 0 {
      var init := Row(shape, j, n - 1, step);
      var r := Row(shape, j, n, step);
      RowOrdered(shape, j, n - 1, step);
      MultiplyStrict((n - 1) as real, n as real, step);
      assert r == init + [r[n - 1]];
      assert r[n - 1].at == Point((n - 1) as real * step, j as real * step);
      forall a | 0 <= a < n - 1
        ensures r[a] == init[a]
      {
      }
    }
  }

  /** Every call of a grid lies above row `rows`, and the calls come in reading order. */
  lemma {:induction false} GridOrdered(shape: Pattern, rows: nat, cols: nat, step: real)
    requires step > 0.0
    ensures forall a :: 0 <= a < |Grid(shape, rows, cols, step)| ==>
      Grid(shape, rows, cols, step)[a].at.y < rows as real * step
    ensures forall a, b :: 0 <= a < b < |Grid(shape, rows, cols, step)| ==>
      Precedes(Grid(shape, rows, cols, step)[a].at, Grid(shape, rows, cols, step)[b].at)
  {
    if rows > 0 {
      var prefix := Grid(shape, rows - 1, cols, step);
      var last := Row(shape, rows - 1, cols, step);
      var g := Grid(shape, rows, cols, step);
      assert g == prefix + last;
      GridOrdered(shape, rows - 1, cols, step);
      RowOrdered(shape, rows - 1, cols, step);
      MultiplyStrict((rows - 1) as real, rows as real, step);
      forall a | 0 <= a < |g|
        ensures g[a].at.y < rows as real * step
      {
        if a < |prefix| {
          assert g[a] == prefix[a];
        } else {
          assert g[a] == last[a - |prefix|];
        }
      }
      forall a, b | 0 <= a < b < |g|
        ensures Precedes(g[a].at, g[b].at)
      {
        if b < |prefix| {
          assert g[a] == prefix[a] && g[b] == prefix[b];
        } else if a < |prefix| {
          assert g[a] == prefix[a] && g[b] == last[b - |prefix|];
        } else {
          assert g[a] == last[a - |prefix|] && g[b] == last[b - |prefix|];
        }
      }
    }
  }

  /** `tileShape` makes exactly `ceil(width / tileSize) * ceil(height / tileSize)`
      calls on a surface of positive size, and none on an empty one. */
  lemma TileCount(shape: Pattern, width: real, height: real, step: real)
    requires step > 0.0
    ensures |TileCalls(shape, width, height, step)| == Steps(width, step) * Steps(height, step)
    ensures width > 0.0 && height > 0.0 ==>
      |TileCalls(shape, width, height, step)| == Ceil(width / step) * Ceil(height / step)
    ensures width <= 0.0 || height <= 0.0 ==> TileCalls(shape, width, height, step) == []
  {
    GridLength(shape, Steps(height, step), Steps(width, step), step);
    StepsIndex(width, step, 0);
    StepsIndex(height, step, 0);
  }

  /** Every call of `tileShape` is made with the given shape at a position on the surface. */
  lemma TileInBounds(shape: Pattern, width: real, height: real, step: real)
    requires step > 0.0
    ensures forall c :: c in TileCalls(shape, width, height, step) ==>
      c.shape == shape && 0.0 <= c.at.x < width && 0.0 <= c.at.y < height
  {
    var rows, cols := Steps(height, step), Steps(width, step);
    var g := TileCalls(shape, width, height, step);
    GridLength(shape, rows, cols, step);
    forall c | c in g
      ensures c.shape == shape && 0.0 <= c.at.x < width && 0.0 <= c.at.y < height
    {
      var k :| 0 <= k < |g| && g[k] == c;
      var j, i := SplitIndex(k, rows, cols);
      GridAt(shape, rows, cols, step, j, i);
      StepsIndex(width, step, i);
      StepsIndex(height, step, j);
      MultiplyMonotone(0.0, i as real, step);
      MultiplyMonotone(0.0, j as real, step);
    }
  }

  /** Index `k` of a `rows` by `cols` grid is column `i` of row `j`. */
  lemma SplitIndex(k: nat, rows: nat, cols: nat) returns (j: nat, i: nat)
    requires k < rows * cols
    ensures j < rows && i < cols && k == j * cols + i
  {
    j, i := k / cols, k % cols;
    if j >= rows {
      MultiplyIntMonotone(rows, j, cols);
    }
  }

  // The same on naturals, as a call-site hint for `TileInBounds`.
  lemma MultiplyIntMonotone(a: nat, b: nat, c: nat)
    requires a <= b
    ensures a * c <= b * c
  {
  }

  /** Every lattice point `(i * step, j * step)` on the surface receives the
      call with index `j * cols + i`. */
  lemma TileCovers(shape: Pattern, width: real, height: real, step: real, i: nat, j: nat)
    requires step > 0.0
    requires i as real * step < width && j as real * step < height
    ensures var cols := Steps(width, step);
      j * cols + i < |TileCalls(shape, width, height, step)| &&
      TileCalls(shape, width, height, step)[j * cols + i] == Call(shape, Point(i as real * step, j as real * step))
  {
    StepsIndex(width, step, i);
    StepsIndex(height, step, j);
    GridAt(shape, Steps(height, step), Steps(width, step), step, j, i);
  }

  /** The calls of `tileShape` come in reading order: `posY` ascending, and
      `posX` ascending within a row. */
  lemma TileRowMajor(shape: Pattern, width: real, height: real, step: real)
    requires step > 0.0
    ensures var g := TileCalls(shape, width, height, step);
      forall a, b :: 0 <= a < b < |g| ==> Precedes(g[a].at, g[b].at)
  {
    GridOrdered(shape, Steps(height, step), Steps(width, step), step);
  }
}
