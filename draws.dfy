/** The p5 random-number source, made explicit.

    Every call of p5's `random(lo, hi)` consumes one uniform draw `u` in [0, 1)
    and returns `lo + u * (hi - lo)`.  The draws come from an infinite stream
    supplied from outside, and a cursor says how many have been consumed. */
module Draws {

  /** One uniform draw, before scaling. */
  type Unit = u: real | 0.0 <= u < 1.0

  /** `random(lo, hi)` when the underlying draw is `u`. */
  function Scale(u: Unit, lo: real, hi: real): (r: real)
    ensures lo < hi ==> lo <= r < hi
  {
    lo + Stretch(u, hi - lo)
  }

  /** The draw `u` stretched over an interval of length `d`. */
  function Stretch(u: Unit, d: real): (r: real)
    ensures d > 0.0 ==> 0.0 <= r < d
  {
    StretchBelow(u, d);
    u * d
  }

  /** A draw below one stretches to a point below the end of the interval. */
  lemma StretchBelow(u: Unit, d: real)
    ensures d > 0.0 ==> 0.0 <= u * d < d
  {
    if d > 0.0 {
      ProductPositive(1.0 - u, d);
      assert (1.0 - u) * d == d - u * d;
    }
  }

  // Proved without a body; called so that the product is stated over plain
  // arguments, which keeps the nonlinear step in `StretchBelow` cheap.
  lemma ProductPositive(a: real, b: real)
    requires a > 0.0 && b > 0.0
    ensures a * b > 0.0
  {
  }

  /** The global generator behind `random`: a fixed stream of draws and a cursor into it. */
  class Random {
    const stream: nat -> Unit
    var pos: nat

    constructor (s: nat -> Unit)
      ensures stream == s && pos == 0
    {
      stream := s;
      pos := 0;
    }

    /** `random(lo, hi)`: scales the next draw onto [lo, hi) and consumes it. */
    method Next(lo: real, hi: real) returns (x: real)
      modifies this
      ensures pos == old(pos) + 1
      ensures x == Scale(stream(old(pos)), lo, hi)
    {
      x := Scale(stream(pos), lo, hi);
      pos := pos + 1;
    }
  }
}
