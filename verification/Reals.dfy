/** Facts about products of reals that the solver needs spelled out. */
module Reals {

  lemma Positive(x: real, y: real, q: real)
    requires x > 0.0 && y > 0.0 && q == x * y
    ensures q > 0.0
  {}

  lemma Factor(m: real, g: real)
    requires m > 0.0 && m * g >= 0.0
    ensures g >= 0.0
  {
    if g < 0.0 {
      Positive(m, -g, m * (-g));
    }
  }

  lemma Divide(a: real, b: real, n: real)
    requires n > 0.0 && n * a <= n * b
    ensures a <= b
  {
    assert n * (b - a) == n * b - n * a;
    Factor(n, b - a);
  }

  /** Only zero has a square that is not positive. */
  lemma SquareOf(x: real, q: real)
    requires q == x * x
    ensures q >= 0.0 && (q > 0.0 <==> x != 0.0)
  {
    if x > 0.0 {
      Positive(x, x, q);
    } else if x < 0.0 {
      Positive(-x, -x, q);
    }
  }

  /** A ratio against a threshold, without the division. */
  lemma Ratio(part: nat, whole: nat, t: real)
    requires whole > 0
    ensures part as real / whole as real >= t <==> part as real >= t * whole as real
  {
    var x, n := part as real / whole as real, whole as real;
    assert x * n == part as real;
    if x >= t {
      assert (x - t) * n >= 0.0;
    } else {
      Positive(t - x, n, (t - x) * n);
    }
  }
}
