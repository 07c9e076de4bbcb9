/** Real-number helpers shared by the modules. */
module RealMath {

  /** `Math.ceil`: the least integer not below `x`. */
  function Ceil(x: real): (n: int)
    ensures n as real - 1.0 < x <= n as real
  {
    -((-x).Floor)
  }

  /** Dividing a value between `n * lo` and `n * hi` by a positive `n` lands between `lo` and `hi`. */
  lemma DivWithin(x: real, n: real, lo: real, hi: real)
    requires n > 0.0 && n * lo <= x <= n * hi
    ensures lo <= x / n <= hi
  {
  }

  /** The product of two non-negative reals is non-negative. */
  lemma MulNonneg(a: real, b: real)
    requires a >= 0.0 && b >= 0.0
    ensures a * b >= 0.0
  {
  }

  /** The quotient of two positive reals is positive. */
  lemma DivPositive(x: real, y: real)
    requires x > 0.0 && y > 0.0
    ensures x / y > 0.0
  {
  }
}
