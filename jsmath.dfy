/** The one piece of JavaScript number arithmetic the model needs, stated over reals. */
module JsMath {

  /** `Math.round`: the nearest integer, halves rounded towards positive infinity. */
  function Round(x: real): (n: int)
    ensures n as real - 0.5 <= x < n as real + 0.5
  {
    (x + 0.5).Floor
  }

  /** Rounding an integer gives it back. */
  lemma RoundOfInteger(k: int)
    ensures Round(k as real) == k
  {
  }
}
