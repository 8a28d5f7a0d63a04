/** Python's `int(x)` applied to a quotient truncates toward zero, while
    Dafny's `/` is Euclidean. */
module Numeric {

  /** The quotient n / d rounded toward zero, as `int(n / d)` computes it.
      Its bounds are stated where it is used with a fixed divisor. */
  function TruncDiv(n: int, d: int): int
    requires d > 0
  {
    if n >= 0 then n / d else -((-n) / d)
  }

  /** Truncation is odd: it rounds a negative quotient up, not down. */
  lemma TruncDivNegate(n: int, d: int)
    requires d > 0
    ensures TruncDiv(-n, d) == -TruncDiv(n, d)
  {
  }
}
