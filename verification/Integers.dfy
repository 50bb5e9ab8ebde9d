/** The smaller, the larger, and how multiplying and dividing go together. */
module Integers {
  function Min(a: int, b: int): int { if a < b then a else b }

  function Max(a: int, b: int): int { if a < b then b else a }

  lemma MulMono(a: int, b: int, m: nat)
    requires a <= b
    ensures a * m <= b * m
  {
  }

  /** A quotient and a remainder are what they are put together from. */
  lemma DivMod(q: int, r: int, m: nat)
    requires 0 <= r < m
    ensures (q * m + r) / m == q && (q * m + r) % m == r
  {
    var n := q * m + r;
    assert n == n / m * m + n % m;
    if n / m < q { MulMono(n / m + 1, q, m); }
    if n / m > q { MulMono(q + 1, n / m, m); }
  }
}
