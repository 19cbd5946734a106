/** Floor division facts used wherever amounts are converted. */
module Arith {

  function Pow10(n: nat): (r: nat)
    ensures r >= 1
  {
    if n == 0 then 1 else 10 * Pow10(n - 1)
  }

  lemma MulMono(a: int, b: int, c: int)
    requires a <= b && 0 <= c
    ensures a * c <= b * c
  {
  }

  lemma DivBounds(a: int, d: int)
    requires d > 0
    ensures (a / d) * d <= a < (a / d) * d + d
  {
  }

  /** The quotient is the only integer whose multiple brackets the dividend. */
  lemma DivUnique(a: int, d: int, q: int)
    requires d > 0 && q * d <= a < q * d + d
    ensures a / d == q
  {
    DivBounds(a, d);
    if a / d < q {
      MulMono(a / d + 1, q, d);
    } else if a / d > q {
      MulMono(q + 1, a / d, d);
    }
  }

  lemma DivLe(a: int, b: int, d: int)
    requires d > 0 && a <= b
    ensures a / d <= b / d
  {
    DivBounds(a, d);
    DivBounds(b, d);
    if a / d > b / d {
      MulMono(b / d + 1, a / d, d);
    }
  }

  /** Flooring two parts separately never gives more than flooring their sum. */
  lemma DivSum(a: int, b: int, d: int)
    requires d > 0
    ensures a / d + b / d <= (a + b) / d
  {
    DivBounds(a, d);
    DivBounds(b, d);
    DivBounds(a + b, d);
    if a / d + b / d > (a + b) / d {
      MulMono((a + b) / d + 1, a / d + b / d, d);
    }
  }

  /** A floored quotient reaches an integer bound exactly when the cross product does. */
  lemma FloorGate(a: int, d: int, m: int)
    requires d > 0
    ensures a / d < m <==> a < m * d
  {
    DivBounds(a, d);
    if a / d < m {
      MulMono(a / d + 1, m, d);
    } else {
      MulMono(m, a / d, d);
    }
  }
}
