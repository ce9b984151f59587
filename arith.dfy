/**
 * Sign and order facts about products and quotients of reals. Each is proved on its
 * own so that the lemmas about the model only ever need linear reasoning.
 */
module RealArith {

  /** The sign of a product from the signs of its factors. */
  lemma MulSign(a: real, b: real)
    ensures a > 0.0 && b > 0.0 ==> a * b > 0.0
    ensures a >= 0.0 && b >= 0.0 ==> a * b >= 0.0
    ensures a > 0.0 && b < 0.0 ==> a * b < 0.0
  {
  }

  /** A quotient is determined by the product it inverts. */
  lemma DivExact(n: real, d: real, q: real)
    requires d != 0.0
    requires n == q * d
    ensures n / d == q
  {
  }

  /** Dividing and multiplying back by the same non-zero value. */
  lemma DivMul(n: real, d: real)
    requires d != 0.0
    ensures (n / d) * d == n
  {
  }

  /** Multiplying by a positive factor keeps order, strict and non-strict, both ways. */
  lemma ScaleByPositive(k: real, x: real, y: real)
    requires k > 0.0
    ensures x < y <==> k * x < k * y
    ensures x <= y <==> k * x <= k * y
    ensures x < y <==> x * k < y * k
    ensures x <= y <==> x * k <= y * k
  {
    MulSign(k, y - x);
    MulSign(k, x - y);
  }

  /** A positive factor times a value below one stays below the factor. */
  lemma ProductBelow(k: real, f: real, r: real)
    requires k > 0.0 && f < 1.0 && r == k * f
    ensures r < k
  {
    MulSign(k, 1.0 - f);
  }

  /** A positive factor times a non-negative value is non-negative, and zero only for zero. */
  lemma ProductSign(k: real, f: real, r: real)
    requires k > 0.0 && f >= 0.0 && r == k * f
    ensures r >= 0.0 && (r == 0.0 <==> f == 0.0)
  {
    MulSign(k, f);
  }
}
