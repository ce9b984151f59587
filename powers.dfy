/**
 * Real powers. The source raises reals to real exponents (`0.5 ** (1 / half_life)`
 * and `x ** p`), which Dafny cannot express. Natural exponents are defined here;
 * the Hill power `x ↦ x^p` is represented by any function with the properties the
 * saturation curve relies on (ValidPower).
 */
module Powers {
  import opened RealArith

  /** b raised to a natural exponent. */
  function Pow(b: real, n: nat): (r: real)
    ensures b > 0.0 ==> r > 0.0
  {
    if n == 0 then 1.0
    else
      var p := Pow(b, n - 1);
      MulSign(b, p);
      b * p
  }

  /**
   * The facts about `x ↦ x^p` (with p > 0) that the model uses: it is zero at zero
   * and strictly increasing on the non-negative reals.
   */
  ghost predicate ValidPower(pow: real -> real) {
    pow(0.0) == 0.0 &&
    forall x: real, y: real :: 0.0 <= x < y ==> pow(x) < pow(y)
  }

  /** A valid power is positive on positive arguments. */
  lemma ValidPowerPositive(pow: real -> real, x: real)
    requires ValidPower(pow) && x > 0.0
    ensures pow(x) > 0.0
  {
    assert pow(0.0) < pow(x);
  }

  /** On the non-negative reals a valid power is non-negative and vanishes only at zero. */
  lemma ValidPowerSign(pow: real -> real, x: real)
    requires ValidPower(pow) && x >= 0.0
    ensures pow(x) >= 0.0
    ensures pow(x) == 0.0 <==> x == 0.0
  {
    if x > 0.0 { ValidPowerPositive(pow, x); }
  }

  /** For 0 <= x < y, every positive natural power keeps the order. */
  lemma {:induction false} PowStrictlyIncreasing(x: real, y: real, n: nat)
    requires 0.0 <= x < y && n >= 1
    ensures 0.0 <= Pow(x, n) < Pow(y, n)
  {
    if n == 1 {
      assert Pow(x, 0) == 1.0 && Pow(y, 0) == 1.0;
    } else {
      PowStrictlyIncreasing(x, y, n - 1);
      var px, py := Pow(x, n - 1), Pow(y, n - 1);
      assert Pow(x, n) == x * px && Pow(y, n) == y * py;
      MulSign(x, px);
      MulSign(x, py - px);
      MulSign(y - x, py);
    }
  }

  /** Every Hill exponent p that is a positive whole number gives a valid power. */
  lemma NaturalExponentIsValidPower(n: nat)
    requires n >= 1
    ensures ValidPower(x => Pow(x, n))
  {
    ZeroPow(n);
    forall x: real, y: real | 0.0 <= x < y
      ensures Pow(x, n) < Pow(y, n)
    {
      PowStrictlyIncreasing(x, y, n);
    }
  }

  /** The Hill power p = 1, x ↦ x, meets the facts the saturation curve relies on. */
  lemma IdentityIsValidPower()
    ensures ValidPower(x => x)
  {
  }

  lemma {:induction false} ZeroPow(n: nat)
    requires n >= 1
    ensures Pow(0.0, n) == 0.0
  {
    if n > 1 { ZeroPow(n - 1); }
  }

  /** A base of at least one keeps every power at least one. */
  lemma {:induction false} PowAtLeastOne(b: real, n: nat)
    requires b >= 1.0
    ensures Pow(b, n) >= 1.0
  {
    if n > 0 {
      PowAtLeastOne(b, n - 1);
      MulSign(b - 1.0, Pow(b, n - 1));
    }
  }
}
