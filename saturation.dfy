/**
 * Saturation: the Hill-type curve x^p / (x^p + penetration^p). With a = x^p >= 0
 * and b = penetration^p > 0 it is the rational function a / (a + b).
 */
module Saturation {
  import opened Powers
  import opened RealArith

  /** The Hill ratio a / (a + b) of the powered spend a and the powered penetration b. */
  function HillRatio(a: real, b: real): (f: real)
    requires a >= 0.0 && b > 0.0
    ensures 0.0 <= f < 1.0
    ensures f == 0.0 <==> a == 0.0
    ensures f * (a + b) == a
  {
    a / (a + b)
  }

  /** The ratio is one half exactly when the two powers agree, below it exactly when a < b. */
  lemma HillRatioHalf(a: real, b: real)
    requires a >= 0.0 && b > 0.0
    ensures HillRatio(a, b) == 0.5 <==> a == b
    ensures HillRatio(a, b) < 0.5 <==> a < b
  {
    var f, s := HillRatio(a, b), a + b;
    ScaleByPositive(s, f, 0.5);
    ScaleByPositive(s, 0.5, f);
  }

  /** The ratio grows strictly with the powered spend. */
  lemma HillRatioIncreasing(a1: real, a2: real, b: real)
    requires 0.0 <= a1 < a2 && b > 0.0
    ensures HillRatio(a1, b) < HillRatio(a2, b)
  {
    // The complements g = 1 - f satisfy g * (a + b) == b, so g shrinks as a grows.
    var g1, g2 := 1.0 - HillRatio(a1, b), 1.0 - HillRatio(a2, b);
    assert g1 * (a1 + b) == b && g2 * (a2 + b) == b;
    assert g1 > 0.0;
    ScaleByPositive(g1, a1 + b, a2 + b);
    ScaleByPositive(a2 + b, g2, g1);
    assert b < g1 * (a2 + b);
    assert g2 * (a2 + b) < g1 * (a2 + b);
    assert g2 < g1;
  }

  /**
   * `saturation_function`: the fraction of the maximum response that adstocked
   * spend x reaches, for Hill power `pow` (x ↦ x^p).
   */
  function Saturate(x: real, penetration: real, pow: real -> real): (f: real)
    requires x >= 0.0 && penetration > 0.0 && ValidPower(pow)
    ensures 0.0 <= f < 1.0
    ensures f == 0.0 <==> x == 0.0
    ensures x == penetration ==> f == 0.5
  {
    ValidPowerPositive(pow, penetration);
    ValidPowerSign(pow, x);
    HillRatioHalf(pow(x), pow(penetration));
    HillRatio(pow(x), pow(penetration))
  }

  /** Penetration is the half-saturation point: the curve is below one half before it and above after it. */
  lemma SaturateHalfAtPenetration(x: real, penetration: real, pow: real -> real)
    requires x >= 0.0 && penetration > 0.0 && ValidPower(pow)
    ensures Saturate(x, penetration, pow) == 0.5 <==> x == penetration
    ensures Saturate(x, penetration, pow) < 0.5 <==> x < penetration
  {
    ValidPowerPositive(pow, penetration);
    ValidPowerSign(pow, x);
    HillRatioHalf(pow(x), pow(penetration));
    if x < penetration {
      assert pow(x) < pow(penetration);
    } else if x > penetration {
      assert pow(penetration) < pow(x);
    }
  }

  /** Saturation is strictly increasing in adstocked spend, so ordering is preserved both ways. */
  lemma SaturateMonotone(x1: real, x2: real, penetration: real, pow: real -> real)
    requires 0.0 <= x1 && 0.0 <= x2 && penetration > 0.0 && ValidPower(pow)
    ensures Saturate(x1, penetration, pow) < Saturate(x2, penetration, pow) <==> x1 < x2
    ensures Saturate(x1, penetration, pow) <= Saturate(x2, penetration, pow) <==> x1 <= x2
  {
    ValidPowerPositive(pow, penetration);
    ValidPowerSign(pow, x1);
    ValidPowerSign(pow, x2);
    if x1 < x2 {
      assert pow(x1) < pow(x2);
      HillRatioIncreasing(pow(x1), pow(x2), pow(penetration));
    } else if x2 < x1 {
      assert pow(x2) < pow(x1);
      HillRatioIncreasing(pow(x2), pow(x1), pow(penetration));
    }
  }
}
