/**
 * The response model: adstock, then saturation, then scaling by effectiveness.
 */
module Response {
  import opened Powers
  import opened Adstock
  import opened Saturation
  import opened RealArith

  /** Every spend value is non-negative, as a spend series is. */
  predicate NonNegative(s: seq<real>) {
    forall i :: 0 <= i < |s| ==> s[i] >= 0.0
  }

  /** A non-negative spend series has a non-negative adstocked series. */
  lemma AdstockedNonNegative(spend: seq<real>, decay: real)
    requires NonNegative(spend) && decay >= 0.0
    ensures NonNegative(Adstocked(spend, decay))
  {
    forall i | 0 <= i < |spend|
      ensures Adstocked(spend, decay)[i] >= 0.0
    {
      AdstockedDominatesSpend(spend, decay, i);
    }
  }

  /**
   * Lines 23-24 of `compute_response_series`: saturation applied to every adstocked
   * value, scaled by effectiveness. Response lies in [0, effectiveness), is zero
   * exactly where adstock is zero, and orders the samples exactly as their
   * adstocked spend does.
   */
  function ScaledResponse(adstocked: seq<real>, penetration: real, effectiveness: real,
                          pow: real -> real): (response: seq<real>)
    requires NonNegative(adstocked)
    requires penetration > 0.0 && effectiveness > 0.0 && ValidPower(pow)
    ensures |response| == |adstocked|
    ensures forall i :: 0 <= i < |response| ==>
              response[i] == effectiveness * Saturate(adstocked[i], penetration, pow)
    ensures forall i :: 0 <= i < |response| ==> 0.0 <= response[i] < effectiveness
    ensures forall i :: 0 <= i < |response| ==> (response[i] == 0.0 <==> adstocked[i] == 0.0)
    ensures forall i, j :: 0 <= i < |response| && 0 <= j < |response| ==>
              (response[i] <= response[j] <==> adstocked[i] <= adstocked[j])
  {
    var response := seq(|adstocked|, i requires 0 <= i < |adstocked| =>
                                       effectiveness * Saturate(adstocked[i], penetration, pow));
    ScaledResponseFacts(adstocked, response, penetration, effectiveness, pow);
    response
  }

  lemma ScaledResponseFacts(adstocked: seq<real>, response: seq<real>, penetration: real,
                            effectiveness: real, pow: real -> real)
    requires NonNegative(adstocked) && |response| == |adstocked|
    requires penetration > 0.0 && effectiveness > 0.0 && ValidPower(pow)
    requires forall i :: 0 <= i < |response| ==>
               response[i] == effectiveness * Saturate(adstocked[i], penetration, pow)
    ensures forall i :: 0 <= i < |response| ==> 0.0 <= response[i] < effectiveness
    ensures forall i :: 0 <= i < |response| ==> (response[i] == 0.0 <==> adstocked[i] == 0.0)
    ensures forall i, j :: 0 <= i < |response| && 0 <= j < |response| ==>
              (response[i] <= response[j] <==> adstocked[i] <= adstocked[j])
  {
    forall i | 0 <= i < |response|
      ensures 0.0 <= response[i] < effectiveness
      ensures response[i] == 0.0 <==> adstocked[i] == 0.0
    {
      var f := Saturate(adstocked[i], penetration, pow);
      ScaledFraction(effectiveness, f, response[i]);
    }
    forall i, j | 0 <= i < |response| && 0 <= j < |response|
      ensures response[i] <= response[j] <==> adstocked[i] <= adstocked[j]
    {
      var fi, fj := Saturate(adstocked[i], penetration, pow), Saturate(adstocked[j], penetration, pow);
      SaturateMonotone(adstocked[i], adstocked[j], penetration, pow);
      ScaledOrder(effectiveness, fi, fj, response[i], response[j]);
    }
  }

  /**
   * `compute_response_series`: adstock the spend with the loop, then saturate and
   * scale; returns the response together with the adstocked series it came from.
   */
  method ComputeResponseSeries(spend: seq<real>, decay: real, penetration: real,
                               effectiveness: real, pow: real -> real)
    returns (response: seq<real>, adstocked: seq<real>)
    requires NonNegative(spend) && ValidDecay(decay)
    requires penetration > 0.0 && effectiveness > 0.0 && ValidPower(pow)
    ensures adstocked == Adstocked(spend, decay) && NonNegative(adstocked)
    ensures |response| == |adstocked| == |spend|
    ensures response == ScaledResponse(adstocked, penetration, effectiveness, pow)
  {
    adstocked := ComputeAdstockSeries(spend, decay);
    AdstockedNonNegative(spend, decay);
    response := ScaledResponse(adstocked, penetration, effectiveness, pow);
  }

  /** Scaling by a positive effectiveness keeps the order of two fractions. */
  lemma ScaledOrder(effectiveness: real, f1: real, f2: real, r1: real, r2: real)
    requires effectiveness > 0.0 && r1 == effectiveness * f1 && r2 == effectiveness * f2
    ensures r1 <= r2 <==> f1 <= f2
  {
    ScaleByPositive(effectiveness, f1, f2);
  }

  /** A fraction in [0, 1) of the effectiveness lies in [0, effectiveness) and is zero only for a zero fraction. */
  lemma ScaledFraction(effectiveness: real, f: real, r: real)
    requires effectiveness > 0.0 && 0.0 <= f < 1.0 && r == effectiveness * f
    ensures 0.0 <= r < effectiveness
    ensures r == 0.0 <==> f == 0.0
  {
    ProductBelow(effectiveness, f, r);
    ProductSign(effectiveness, f, r);
  }

  /**
   * Point A, the inflection: at adstocked spend equal to the penetration the
   * response is exactly half the effectiveness.
   */
  function PointA(penetration: real, effectiveness: real, pow: real -> real): (p: (real, real))
    requires penetration > 0.0 && ValidPower(pow)
    ensures p == (penetration, effectiveness / 2.0)
  {
    (penetration, effectiveness * Saturate(penetration, penetration, pow))
  }
}
