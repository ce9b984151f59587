/**
 * The spending advice drawn from the average elasticity of a campaign.
 */
module Recommendation {
  import opened RealArith

  /** The five tiers of advice, from the most to the least responsive campaign. */
  datatype Advice =
    | IncreaseSpend     // high elasticity
    | MaintainSpend     // good elasticity
    | SpendCautiously   // moderate elasticity
    | ReduceSpend       // low elasticity
    | StopOrReallocate  // saturation zone

  /** The tier's place from the bottom: a higher rank advises spending more. */
  function Rank(a: Advice): nat {
    match a
    case StopOrReallocate => 0
    case ReduceSpend => 1
    case SpendCautiously => 2
    case MaintainSpend => 3
    case IncreaseSpend => 4
  }

  /**
   * The advice for an average elasticity: above 1, above 0.8, above 0.5, above
   * 0.1, or at most 0.1, each bound exclusive.
   */
  function Recommend(average: real): (a: Advice)
    ensures a == IncreaseSpend <==> average > 1.0
    ensures a == MaintainSpend <==> 0.8 < average <= 1.0
    ensures a == SpendCautiously <==> 0.5 < average <= 0.8
    ensures a == ReduceSpend <==> 0.1 < average <= 0.5
    ensures a == StopOrReallocate <==> average <= 0.1
  {
    if average > 1.0 then IncreaseSpend
    else if average > 0.8 then MaintainSpend
    else if average > 0.5 then SpendCautiously
    else if average > 0.1 then ReduceSpend
    else StopOrReallocate
  }

  /** A campaign with a higher average elasticity is never advised to spend less. */
  lemma RecommendMonotone(low: real, high: real)
    requires low <= high
    ensures Rank(Recommend(low)) <= Rank(Recommend(high))
  {
  }

  /** Sum of a series. */
  function Sum(s: seq<real>): real {
    if |s| == 0 then 0.0 else Sum(s[..|s| - 1]) + s[|s| - 1]
  }

  /** The arithmetic mean of a non-empty series, as `Series.mean()` computes it. */
  function Mean(s: seq<real>): (m: real)
    requires |s| > 0
    ensures m * (|s| as real) == Sum(s)
  {
    DivMul(Sum(s), |s| as real);
    Sum(s) / (|s| as real)
  }

  /** A series whose values all lie in [lo, hi] sums to between n·lo and n·hi. */
  lemma {:induction false} SumBounds(s: seq<real>, lo: real, hi: real)
    requires forall i :: 0 <= i < |s| ==> lo <= s[i] <= hi
    ensures (|s| as real) * lo <= Sum(s) <= (|s| as real) * hi
  {
    if |s| > 0 {
      SumBounds(s[..|s| - 1], lo, hi);
      assert ((|s| - 1) as real) * lo + lo == (|s| as real) * lo;
      assert ((|s| - 1) as real) * hi + hi == (|s| as real) * hi;
    }
  }

  /** The mean of values that all lie in [lo, hi] lies in [lo, hi]. */
  lemma MeanBounds(s: seq<real>, lo: real, hi: real)
    requires |s| > 0 && forall i :: 0 <= i < |s| ==> lo <= s[i] <= hi
    ensures lo <= Mean(s) <= hi
  {
    var n := |s| as real;
    SumBounds(s, lo, hi);
    ScaleByPositive(n, lo, Mean(s));
    ScaleByPositive(n, Mean(s), hi);
  }

  /** A series of unit elasticities averages to one: the advice is to maintain spend. */
  lemma UnitElasticityMaintains(s: seq<real>)
    requires |s| > 0 && forall i :: 0 <= i < |s| ==> s[i] == 1.0
    ensures Mean(s) == 1.0
    ensures Recommend(Mean(s)) == MaintainSpend
  {
    MeanBounds(s, 1.0, 1.0);
  }
}
