/**
 * Adstock: the carry-over of past media spend. Each step keeps a fraction `decay`
 * of the previous adstocked value and adds the step's own spend. The source derives
 * `decay = 0.5 ^ (1 / half_life)`; here `decay` is a parameter, in (0, 1) for every
 * positive half-life.
 */
module Adstock {
  import opened RealArith
  import opened Powers

  /** The per-step retention that some positive half-life yields. */
  predicate ValidDecay(decay: real) {
    0.0 < decay < 1.0
  }

  /** One step of the scan: the step's spend plus the retained share of the carry-over. */
  function Step(spend: real, decay: real, carryover: real): real {
    spend + decay * carryover
  }

  /** The running carry-over after a prefix of the scan: its last value, or 0 at the start. */
  function Carryover(adstocked: seq<real>): real {
    if adstocked == [] then 0.0 else adstocked[|adstocked| - 1]
  }

  /** The adstocked series, as a left-to-right scan over the spend series. */
  function Adstocked(spend: seq<real>, decay: real): (a: seq<real>)
    ensures |a| == |spend|
    decreases |spend|
  {
    if spend == [] then []
    else
      var prev := Adstocked(spend[..|spend| - 1], decay);
      prev + [Step(spend[|spend| - 1], decay, Carryover(prev))]
  }

  /** The recurrence, point by point: the first value is the first spend; each later one adds decayed carry-over. */
  lemma {:induction false} AdstockedAt(spend: seq<real>, decay: real, i: nat)
    requires i < |spend|
    ensures Adstocked(spend, decay)[i] ==
            spend[i] + decay * (if i == 0 then 0.0 else Adstocked(spend, decay)[i - 1])
  {
    var n := |spend|;
    var front := spend[..n - 1];
    var prev := Adstocked(front, decay);
    var a := Adstocked(spend, decay);
    assert spend != [];
    assert a == prev + [Step(spend[n - 1], decay, Carryover(prev))];
    if i < n - 1 {
      AdstockedAt(front, decay, i);
      assert front[i] == spend[i];
      assert a[i] == prev[i];
      if i > 0 { assert a[i - 1] == prev[i - 1]; }
    } else if i > 0 {
      assert a[i - 1] == prev[i - 1] == Carryover(prev);
    }
  }

  /** The first adstocked value is the first spend. */
  lemma AdstockedFirst(spend: seq<real>, decay: real)
    requires |spend| > 0
    ensures Adstocked(spend, decay)[0] == spend[0]
  {
    AdstockedAt(spend, decay, 0);
  }

  /** What a later step carries over is the decayed previous value. */
  lemma CarriedPart(spend: seq<real>, decay: real, i: nat)
    requires 0 < i < |spend|
    ensures Adstocked(spend, decay)[i] - spend[i] == decay * Adstocked(spend, decay)[i - 1]
  {
    AdstockedAt(spend, decay, i);
  }

  /** The recurrence over the whole series, as `compute_adstock_series` promises it. */
  lemma AdstockedRecurrence(spend: seq<real>, decay: real)
    ensures |spend| > 0 ==> Adstocked(spend, decay)[0] == spend[0]
    ensures forall i :: 0 < i < |spend| ==>
              Adstocked(spend, decay)[i] == spend[i] + decay * Adstocked(spend, decay)[i - 1]
  {
    forall i | 0 < i < |spend|
      ensures Adstocked(spend, decay)[i] == spend[i] + decay * Adstocked(spend, decay)[i - 1]
    {
      CarriedPart(spend, decay, i);
    }
    if |spend| > 0 {
      AdstockedFirst(spend, decay);
    }
  }

  /** Scanning one more spend value appends one step to the adstocked prefix. */
  lemma AdstockedExtend(spend: seq<real>, decay: real, i: nat)
    requires i < |spend|
    ensures Adstocked(spend[..i + 1], decay) ==
            Adstocked(spend[..i], decay) + [Step(spend[i], decay, Carryover(Adstocked(spend[..i], decay)))]
  {
    var next := spend[..i + 1];
    assert next != [] && next[..i] == spend[..i] && next[i] == spend[i];
  }

  /** The loop of `compute_adstock_series`, appending to the output and updating the carry-over. */
  method ComputeAdstockSeries(spend: seq<real>, decay: real) returns (adstocked: seq<real>)
    ensures adstocked == Adstocked(spend, decay)
    ensures |adstocked| == |spend|
    ensures |spend| > 0 ==> adstocked[0] == spend[0]
    ensures forall i :: 0 < i < |spend| ==> adstocked[i] == spend[i] + decay * adstocked[i - 1]
  {
    adstocked := [];
    var carryover := 0.0;
    for i := 0 to |spend|
      invariant adstocked == Adstocked(spend[..i], decay)
      invariant carryover == Carryover(adstocked)
    {
      var current := Step(spend[i], decay, carryover);
      AdstockedExtend(spend, decay, i);
      adstocked := adstocked + [current];
      carryover := current;
    }
    assert spend[..|spend|] == spend;
    AdstockedRecurrence(spend, decay);
  }

  /** A series of zero spend has zero adstock throughout. */
  lemma {:induction false} ZeroSpendZeroAdstock(spend: seq<real>, decay: real, i: nat)
    requires forall j :: 0 <= j < |spend| ==> spend[j] == 0.0
    requires i < |spend|
    ensures Adstocked(spend, decay)[i] == 0.0
  {
    if i == 0 {
      AdstockedFirst(spend, decay);
    } else {
      ZeroSpendZeroAdstock(spend, decay, i - 1);
      CarriedPart(spend, decay, i);
    }
  }

  /** With non-negative spend and decay, adstock never falls below the step's own spend. */
  lemma {:induction false} AdstockedDominatesSpend(spend: seq<real>, decay: real, i: nat)
    requires forall j :: 0 <= j < |spend| ==> spend[j] >= 0.0
    requires decay >= 0.0 && i < |spend|
    ensures Adstocked(spend, decay)[i] >= spend[i] >= 0.0
  {
    if i == 0 {
      AdstockedFirst(spend, decay);
    } else {
      AdstockedDominatesSpend(spend, decay, i - 1);
      CarriedPart(spend, decay, i);
      MulSign(decay, Adstocked(spend, decay)[i - 1]);
    }
  }

  /** Once some earlier spend was positive, adstock stays positive. */
  lemma {:induction false} AdstockedPositiveAfter(spend: seq<real>, decay: real, j: nat, i: nat)
    requires forall k :: 0 <= k < |spend| ==> spend[k] >= 0.0
    requires ValidDecay(decay) && j <= i < |spend| && spend[j] > 0.0
    ensures Adstocked(spend, decay)[i] > 0.0
  {
    AdstockedDominatesSpend(spend, decay, i);
    if i > j {
      AdstockedPositiveAfter(spend, decay, j, i - 1);
      CarriedPart(spend, decay, i);
      MulSign(decay, Adstocked(spend, decay)[i - 1]);
    }
  }

  /**
   * Constant positive spend c: the adstocked series rises strictly at every step and
   * stays below the fixed point c / (1 - decay).
   */
  lemma {:induction false} ConstantSpendRisesBelowFixedPoint(spend: seq<real>, c: real, decay: real, i: nat)
    requires c > 0.0 && ValidDecay(decay)
    requires forall j :: 0 <= j < |spend| ==> spend[j] == c
    requires i < |spend|
    ensures Adstocked(spend, decay)[i] < c / (1.0 - decay)
    ensures i > 0 ==> Adstocked(spend, decay)[i - 1] < Adstocked(spend, decay)[i]
  {
    var fixed := c / (1.0 - decay);
    DivMul(c, 1.0 - decay);
    if i == 0 {
      AdstockedFirst(spend, decay);
      FixedPointStep(c, decay, fixed, 0.0, c);
    } else {
      ConstantSpendRisesBelowFixedPoint(spend, c, decay, i - 1);
      CarriedPart(spend, decay, i);
      FixedPointStep(c, decay, fixed, Adstocked(spend, decay)[i - 1], Adstocked(spend, decay)[i]);
    }
  }

  /**
   * Constant positive spend c: the gap to the fixed point c / (1 - decay) after i + 1
   * periods is exactly decay^(i+1) times the fixed point, so the series converges to it.
   */
  lemma {:induction false} ConstantSpendGap(spend: seq<real>, c: real, decay: real, i: nat)
    requires c > 0.0 && ValidDecay(decay)
    requires forall j :: 0 <= j < |spend| ==> spend[j] == c
    requires i < |spend|
    ensures c / (1.0 - decay) - Adstocked(spend, decay)[i] == Pow(decay, i + 1) * (c / (1.0 - decay))
  {
    var fixed := c / (1.0 - decay);
    DivMul(c, 1.0 - decay);
    assert Pow(decay, i + 1) == decay * Pow(decay, i);
    if i == 0 {
      AdstockedFirst(spend, decay);
      assert Pow(decay, 0) == 1.0;
    } else {
      ConstantSpendGap(spend, c, decay, i - 1);
      CarriedPart(spend, decay, i);
      calc {
        fixed - Adstocked(spend, decay)[i];
        fixed - c - decay * Adstocked(spend, decay)[i - 1];
        { assert fixed - c == decay * fixed; }
        decay * (fixed - Adstocked(spend, decay)[i - 1]);
        decay * (Pow(decay, i) * fixed);
        Pow(decay, i + 1) * fixed;
      }
    }
  }

  /** One step next = c + decay * prev from below the fixed point rises and stays below it. */
  lemma FixedPointStep(c: real, decay: real, fixed: real, prev: real, next: real)
    requires c > 0.0 && 0.0 < decay < 1.0 && fixed * (1.0 - decay) == c
    requires prev < fixed && next - c == decay * prev
    ensures prev < next < fixed
  {
    ScaleByPositive(decay, prev, fixed);
    ScaleByPositive(1.0 - decay, prev, fixed);
  }

  /** Geometrically weighted sum: w[0]·d^(n-1) + w[1]·d^(n-2) + ... + w[n-1]·d^0. */
  function DecayedSum(w: seq<real>, decay: real): real
    decreases |w|
  {
    if w == [] then 0.0 else Pow(decay, |w| - 1) * w[0] + DecayedSum(w[1..], decay)
  }

  /** Appending a value to the weighted sum decays everything before it by one step. */
  lemma DecayedSumSnoc(w: seq<real>, x: real, decay: real)
    ensures DecayedSum(w + [x], decay) == decay * DecayedSum(w, decay) + x
  {
    SnocLawHolds(w, x, decay);
  }

  /** The law of DecayedSumSnoc as one fact, so that the induction below handles it whole. */
  predicate SnocLaw(w: seq<real>, x: real, decay: real) {
    DecayedSum(w + [x], decay) == decay * DecayedSum(w, decay) + x
  }

  lemma {:induction false} SnocLawHolds(w: seq<real>, x: real, decay: real)
    ensures SnocLaw(w, x, decay)
  {
    if w == [] {
      assert [x][1..] == [];
      assert DecayedSum([x], decay) == Pow(decay, 0) * x + DecayedSum([], decay);
    } else {
      var w' := w + [x];
      assert w'[1..] == w[1..] + [x];
      SnocLawHolds(w[1..], x, decay);
      DecayedSumHead(w', decay);
      DecayedSumHead(w, decay);
      assert |w'| - 1 == (|w| - 1) + 1;
      Regroup(decay, Pow(decay, |w| - 1), Pow(decay, |w'| - 1), w[0], DecayedSum(w[1..], decay),
              DecayedSum(w'[1..], decay), x, DecayedSum(w, decay), DecayedSum(w', decay));
    }
  }

  /** One head term split off the weighted sum, kept as a single fact. */
  predicate HeadSplit(sum: real, weight: real, head: real, rest: real) {
    sum == weight * head + rest
  }

  /** The weighted sum splits into its first term and the sum of the rest. */
  lemma DecayedSumHead(w: seq<real>, decay: real)
    requires w != []
    ensures HeadSplit(DecayedSum(w, decay), Pow(decay, |w| - 1), w[0], DecayedSum(w[1..], decay))
  {
  }

  /**
   * The algebra of one induction step, on plain reals: if the longer sum splits as
   * q·w0 + t and the shorter as p·w0 + rest, with q = d·p and t = d·rest + x, then
   * the longer sum is d times the shorter plus x.
   */
  lemma Regroup(d: real, p: real, q: real, w0: real, rest: real, t: real, x: real, sum: real, sum': real)
    requires q == d * p && t == d * rest + x
    requires HeadSplit(sum, p, w0, rest) && HeadSplit(sum', q, w0, t)
    ensures sum' == d * sum + x
  {
  }

  /**
   * Closed form: each adstocked value is the sum of all spend so far, the spend of
   * k steps ago weighted by decay^k.
   */
  lemma {:induction false} AdstockedClosedForm(spend: seq<real>, decay: real, i: nat)
    requires i < |spend|
    ensures Adstocked(spend, decay)[i] == DecayedSum(spend[..i + 1], decay)
  {
    assert spend[..i + 1] == spend[..i] + [spend[i]];
    DecayedSumSnoc(spend[..i], spend[i], decay);
    if i == 0 {
      assert spend[..0] == [];
      AdstockedFirst(spend, decay);
    } else {
      AdstockedClosedForm(spend, decay, i - 1);
      CarriedPart(spend, decay, i);
    }
  }

  /** A single impulse c followed by zero spend decays geometrically: k steps later, c · decay^k. */
  lemma {:induction false} ImpulseDecays(spend: seq<real>, c: real, decay: real, k: nat)
    requires |spend| > 0 && spend[0] == c
    requires forall j :: 0 < j < |spend| ==> spend[j] == 0.0
    requires k < |spend|
    ensures Adstocked(spend, decay)[k] == c * Pow(decay, k)
  {
    if k == 0 {
      AdstockedFirst(spend, decay);
    } else {
      ImpulseDecays(spend, c, decay, k - 1);
      CarriedPart(spend, decay, k);
      assert Pow(decay, k) == decay * Pow(decay, k - 1);
    }
  }

  /**
   * The meaning of the half-life h: with decay^h = 1/2, an impulse has exactly half
   * its size h steps later.
   */
  lemma HalfLifeHalvesImpulse(spend: seq<real>, c: real, decay: real, h: nat)
    requires |spend| > 0 && spend[0] == c
    requires forall j :: 0 < j < |spend| ==> spend[j] == 0.0
    requires h < |spend| && Pow(decay, h) == 0.5
    ensures Adstocked(spend, decay)[h] == c / 2.0
  {
    ImpulseDecays(spend, c, decay, h);
  }

  /** A positive retention whose whole-step half-life is h >= 1 lies in (0, 1). */
  lemma HalfLifeGivesValidDecay(decay: real, h: nat)
    requires decay > 0.0 && h >= 1 && Pow(decay, h) == 0.5
    ensures ValidDecay(decay)
  {
    if decay >= 1.0 {
      PowAtLeastOne(decay, h);
      assert false;
    }
  }

  /** With non-negative spend, adstock grows with the retention: 0 <= d1 <= d2 gives pointwise smaller adstock. */
  lemma {:induction false} AdstockedMonotoneInDecay(spend: seq<real>, d1: real, d2: real, i: nat)
    requires forall j :: 0 <= j < |spend| ==> spend[j] >= 0.0
    requires 0.0 <= d1 <= d2 && i < |spend|
    ensures Adstocked(spend, d1)[i] <= Adstocked(spend, d2)[i]
  {
    if i == 0 {
      AdstockedFirst(spend, d1);
      AdstockedFirst(spend, d2);
    } else {
      AdstockedMonotoneInDecay(spend, d1, d2, i - 1);
      AdstockedDominatesSpend(spend, d1, i - 1);
      CarryAtMost(spend, d1, d2, i);
    }
  }

  /** With 0 <= d1 <= d2 and 0 <= previous adstock under d1 <= that under d2, d2 carries at least as much. */
  lemma CarryAtMost(spend: seq<real>, d1: real, d2: real, i: nat)
    requires 0 < i < |spend| && 0.0 <= d1 <= d2
    requires 0.0 <= Adstocked(spend, d1)[i - 1] <= Adstocked(spend, d2)[i - 1]
    ensures Adstocked(spend, d1)[i] - spend[i] <= Adstocked(spend, d2)[i] - spend[i]
  {
    CarriedPart(spend, d1, i);
    CarriedPart(spend, d2, i);
    var a1, a2 := Adstocked(spend, d1)[i - 1], Adstocked(spend, d2)[i - 1];
    MulSign(d2 - d1, a1);
    MulSign(d2, a2 - a1);
  }

  /**
   * Slower decay (longer half-life) carries strictly more over at every step after
   * some positive spend: the carried part adstocked[i] - spend[i] is larger.
   */
  lemma SlowerDecayCarriesMore(spend: seq<real>, d1: real, d2: real, j: nat, i: nat)
    requires forall k :: 0 <= k < |spend| ==> spend[k] >= 0.0
    requires ValidDecay(d1) && ValidDecay(d2) && d1 < d2
    requires j < i < |spend| && spend[j] > 0.0
    ensures Adstocked(spend, d1)[i] - spend[i] < Adstocked(spend, d2)[i] - spend[i]
  {
    AdstockedPositiveAfter(spend, d1, j, i - 1);
    AdstockedMonotoneInDecay(spend, d1, d2, i - 1);
    CarryLess(spend, d1, d2, i);
  }

  /** With 0 < d1 < d2 and 0 < previous adstock under d1 <= that under d2, d2 carries strictly more. */
  lemma CarryLess(spend: seq<real>, d1: real, d2: real, i: nat)
    requires 0 < i < |spend| && 0.0 < d1 < d2
    requires 0.0 < Adstocked(spend, d1)[i - 1] <= Adstocked(spend, d2)[i - 1]
    ensures Adstocked(spend, d1)[i] - spend[i] < Adstocked(spend, d2)[i] - spend[i]
  {
    CarriedPart(spend, d1, i);
    CarriedPart(spend, d2, i);
    var a1, a2 := Adstocked(spend, d1)[i - 1], Adstocked(spend, d2)[i - 1];
    MulSign(d2 - d1, a1);
    MulSign(d2, a2 - a1);
  }
}
