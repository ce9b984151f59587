/**
 * `np.gradient(y, x)` for one-dimensional data with explicit sample coordinates:
 * one-sided difference quotients at the two ends and the second-order formula for
 * unevenly spaced samples everywhere in between.
 */
module Slopes {
  import opened Wrappers
  import opened RealArith

  /** Why a gradient cannot be taken. */
  datatype GradientError =
    | MismatchedLengths   // values and coordinates differ in length
    | InsufficientData    // fewer than two samples
    | DegenerateSpacing   // a spacing the formula divides by is zero

  /**
   * Every divisor of the formula is non-zero: neighbouring coordinates differ, and
   * so do the two neighbours of every interior sample.
   */
  predicate WellSpaced(x: seq<real>) {
    (forall i :: 0 < i < |x| ==> x[i] != x[i - 1]) &&
    (forall i :: 1 < i < |x| ==> x[i] != x[i - 2])
  }

  /** The difference quotient between samples i and j. */
  function Secant(y: seq<real>, x: seq<real>, i: nat, j: nat): real
    requires i < |y| == |x| && j < |x| && x[i] != x[j]
  {
    (y[j] - y[i]) / (x[j] - x[i])
  }

  /** numpy's weight on the previous value, given the spacings hs behind and hd ahead. */
  function PrevWeight(hs: real, hd: real): real
    requires hs != 0.0 && hd != 0.0 && hs + hd != 0.0
  {
    -hd / (hs * (hs + hd))
  }

  /** numpy's weight on the current value. */
  function CurWeight(hs: real, hd: real): real
    requires hs != 0.0 && hd != 0.0
  {
    (hd - hs) / (hs * hd)
  }

  /** numpy's weight on the next value. */
  function NextWeight(hs: real, hd: real): real
    requires hs != 0.0 && hd != 0.0 && hs + hd != 0.0
  {
    hs / (hd * (hs + hd))
  }

  /**
   * The interior estimate from the previous, current and next values: a weighted
   * sum whose weights make it exact for every quadratic.
   */
  function Interior(prev: real, cur: real, next: real, hs: real, hd: real): real
    requires hs != 0.0 && hd != 0.0 && hs + hd != 0.0
  {
    PrevWeight(hs, hd) * prev + CurWeight(hs, hd) * cur + NextWeight(hs, hd) * next
  }

  /** The slope at sample i. */
  function SlopeAt(y: seq<real>, x: seq<real>, i: nat): real
    requires |y| == |x| && 2 <= |x| && i < |x| && WellSpaced(x)
  {
    if i == 0 then Secant(y, x, 0, 1)
    else if i == |x| - 1 then Secant(y, x, i - 1, i)
    else Interior(y[i - 1], y[i], y[i + 1], x[i] - x[i - 1], x[i + 1] - x[i])
  }

  /**
   * `np.gradient(y, x)`: one slope per sample, or the reason none can be computed.
   * The coordinates must match the values in length, there must be at least two
   * samples, and no spacing the formula divides by may be zero.
   */
  function Gradient(y: seq<real>, x: seq<real>): (r: Result<seq<real>, GradientError>)
    ensures r.Err? <==> |y| != |x| || |x| < 2 || !WellSpaced(x)
    ensures r == Err(MismatchedLengths) <==> |y| != |x|
    ensures r == Err(InsufficientData) <==> |y| == |x| < 2
    ensures r.Ok? ==> |r.value| == |x|
    ensures r.Ok? ==> r.value[0] == (y[1] - y[0]) / (x[1] - x[0])
    ensures r.Ok? ==> r.value[|x| - 1] == (y[|x| - 1] - y[|x| - 2]) / (x[|x| - 1] - x[|x| - 2])
    ensures r.Ok? ==> forall i :: 0 < i < |x| - 1 ==>
              r.value[i] == Interior(y[i - 1], y[i], y[i + 1], x[i] - x[i - 1], x[i + 1] - x[i])
  {
    if |y| != |x| then Err(MismatchedLengths)
    else if |x| < 2 then Err(InsufficientData)
    else if !WellSpaced(x) then Err(DegenerateSpacing)
    else Ok(seq(|x|, i requires 0 <= i < |x| => SlopeAt(y, x, i)))
  }

  /** The common denominator hs·hd·(hs+hd) of the interior weights; non-zero when the spacings allow. */
  function Spread(hs: real, hd: real): (s: real)
    ensures hs != 0.0 && hd != 0.0 && hs + hd != 0.0 ==> s != 0.0
  {
    var w := hs + hd;
    assert hs != 0.0 && hd != 0.0 && w != 0.0 ==> hs * hd != 0.0 && hs * hd * w != 0.0;
    hs * hd * w
  }

  /** The interior estimate's numerator over that denominator. */
  function Numerator(prev: real, cur: real, next: real, hs: real, hd: real): real {
    hs * hs * next + (hd * hd - hs * hs) * cur - hd * hd * prev
  }

  /** The interior estimate written as a single fraction. */
  function Combined(prev: real, cur: real, next: real, hs: real, hd: real): real
    requires hs != 0.0 && hd != 0.0 && hs + hd != 0.0
  {
    Numerator(prev, cur, next, hs, hd) / Spread(hs, hd)
  }

  /** The fraction equals q when its numerator is q times the denominator. */
  lemma CombinedIs(prev: real, cur: real, next: real, hs: real, hd: real, q: real)
    requires hs != 0.0 && hd != 0.0 && hs + hd != 0.0
    requires Numerator(prev, cur, next, hs, hd) == q * Spread(hs, hd)
    ensures Combined(prev, cur, next, hs, hd) == q
  {
    DivExact(Numerator(prev, cur, next, hs, hd), Spread(hs, hd), q);
  }

  /** Each weight of the interior formula times the common denominator. */
  lemma WeightPrev(hs: real, hd: real)
    requires hs != 0.0 && hd != 0.0 && hs + hd != 0.0
    ensures PrevWeight(hs, hd) * Spread(hs, hd) == -(hd * hd)
  {
    DivMul(-hd, hs * (hs + hd));
  }

  lemma WeightCur(hs: real, hd: real)
    requires hs != 0.0 && hd != 0.0 && hs + hd != 0.0
    ensures CurWeight(hs, hd) * Spread(hs, hd) == hd * hd - hs * hs
  {
    DivMul(hd - hs, hs * hd);
  }

  lemma WeightNext(hs: real, hd: real)
    requires hs != 0.0 && hd != 0.0 && hs + hd != 0.0
    ensures NextWeight(hs, hd) * Spread(hs, hd) == hs * hs
  {
    DivMul(hs, hd * (hs + hd));
  }

  /** A weighted sum times s is the numerator once each weight times s is known. */
  lemma WeightedNumerator(a: real, b: real, c: real, s: real, hs: real, hd: real,
                          prev: real, cur: real, next: real)
    requires a * s == -(hd * hd) && b * s == hd * hd - hs * hs && c * s == hs * hs
    ensures Numerator(prev, cur, next, hs, hd) == (a * prev + b * cur + c * next) * s
  {
    assert (a * prev + b * cur + c * next) * s == (a * s) * prev + (b * s) * cur + (c * s) * next;
  }

  /** numpy's three weights add up to the single fraction over the common denominator. */
  lemma InteriorCombined(prev: real, cur: real, next: real, hs: real, hd: real)
    requires hs != 0.0 && hd != 0.0 && hs + hd != 0.0
    ensures Interior(prev, cur, next, hs, hd) == Combined(prev, cur, next, hs, hd)
  {
    WeightsTimesSpread(hs, hd);
    WeightsGiveCombined(PrevWeight(hs, hd), CurWeight(hs, hd), NextWeight(hs, hd), hs, hd, prev, cur, next);
  }

  /** Each of the three weights times the common denominator. */
  predicate WeightsFit(a: real, b: real, c: real, hs: real, hd: real) {
    a * Spread(hs, hd) == -(hd * hd) &&
    b * Spread(hs, hd) == hd * hd - hs * hs &&
    c * Spread(hs, hd) == hs * hs
  }

  lemma WeightsTimesSpread(hs: real, hd: real)
    requires hs != 0.0 && hd != 0.0 && hs + hd != 0.0
    ensures WeightsFit(PrevWeight(hs, hd), CurWeight(hs, hd), NextWeight(hs, hd), hs, hd)
  {
    WeightPrev(hs, hd);
    WeightCur(hs, hd);
    WeightNext(hs, hd);
  }

  lemma WeightsGiveCombined(a: real, b: real, c: real, hs: real, hd: real,
                            prev: real, cur: real, next: real)
    requires hs != 0.0 && hd != 0.0 && hs + hd != 0.0
    requires WeightsFit(a, b, c, hs, hd)
    ensures a * prev + b * cur + c * next == Combined(prev, cur, next, hs, hd)
  {
    WeightedNumerator(a, b, c, Spread(hs, hd), hs, hd, prev, cur, next);
    CombinedIs(prev, cur, next, hs, hd, a * prev + b * cur + c * next);
  }

  /** With equal spacing on both sides the interior estimate is the central difference. */
  lemma InteriorEvenSpacing(prev: real, cur: real, next: real, h: real)
    requires h != 0.0
    ensures Interior(prev, cur, next, h, h) == (next - prev) / (2.0 * h)
  {
    InteriorCombined(prev, cur, next, h, h);
    var q := (next - prev) / (2.0 * h);
    DivMul(next - prev, 2.0 * h);
    EvenNumerator(prev, cur, next, h, q);
    CombinedIs(prev, cur, next, h, h, q);
  }

  lemma EvenNumerator(prev: real, cur: real, next: real, h: real, q: real)
    requires q * (2.0 * h) == next - prev
    ensures Numerator(prev, cur, next, h, h) == q * Spread(h, h)
  {
    assert Numerator(prev, cur, next, h, h) == (h * h) * (next - prev);
    assert Spread(h, h) == (h * h) * (2.0 * h);
  }

  /** Three samples of a line, at xp < x0 < xn or in any other distinct order: the interior estimate is its slope. */
  lemma InteriorOnLine(m: real, k: real, xp: real, x0: real, xn: real, hs: real, hd: real,
                       prev: real, cur: real, next: real)
    requires hs == x0 - xp && hd == xn - x0 && hs != 0.0 && hd != 0.0 && hs + hd != 0.0
    requires prev == m * xp + k && cur == m * x0 + k && next == m * xn + k
    ensures Interior(prev, cur, next, hs, hd) == m
  {
    InteriorCombined(prev, cur, next, hs, hd);
    LineNumerator(m, k, xp, x0, xn, hs, hd, prev, cur, next);
    CombinedIs(prev, cur, next, hs, hd, m);
  }

  /** The numerator of the interior estimate on a line. */
  lemma LineNumerator(m: real, k: real, xp: real, x0: real, xn: real, hs: real, hd: real,
                      prev: real, cur: real, next: real)
    requires hs == x0 - xp && hd == xn - x0
    requires prev == m * xp + k && cur == m * x0 + k && next == m * xn + k
    ensures Numerator(prev, cur, next, hs, hd) == m * Spread(hs, hd)
  {
    assert prev == cur - m * hs && next == cur + m * hd;
  }

  /** Three samples of the parabola x²: the interior estimate is its derivative 2·x. */
  lemma InteriorOnParabola(xp: real, x0: real, xn: real, hs: real, hd: real,
                           prev: real, cur: real, next: real)
    requires hs == x0 - xp && hd == xn - x0 && hs != 0.0 && hd != 0.0 && hs + hd != 0.0
    requires prev == xp * xp && cur == x0 * x0 && next == xn * xn
    ensures Interior(prev, cur, next, hs, hd) == 2.0 * x0
  {
    InteriorCombined(prev, cur, next, hs, hd);
    ParabolaNumerator(xp, x0, xn, hs, hd, prev, cur, next);
    CombinedIs(prev, cur, next, hs, hd, 2.0 * x0);
  }

  /** The numerator of the interior estimate on the parabola x². */
  lemma ParabolaNumerator(xp: real, x0: real, xn: real, hs: real, hd: real,
                          prev: real, cur: real, next: real)
    requires hs == x0 - xp && hd == xn - x0
    requires prev == xp * xp && cur == x0 * x0 && next == xn * xn
    ensures Numerator(prev, cur, next, hs, hd) == (2.0 * x0) * Spread(hs, hd)
  {
    assert xp == x0 - hs && xn == x0 + hd;
    assert prev == x0 * x0 - 2.0 * x0 * hs + hs * hs;
    assert next == x0 * x0 + 2.0 * x0 * hd + hd * hd;
  }

  /** Two samples of a line: the difference quotient is its slope. */
  lemma SecantOnLine(m: real, k: real, x0: real, x1: real, y0: real, y1: real)
    requires x0 != x1 && y0 == m * x0 + k && y1 == m * x1 + k
    ensures (y1 - y0) / (x1 - x0) == m
  {
    assert y1 - y0 == m * (x1 - x0);
    DivExact(y1 - y0, x1 - x0, m);
  }

  /** With only two samples both slopes are the one difference quotient between them. */
  lemma TwoSamplesShareSlope(y: seq<real>, x: seq<real>)
    requires |y| == |x| == 2 && x[0] != x[1]
    ensures Gradient(y, x).Ok?
    ensures Gradient(y, x).value == [Secant(y, x, 0, 1), Secant(y, x, 0, 1)]
  {
  }

  /** With three samples: the two end quotients around the one interior estimate. */
  lemma ThreeSampleGradient(y: seq<real>, x: seq<real>)
    requires |y| == |x| == 3 && WellSpaced(x)
    ensures Gradient(y, x).Ok?
    ensures Gradient(y, x).value ==
            [(y[1] - y[0]) / (x[1] - x[0]),
             Interior(y[0], y[1], y[2], x[1] - x[0], x[2] - x[1]),
             (y[2] - y[1]) / (x[2] - x[1])]
  {
  }

  /** Strictly increasing coordinates, such as adstocked spend under steady spend, are well spaced. */
  lemma IncreasingIsWellSpaced(x: seq<real>)
    requires forall i :: 0 < i < |x| ==> x[i - 1] < x[i]
    ensures WellSpaced(x)
  {
    forall i | 1 < i < |x|
      ensures x[i] != x[i - 2]
    {
      assert x[i - 2] < x[i - 1] < x[i];
    }
  }

  /** Samples of a line y = m·x + k: every slope the gradient reports is m, ends included. */
  lemma GradientExactOnLine(y: seq<real>, x: seq<real>, m: real, k: real)
    requires |y| == |x| && forall i :: 0 <= i < |x| ==> y[i] == m * x[i] + k
    requires Gradient(y, x).Ok?
    ensures forall i :: 0 <= i < |x| ==> Gradient(y, x).value[i] == m
  {
    forall i | 0 <= i < |x|
      ensures SlopeAt(y, x, i) == m
    {
      SlopeAtOnLine(y, x, m, k, i);
    }
  }

  lemma SlopeAtOnLine(y: seq<real>, x: seq<real>, m: real, k: real, i: nat)
    requires |y| == |x| && 2 <= |x| && i < |x| && WellSpaced(x)
    requires forall j :: 0 <= j < |x| ==> y[j] == m * x[j] + k
    ensures SlopeAt(y, x, i) == m
  {
    if i == 0 {
      SecantOnLine(m, k, x[0], x[1], y[0], y[1]);
    } else if i == |x| - 1 {
      SecantOnLine(m, k, x[i - 1], x[i], y[i - 1], y[i]);
    } else {
      InteriorOnLine(m, k, x[i - 1], x[i], x[i + 1], x[i] - x[i - 1], x[i + 1] - x[i], y[i - 1], y[i], y[i + 1]);
    }
  }

  /** Samples of the parabola y = x²: at every interior sample the gradient is exactly 2·x. */
  lemma GradientExactOnParabola(y: seq<real>, x: seq<real>)
    requires |y| == |x| && forall i :: 0 <= i < |x| ==> y[i] == x[i] * x[i]
    requires Gradient(y, x).Ok?
    ensures forall i :: 0 < i < |x| - 1 ==> Gradient(y, x).value[i] == 2.0 * x[i]
  {
    forall i | 0 < i < |x| - 1
      ensures SlopeAt(y, x, i) == 2.0 * x[i]
    {
      SlopeAtOnParabola(y, x, i, y[i - 1], y[i], y[i + 1]);
    }
  }

  lemma SlopeAtOnParabola(y: seq<real>, x: seq<real>, i: nat, prev: real, cur: real, next: real)
    requires |y| == |x| && 0 < i < |x| - 1 && WellSpaced(x)
    requires prev == y[i - 1] == x[i - 1] * x[i - 1]
    requires cur == y[i] == x[i] * x[i]
    requires next == y[i + 1] == x[i + 1] * x[i + 1]
    ensures SlopeAt(y, x, i) == 2.0 * x[i]
  {
    assert x[i + 1] != x[i - 1];
    InteriorOnParabola(x[i - 1], x[i], x[i + 1], x[i] - x[i - 1], x[i + 1] - x[i], prev, cur, next);
  }

  /**
   * Evenly spaced coordinates: the gradient always succeeds on two or more samples,
   * and in the interior it is the central difference, the formula numpy switches to
   * when all spacings are equal.
   */
  lemma GradientEvenSpacing(y: seq<real>, x: seq<real>, h: real)
    requires |y| == |x| >= 2 && h != 0.0
    requires forall i :: 0 < i < |x| ==> x[i] - x[i - 1] == h
    ensures Gradient(y, x).Ok?
    ensures forall i :: 0 < i < |x| - 1 ==>
              Gradient(y, x).value[i] == (y[i + 1] - y[i - 1]) / (2.0 * h)
  {
    EvenlySpacedIsWellSpaced(x, h);
    forall i | 0 < i < |x| - 1
      ensures SlopeAt(y, x, i) == (y[i + 1] - y[i - 1]) / (2.0 * h)
    {
      SlopeAtEvenSpacing(y, x, h, i);
    }
  }

  lemma EvenlySpacedIsWellSpaced(x: seq<real>, h: real)
    requires h != 0.0 && forall i :: 0 < i < |x| ==> x[i] - x[i - 1] == h
    ensures WellSpaced(x)
  {
    forall i | 1 < i < |x|
      ensures x[i] != x[i - 2]
    {
      assert x[i] - x[i - 1] == h && x[i - 1] - x[i - 2] == h;
    }
  }

  lemma SlopeAtEvenSpacing(y: seq<real>, x: seq<real>, h: real, i: nat)
    requires |y| == |x| && 0 < i < |x| - 1 && WellSpaced(x) && h != 0.0
    requires x[i] - x[i - 1] == h && x[i + 1] - x[i] == h
    ensures SlopeAt(y, x, i) == (y[i + 1] - y[i - 1]) / (2.0 * h)
  {
    InteriorEvenSpacing(y[i - 1], y[i], y[i + 1], h);
  }

  /**
   * Point elasticity: slope times adstocked spend over response where the response
   * is non-zero, and zero where it is zero (the division there is suppressed).
   */
  function Elasticity(slope: seq<real>, adstocked: seq<real>, response: seq<real>): (e: seq<real>)
    requires |slope| == |adstocked| == |response|
    ensures |e| == |response|
    ensures forall i :: 0 <= i < |e| && response[i] == 0.0 ==> e[i] == 0.0
    ensures forall i :: 0 <= i < |e| && response[i] != 0.0 ==>
              e[i] * response[i] == slope[i] * adstocked[i]
  {
    var e := seq(|response|, i requires 0 <= i < |response| =>
                               if response[i] != 0.0 then slope[i] * (adstocked[i] / response[i]) else 0.0);
    forall i | 0 <= i < |e| && response[i] != 0.0
      ensures e[i] * response[i] == slope[i] * adstocked[i]
    {
      ElasticityTerm(slope[i], adstocked[i], response[i], e[i]);
    }
    e
  }

  lemma ElasticityTerm(s: real, x: real, y: real, e: real)
    requires y != 0.0 && e == s * (x / y)
    ensures e * y == s * x
  {
    DivMul(x, y);
  }

  /**
   * `compute_elasticity`: the slope of response against adstocked spend, and the
   * elasticity built from it; fails exactly when the gradient does.
   */
  function ComputeElasticity(response: seq<real>, adstocked: seq<real>)
    : (r: Result<(seq<real>, seq<real>), GradientError>)
    ensures r.Err? <==> Gradient(response, adstocked).Err?
    ensures r.Err? ==> r.error == Gradient(response, adstocked).error
    ensures r.Ok? ==> r.value.0 == Gradient(response, adstocked).value
    ensures r.Ok? ==> r.value.1 == Elasticity(r.value.0, adstocked, response)
  {
    var g := Gradient(response, adstocked);
    if g.Err? then Err(g.error)
    else
      var e := Elasticity(g.value, adstocked, response);
      Ok((g.value, e))
  }

  /**
   * A response proportional to adstocked spend, y = m·x with m ≠ 0, has elasticity
   * exactly one wherever spend is non-zero, and zero where it is zero.
   */
  lemma ProportionalResponseHasUnitElasticity(response: seq<real>, adstocked: seq<real>, m: real)
    requires m != 0.0 && |response| == |adstocked|
    requires forall i :: 0 <= i < |adstocked| ==> response[i] == m * adstocked[i]
    requires ComputeElasticity(response, adstocked).Ok?
    ensures forall i :: 0 <= i < |adstocked| ==>
              ComputeElasticity(response, adstocked).value.1[i] == if adstocked[i] != 0.0 then 1.0 else 0.0
  {
    ProportionalIsLine(response, adstocked, m);
    GradientExactOnLine(response, adstocked, m, 0.0);
    var slope := Gradient(response, adstocked).value;
    forall i | 0 <= i < |adstocked|
      ensures Elasticity(slope, adstocked, response)[i] == if adstocked[i] != 0.0 then 1.0 else 0.0
    {
      UnitAt(slope, adstocked, response, m, i);
    }
  }

  lemma ProportionalIsLine(response: seq<real>, adstocked: seq<real>, m: real)
    requires |response| == |adstocked|
    requires forall i :: 0 <= i < |adstocked| ==> response[i] == m * adstocked[i]
    ensures forall i :: 0 <= i < |adstocked| ==> response[i] == m * adstocked[i] + 0.0
  {
  }

  lemma UnitAt(slope: seq<real>, adstocked: seq<real>, response: seq<real>, m: real, i: nat)
    requires |slope| == |adstocked| == |response| && i < |response| && m != 0.0
    requires response[i] == m * adstocked[i] && slope[i] == m
    ensures Elasticity(slope, adstocked, response)[i] == if adstocked[i] != 0.0 then 1.0 else 0.0
  {
    ElasticityAt(slope, adstocked, response, i);
    UnitTerm(m, adstocked[i], response[i], slope[i], Elasticity(slope, adstocked, response)[i]);
  }

  lemma ElasticityAt(slope: seq<real>, adstocked: seq<real>, response: seq<real>, i: nat)
    requires |slope| == |adstocked| == |response| && i < |response|
    ensures response[i] == 0.0 ==> Elasticity(slope, adstocked, response)[i] == 0.0
    ensures response[i] != 0.0 ==>
              Elasticity(slope, adstocked, response)[i] * response[i] == slope[i] * adstocked[i]
  {
  }

  lemma UnitTerm(m: real, x: real, y: real, s: real, e: real)
    requires m != 0.0 && y == m * x && s == m
    requires y == 0.0 ==> e == 0.0
    requires y != 0.0 ==> e * y == s * x
    ensures e == if x != 0.0 then 1.0 else 0.0
  {
    if x != 0.0 {
      assert y != 0.0 by { MulSign(m, x); MulSign(-m, x); MulSign(m, -x); }
      assert s * x == y;
      assert e * y == y;
      DivExact(y, y, e);
      DivExact(y, y, 1.0);
    }
  }
}
