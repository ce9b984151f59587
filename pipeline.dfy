/**
 * The analysis of one campaign's spend series: response curve, slope and
 * elasticity, the landmark points and the spending advice.
 */
module Pipeline {
  import opened Wrappers
  import opened Powers
  import opened Adstock
  import opened Response
  import opened Slopes
  import opened Landmarks
  import opened Recommendation
  import opened RealArith

  /** Everything the analysis reports for a campaign. */
  datatype CurveAnalysis = CurveAnalysis(
    adstocked: seq<real>,
    response: seq<real>,
    slope: seq<real>,
    elasticity: seq<real>,
    pointA: (real, real),
    pointC: Option<Landmark>,
    pointD: Option<Landmark>,
    averageElasticity: real,
    advice: Advice)

  /**
   * Model the response of a campaign's spend, take its slope and elasticity against
   * adstocked spend, locate points A, C and D and advise on spend. Fails, with the
   * gradient's reason, exactly when the slope cannot be taken.
   */
  method AnalyzeCampaign(spend: seq<real>, decay: real, penetration: real, effectiveness: real,
                         pow: real -> real)
    returns (r: Result<CurveAnalysis, GradientError>)
    requires NonNegative(spend) && ValidDecay(decay)
    requires penetration > 0.0 && effectiveness > 0.0 && ValidPower(pow)
    ensures NonNegative(Adstocked(spend, decay))
    ensures var adstocked := Adstocked(spend, decay);
            var response := ScaledResponse(adstocked, penetration, effectiveness, pow);
            (r.Err? <==> Gradient(response, adstocked).Err?) &&
            (r.Err? ==> r.error == Gradient(response, adstocked).error) &&
            (r.Ok? ==>
               var a := r.value;
               a.adstocked == adstocked && a.response == response &&
               a.slope == Gradient(response, adstocked).value &&
               a.elasticity == Elasticity(a.slope, adstocked, response) &&
               a.pointA == (penetration, effectiveness / 2.0) &&
               a.pointC == PointC(a.slope, adstocked, response) &&
               a.pointD == PointD(a.slope, adstocked, response) &&
               a.averageElasticity == Mean(a.elasticity) &&
               a.advice == Recommend(a.averageElasticity))
  {
    var response, adstocked := ComputeResponseSeries(spend, decay, penetration, effectiveness, pow);
    match ComputeElasticity(response, adstocked)
    case Err(why) =>
      r := Err(why);
    case Ok(pair) =>
      var slope, elasticity := pair.0, pair.1;
      var average := Mean(elasticity);
      r := Ok(CurveAnalysis(
        adstocked, response, slope, elasticity,
        PointA(penetration, effectiveness, pow),
        PointC(slope, adstocked, response),
        PointD(slope, adstocked, response),
        average, Recommend(average)));
  }

  /**
   * Steady positive spend over two or more periods is always analysed: adstock
   * rises strictly, so no spacing the slope divides by is zero.
   */
  lemma SteadySpendIsAnalysed(spend: seq<real>, c: real, decay: real, penetration: real,
                              effectiveness: real, pow: real -> real)
    requires |spend| >= 2 && c > 0.0 && forall j :: 0 <= j < |spend| ==> spend[j] == c
    requires ValidDecay(decay) && penetration > 0.0 && effectiveness > 0.0 && ValidPower(pow)
    ensures NonNegative(Adstocked(spend, decay))
    ensures Gradient(ScaledResponse(Adstocked(spend, decay), penetration, effectiveness, pow),
                     Adstocked(spend, decay)).Ok?
  {
    var adstocked := Adstocked(spend, decay);
    AdstockedNonNegative(spend, decay);
    forall i | 0 < i < |adstocked|
      ensures adstocked[i - 1] < adstocked[i]
    {
      ConstantSpendRisesBelowFixedPoint(spend, c, decay, i);
    }
    IncreasingIsWellSpaced(adstocked);
  }

  /** A single period of spend cannot be analysed: the slope needs two samples. */
  lemma SinglePeriodIsInsufficient(spend: seq<real>, decay: real, penetration: real,
                                   effectiveness: real, pow: real -> real)
    requires |spend| == 1 && NonNegative(spend) && ValidDecay(decay)
    requires penetration > 0.0 && effectiveness > 0.0 && ValidPower(pow)
    ensures NonNegative(Adstocked(spend, decay))
    ensures Gradient(ScaledResponse(Adstocked(spend, decay), penetration, effectiveness, pow),
                     Adstocked(spend, decay)) == Err(InsufficientData)
  {
    AdstockedNonNegative(spend, decay);
  }

  /**
   * A campaign with no spend at all is not analysed: adstock stays at zero, so
   * every spacing is zero.
   */
  lemma ZeroSpendIsDegenerate(spend: seq<real>, decay: real, penetration: real,
                              effectiveness: real, pow: real -> real)
    requires |spend| >= 2 && forall j :: 0 <= j < |spend| ==> spend[j] == 0.0
    requires ValidDecay(decay) && penetration > 0.0 && effectiveness > 0.0 && ValidPower(pow)
    ensures NonNegative(Adstocked(spend, decay))
    ensures Gradient(ScaledResponse(Adstocked(spend, decay), penetration, effectiveness, pow),
                     Adstocked(spend, decay)) == Err(DegenerateSpacing)
  {
    var adstocked := Adstocked(spend, decay);
    ZeroSpendZeroAdstock(spend, decay, 0);
    ZeroSpendZeroAdstock(spend, decay, 1);
    AdstockedNonNegative(spend, decay);
    assert adstocked[1] == adstocked[0];
  }

  /**
   * Any campaign with two periods of the same positive spend has no point C: its
   * response rises, both slopes are the one positive difference quotient, and
   * neither is below half of itself. The search as the source writes it has no
   * index to take.
   */
  lemma SteadyTwoPeriodCampaignHasNoPointC(c: real, decay: real, penetration: real,
                                           effectiveness: real, pow: real -> real)
    requires c > 0.0 && ValidDecay(decay)
    requires penetration > 0.0 && effectiveness > 0.0 && ValidPower(pow)
    ensures NonNegative(Adstocked([c, c], decay))
    ensures var adstocked := Adstocked([c, c], decay);
            var response := ScaledResponse(adstocked, penetration, effectiveness, pow);
            var g := Gradient(response, adstocked);
            g.Ok? &&
            !(exists j :: 0 <= j < |g.value| && g.value[j] < DiminishingThreshold(g.value)) &&
            PointC(g.value, adstocked, response).None?
  {
    var spend := [c, c];
    AdstockedNonNegative(spend, decay);
    var adstocked := Adstocked(spend, decay);
    var response := ScaledResponse(adstocked, penetration, effectiveness, pow);
    ConstantSpendRisesBelowFixedPoint(spend, c, decay, 1);
    assert response[0] < response[1];
    RisingPairHasNoPointC(response, adstocked);
  }

  /** Two samples whose spend and response both rise: the gradient succeeds and finds no point C. */
  lemma RisingPairHasNoPointC(response: seq<real>, adstocked: seq<real>)
    requires |response| == |adstocked| == 2
    requires adstocked[0] < adstocked[1] && response[0] < response[1]
    ensures Gradient(response, adstocked).Ok?
    ensures !(exists j :: 0 <= j < 2 && Gradient(response, adstocked).value[j] <
                                        DiminishingThreshold(Gradient(response, adstocked).value))
    ensures PointC(Gradient(response, adstocked).value, adstocked, response).None?
  {
    TwoSamplesShareSlope(response, adstocked);
    var slope := Gradient(response, adstocked).value;
    PositiveQuotient(response[1] - response[0], adstocked[1] - adstocked[0]);
    TwoSamplesHaveNoPointC(slope, adstocked, response);
  }

  lemma PositiveQuotient(n: real, d: real)
    requires n > 0.0 && d > 0.0
    ensures n / d > 0.0
  {
    DivMul(n, d);
    MulSign(n / d, d);
  }

  /**
   * Spend 100, 1000, 3000 with decay 0.5, Hill power 1, penetration 2000 and
   * effectiveness 500: adstock 100, 1050, 3525 and slopes of about 0.156, 0.129 and
   * 0.059. The last slope is below half the peak, so point C is the third sample;
   * no slope is below 0.01, so there is no point D and the search for D as the
   * source writes it has no index to take.
   */
  lemma CampaignWithPointCButNoPointD()
    ensures NonNegative(Adstocked([100.0, 1000.0, 3000.0], 0.5))
    ensures var adstocked := Adstocked([100.0, 1000.0, 3000.0], 0.5);
            var response := ScaledResponse(adstocked, 2000.0, 500.0, x => x);
            var g := Gradient(response, adstocked);
            g.Ok? &&
            PointC(g.value, adstocked, response).Some? &&
            PointC(g.value, adstocked, response).value.index == 2 &&
            !(exists j :: 0 <= j < |g.value| && g.value[j] < SaturationSlope) &&
            PointD(g.value, adstocked, response).None?
  {
    RisingCampaignAdstock();
    RisingCampaignResponse();
    var adstocked: seq<real> := [100.0, 1050.0, 3525.0];
    var response: seq<real> := [500.0 * (100.0 / 2100.0), 500.0 * (1050.0 / 3050.0), 500.0 * (3525.0 / 5525.0)];
    IncreasingIsWellSpaced(adstocked);
    ThreeSampleGradient(response, adstocked);
    RisingCampaignSlopes(adstocked[0], adstocked[1], adstocked[2], response[0], response[1], response[2]);
    RisingCampaignLandmarks(Gradient(response, adstocked).value, adstocked, response);
  }

  lemma RisingCampaignAdstock()
    ensures Adstocked([100.0, 1000.0, 3000.0], 0.5) == [100.0, 1050.0, 3525.0]
  {
    AdstockedRecurrence([100.0, 1000.0, 3000.0], 0.5);
  }

  lemma RisingCampaignResponse()
    ensures NonNegative([100.0, 1050.0, 3525.0])
    ensures ScaledResponse([100.0, 1050.0, 3525.0], 2000.0, 500.0, x => x) ==
            [500.0 * (100.0 / 2100.0), 500.0 * (1050.0 / 3050.0), 500.0 * (3525.0 / 5525.0)]
  {
    IdentityIsValidPower();
  }

  /** The three slopes of that campaign, bounded from its adstocked spend and response. */
  lemma RisingCampaignSlopes(x0: real, x1: real, x2: real, r0: real, r1: real, r2: real)
    requires x0 == 100.0 && x1 == 1050.0 && x2 == 3525.0
    requires r0 == 500.0 * (100.0 / 2100.0) && r1 == 500.0 * (1050.0 / 3050.0) &&
             r2 == 500.0 * (3525.0 / 5525.0)
    ensures 0.15 <= (r1 - r0) / (x1 - x0) <= 0.16
    ensures 0.12 <= Interior(r0, r1, r2, x1 - x0, x2 - x1) <= 0.14
    ensures 0.05 <= (r2 - r1) / (x2 - x1) <= 0.07
  {
    assert r0 == 500.0 / 21.0 && r1 == 10500.0 / 61.0 && r2 == 70500.0 / 221.0;
  }

  /** Slopes in those bands: the peak is the first, C is the third sample, and there is no D. */
  lemma RisingCampaignLandmarks(slope: seq<real>, adstocked: seq<real>, response: seq<real>)
    requires |slope| == |adstocked| == |response| == 3
    requires 0.15 <= slope[0] <= 0.16 && 0.12 <= slope[1] <= 0.14 && 0.05 <= slope[2] <= 0.07
    ensures PointC(slope, adstocked, response).Some?
    ensures PointC(slope, adstocked, response).value.index == 2
    ensures !(exists j :: 0 <= j < |slope| && slope[j] < SaturationSlope)
    ensures PointD(slope, adstocked, response).None?
  {
    assert MaxOf(slope) == slope[0];
    assert slope[2] < DiminishingThreshold(slope) <= slope[1];
  }
}
