# Media response curve — a Dafny model of the numeric pipeline

This project models the numeric core of the media response-curve tool
(`media_response_curve/app.py`) and proves properties of it. For one campaign's
spend series the tool:

1. adstocks the spend. A running carry-over keeps a fraction `decay` of the
   previous adstocked value: `adstocked[i] = spend[i] + decay * adstocked[i-1]`.
2. saturates every adstocked value with the Hill curve `x^p / (x^p + penetration^p)`.
3. scales the result by the channel's effectiveness to get the modelled response.
4. takes the slope of response against adstocked spend with `np.gradient`, and
   from it the point elasticity `slope * adstocked / response` (0 where the
   response is 0).
5. marks three landmarks on the curve:
   - A, the inflection, at adstocked spend equal to the penetration;
   - C, diminishing returns, at the first sample whose slope is below half the
     largest slope;
   - D, saturation, at the first sample whose slope is below 0.01.
6. maps the average elasticity to one of five pieces of spending advice.

Everything is over Dafny's exact `real`. Modules:

- `Wrappers`: `Option` and `Result`.
- `RealArith`: small facts about products and quotients of reals.
- `Powers`: natural powers `Pow`, and `ValidPower`. `ValidPower` gives the
  facts about `x ↦ x^p` that the saturation curve needs: zero at zero, strictly
  increasing on the non-negative reals.
- `Adstock`: the specification function `Adstocked` and the loop
  `ComputeAdstockSeries`, which is proved to compute it.
- `Saturation`: the Hill ratio and the saturation function.
- `Response`: `ComputeResponseSeries`, which calls the adstock loop, and point A.
- `Slopes`: `np.gradient` for 1-D data with sample coordinates, the elasticity,
  and `compute_elasticity`.
- `Landmarks`: the first-match searches behind points C and D.
- `Recommendation`: the mean and the five advice tiers.
- `Pipeline`: the whole analysis of one campaign (`AnalyzeCampaign`).

## Model

| member | source | states |
|---|---|---|
| Adstock.Adstocked | media_response_curve/app.py:10-15 | The adstocked series has one value per spend value. |
| Adstock.AdstockedAt | media_response_curve/app.py:12-15 | Each adstocked value is its spend plus decay times the previous adstocked value; the carry-over before the first value is 0. |
| Adstock.AdstockedRecurrence | media_response_curve/app.py:11-15 | `adstocked[0] == spend[0]`, and `adstocked[i] == spend[i] + decay * adstocked[i-1]` for every later i. |
| Adstock.AdstockedExtend | media_response_curve/app.py:12-15 | Scanning one more spend value appends exactly one step, computed from the last adstocked value as carry-over. |
| Adstock.ComputeAdstockSeries | media_response_curve/app.py:8-16 | The loop's output equals the specification `Adstocked`. It has the input's length, starts with the first spend, and satisfies the recurrence at every later index. |
| Adstock.ZeroSpendZeroAdstock | media_response_curve/app.py:11-15 | All-zero spend gives all-zero adstock. |
| Adstock.AdstockedDominatesSpend | media_response_curve/app.py:13 | With non-negative spend and decay, `adstocked[i] >= spend[i] >= 0`. |
| Adstock.AdstockedPositiveAfter | media_response_curve/app.py:13-15 | After a positive spend, adstock stays positive at every later step. |
| Adstock.ConstantSpendRisesBelowFixedPoint | media_response_curve/app.py:12-15 | Constant positive spend c: adstock rises strictly at every step and stays below `c / (1 - decay)`. |
| Adstock.ConstantSpendGap | media_response_curve/app.py:12-15 | Constant positive spend c: after i + 1 periods adstock falls short of the fixed point `c / (1 - decay)` by exactly `decay^(i+1) * c / (1 - decay)`, so the series converges to that fixed point. |
| Adstock.DecayedSumSnoc | media_response_curve/app.py:13 | Appending a spend value to a geometrically weighted sum multiplies the earlier sum by decay and adds the new value. |
| Adstock.AdstockedClosedForm | media_response_curve/app.py:11-15 | Every adstocked value is the sum of all spend so far, with the spend of k steps ago weighted by `decay^k`. |
| Adstock.ImpulseDecays | media_response_curve/app.py:9-15 | A single impulse c followed by zero spend is `c * decay^k` after k steps. |
| Adstock.HalfLifeHalvesImpulse | media_response_curve/app.py:9 | If `decay^h == 1/2`, an impulse is exactly halved h steps later. This is what the half-life means. |
| Adstock.HalfLifeGivesValidDecay | media_response_curve/app.py:9 | A positive retention with a whole-step half-life h >= 1 lies in (0, 1). |
| Adstock.AdstockedMonotoneInDecay | media_response_curve/app.py:9-15 | With non-negative spend, a larger decay (a longer half-life) never gives smaller adstock. |
| Adstock.SlowerDecayCarriesMore | media_response_curve/app.py:9-15 | After a positive spend, a strictly larger decay carries strictly more over at every later step. |
| Powers.PowStrictlyIncreasing | media_response_curve/app.py:19 | A positive natural power is strictly increasing on the non-negative reals. |
| Powers.NaturalExponentIsValidPower | media_response_curve/app.py:18-19 | Every whole Hill exponent p >= 1 meets `ValidPower`. |
| Powers.IdentityIsValidPower | media_response_curve/app.py:18-19 | The Hill power p = 1 meets `ValidPower`. |
| Saturation.HillRatio | media_response_curve/app.py:19 | For `a >= 0` and `b > 0`: `a / (a + b)` lies in [0, 1), is 0 exactly when a is 0, and times `a + b` gives back a. |
| Saturation.HillRatioHalf | media_response_curve/app.py:19 | The ratio is 1/2 exactly when `a == b`, and below 1/2 exactly when `a < b`. |
| Saturation.HillRatioIncreasing | media_response_curve/app.py:19 | The ratio is strictly increasing in a. |
| Saturation.Saturate | media_response_curve/app.py:18-19 | Saturation lies in [0, 1), is 0 exactly at zero spend, and is 1/2 at the penetration. |
| Saturation.SaturateHalfAtPenetration | media_response_curve/app.py:18-19 | Saturation is 1/2 exactly at the penetration, and below 1/2 exactly before it. |
| Saturation.SaturateMonotone | media_response_curve/app.py:18-19 | Saturation orders two spends exactly as the spends are ordered, strictly and non-strictly. |
| Response.AdstockedNonNegative | media_response_curve/app.py:11-15 | Non-negative spend gives a non-negative adstocked series. |
| Response.ScaledResponse | media_response_curve/app.py:23-24 | Response is effectiveness times saturation, pointwise. Each value lies in [0, effectiveness) and is 0 exactly where adstock is 0. Responses are ordered exactly as their adstocked spends. |
| Response.ComputeResponseSeries | media_response_curve/app.py:21-25 | The second result is exactly the adstocked series. The response has the spend's length and is the scaled saturation of that series. |
| Response.PointA | media_response_curve/app.py:93-94 | Point A is `(penetration, effectiveness / 2)`. |
| Slopes.Gradient | media_response_curve/app.py:28 | The gradient fails exactly when the lengths differ, there are fewer than 2 samples, or a spacing it divides by is 0. Each failure has its own reason. On success it has one slope per sample: the one-sided difference quotients at the two ends, and numpy's second-order non-uniform formula in between. |
| Slopes.InteriorCombined | media_response_curve/app.py:28 | numpy's three weights combine into `(hs²·next + (hd²−hs²)·cur − hd²·prev) / (hs·hd·(hs+hd))`. |
| Slopes.InteriorEvenSpacing | media_response_curve/app.py:28 | With equal spacing the interior formula is the central difference. |
| Slopes.InteriorOnLine | media_response_curve/app.py:28 | On three samples of a line, the interior formula gives the line's slope. |
| Slopes.InteriorOnParabola | media_response_curve/app.py:28 | On three samples of x², the interior formula gives the exact derivative 2·x (second-order accuracy). |
| Slopes.SecantOnLine | media_response_curve/app.py:28 | On a line, the end-point difference quotient is the line's slope. |
| Slopes.GradientExactOnLine | media_response_curve/app.py:28 | On samples of a line, every slope the gradient reports, ends included, is the line's slope. |
| Slopes.GradientExactOnParabola | media_response_curve/app.py:28 | On samples of x², every interior slope is exactly 2·x. |
| Slopes.GradientEvenSpacing | media_response_curve/app.py:28 | On evenly spaced coordinates the gradient succeeds and its interior is the central difference. This is numpy's uniform-spacing branch. |
| Slopes.ThreeSampleGradient | media_response_curve/app.py:28 | With three well-spaced samples the gradient is the two end quotients around the one interior estimate. |
| Slopes.TwoSamplesShareSlope | media_response_curve/app.py:28 | With two samples, both slopes are the single difference quotient. |
| Slopes.IncreasingIsWellSpaced | media_response_curve/app.py:28 | Strictly increasing coordinates leave no zero divisor. |
| Slopes.Elasticity | media_response_curve/app.py:29-30 | One value per sample. Where response is 0 the elasticity is 0. Elsewhere, elasticity times response equals slope times adstocked spend. |
| Slopes.ComputeElasticity | media_response_curve/app.py:27-31 | Fails exactly when the gradient fails, and with the gradient's reason. Otherwise it returns the gradient and the elasticity built from it. |
| Slopes.ProportionalResponseHasUnitElasticity | media_response_curve/app.py:27-31 | A response proportional to adstocked spend has elasticity exactly 1 wherever spend is non-zero, and 0 where it is 0. |
| Landmarks.MaxOf | media_response_curve/app.py:97 | The maximum is one of the slopes, and no slope exceeds it. |
| Landmarks.FirstBelowFrom | media_response_curve/app.py:98 | Finds the first index at or after `from` whose value is below the threshold. Returns None exactly when every value from there on is at least the threshold. |
| Landmarks.FirstBelow | media_response_curve/app.py:98 | A found index is in range, its value is below the threshold, and every earlier value is not. None exactly when no value is below the threshold. |
| Landmarks.At | media_response_curve/app.py:99-100 | A landmark carries the found index with the adstocked spend and response at that index; no index, no landmark. |
| Landmarks.PointC | media_response_curve/app.py:96-100 | C is the first sample whose slope is below half the largest slope, with its spend and response. It is None exactly when no slope is below that threshold. |
| Landmarks.PointD | media_response_curve/app.py:102-105 | D is the first sample whose slope is below 0.01, with its spend and response. It is None exactly when no slope is below 0.01. |
| Landmarks.FirstMatchIndex | media_response_curve/app.py:98 | The search as written: defined only when a match exists, and it then returns the first match. |
| Landmarks.TwoSamplesHaveNoPointC | media_response_curve/app.py:96-98 | Two samples with equal positive slopes have no slope below half the peak, so the search as written has no index to take. |
| Landmarks.FirstBelowAntitone | media_response_curve/app.py:98-103 | Raising the threshold can only bring the first match forward. |
| Landmarks.DiminishingNoLaterThanSaturation | media_response_curve/app.py:96-105 | When half the peak slope is at least 0.01, a point D implies a point C, and C comes no later. |
| Landmarks.PointCIsPastThePeak | media_response_curve/app.py:97-98 | With a positive peak slope, the slope at C is below the peak. |
| Landmarks.PointCExistsForFallingCurve | media_response_curve/app.py:97-98 | When every slope is negative, C always exists. |
| Landmarks.DiminishedFromPointCOn | media_response_curve/app.py:97-98 | On a curve whose slope never rises, every sample from C on stays below the threshold. |
| Recommendation.Recommend | media_response_curve/app.py:141-150 | Each tier holds exactly on its band: above 1, (0.8, 1], (0.5, 0.8], (0.1, 0.5], and at most 0.1. |
| Recommendation.RecommendMonotone | media_response_curve/app.py:141-150 | A higher average elasticity is never advised to spend less. |
| Recommendation.Mean | media_response_curve/app.py:139 | The mean times the number of values is their sum. |
| Recommendation.SumBounds | media_response_curve/app.py:139 | Values in [lo, hi] sum to between n·lo and n·hi. |
| Recommendation.MeanBounds | media_response_curve/app.py:139 | The mean of values in [lo, hi] lies in [lo, hi]. |
| Recommendation.UnitElasticityMaintains | media_response_curve/app.py:139-144 | Elasticities that are all 1 average to 1, and the advice is to maintain spend. |
| Pipeline.AnalyzeCampaign | media_response_curve/app.py:80-150 | The analysis fails exactly when the gradient fails, and with its reason. Otherwise it reports the adstocked series, response, slope, elasticity, A, C, D, the mean elasticity and the advice, each equal to its specification. |
| Pipeline.SteadySpendIsAnalysed | media_response_curve/app.py:80-87 | Steady positive spend over two or more periods always yields a slope. |
| Pipeline.SinglePeriodIsInsufficient | media_response_curve/app.py:80-87 | A single period of spend has too little data for a slope. |
| Pipeline.SteadyTwoPeriodCampaignHasNoPointC | media_response_curve/app.py:80-98 | Every campaign of two periods with the same positive spend, under any decay, penetration, effectiveness and power, gets a slope from the gradient. No slope is below half the peak, so it has no point C. |
| Pipeline.RisingPairHasNoPointC | media_response_curve/app.py:96-98 | Two samples whose spend and response both rise get a slope from the gradient, and none of it is below half the peak, so there is no point C. |
| Pipeline.CampaignWithPointCButNoPointD | media_response_curve/app.py:80-103 | Spend 100, 1000, 3000 (decay 0.5, p = 1, penetration 2000, effectiveness 500) gets a slope from the gradient. Point C exists, at the third sample, so the search at :98 succeeds. No slope is below 0.01, so the campaign has no point D. |
| Pipeline.RisingCampaignLandmarks | media_response_curve/app.py:96-105 | Three slopes in the bands [0.15, 0.16], [0.12, 0.14] and [0.05, 0.07] put point C at the third sample and leave no point D. |
| Pipeline.ZeroSpendIsDegenerate | media_response_curve/app.py:80-87 | A campaign with no spend has zero spacing, so no slope. |

## Left out

- The Streamlit page, sidebar inputs and file upload (app.py:35-55) are user interface.
- CSV reading, column checks, date parsing, sorting and campaign filtering (app.py:59-77) are left out. The model receives an already-ordered spend series, and spend is taken to be non-negative.
- The data-frame column assignments, plots, labels and data table (app.py:83-89, 107-136, 151-153) are presentation. So are the texts of the advice messages; only their tier is modelled.
- Floating point is not modelled. Arithmetic is exact over `real`. `Gradient` returns `Err(DegenerateSpacing)` when a spacing it divides by is zero: two neighbouring coordinates are equal, or the two neighbours of an interior sample are equal. On exactly those inputs the source does not get a usable result either. `np.gradient` (app.py:28) runs under numpy's default error settings, so it warns and returns a NaN slope: equal adstocked spend always gives equal response, so an end slope is 0/0 and an interior one involves inf − inf or inf · 0. `slope.max()` (app.py:97) is then NaN, no slope compares below it, and the indexing at app.py:98 raises IndexError.
- `0.5 ** (1 / half_life)` is a real power that `real` arithmetic cannot express. `decay` is a parameter in (0, 1), the range that formula gives for every positive half-life. `HalfLifeHalvesImpulse` and `HalfLifeGivesValidDecay` state its meaning for whole-step half-lives.
- The Hill power `x ** p` is a function parameter constrained by `ValidPower`: zero at zero, and strictly increasing on the non-negative reals. Whole exponents are proved to meet it. Fractional exponents, such as the default p = 0.5, are taken on trust to meet it too.
- numpy's uniform-spacing branch of `np.gradient` is not modelled separately. The non-uniform formula is used throughout, and `GradientEvenSpacing` proves it equals the central difference when spacings are equal. numpy's `edge_order=2` option is not used by the source and is not modelled.
- Landmarks.PointC: requires a non-empty slope series. `slope.max()` fails on an empty one, and a slope series from a successful gradient always has at least two values.
- Recommendation.Mean: requires a non-empty series. pandas' skipping of NaN values is not modelled, because the model produces no NaN.

## Findings

| source | as written | input that shows it | evidently intended | confidence | as-written member | corrected member |
|---|---|---|---|---|---|---|
| media_response_curve/app.py:97-98 | `np.where(slope < slope_threshold)[0][0]` indexes the first match without checking that one exists. | Any campaign of two periods with the same positive spend, e.g. spend 100, 100 with decay 0.5, p = 1, penetration 2000, effectiveness 500. Response rises, both slopes are the same difference quotient, neither is below half the peak, and the indexing raises IndexError. | Report that point C is not on the curve. | high, not executed | Landmarks.FirstMatchIndex, Pipeline.SteadyTwoPeriodCampaignHasNoPointC | Landmarks.PointC |
| media_response_curve/app.py:103 | `np.where(slope < 0.01)[0][0]` indexes the first match without checking that one exists. | Spend 100, 1000, 3000 with decay 0.5, p = 1, penetration 2000, effectiveness 500. Adstock is 100, 1050, 3525, and the slopes are about 0.156, 0.129 and 0.059. Point C exists at the third sample, so the program gets past app.py:98. No slope is below 0.01, so the indexing at app.py:103 raises IndexError. | Report that point D is not on the curve. | high, not executed | Landmarks.FirstMatchIndex, Pipeline.CampaignWithPointCButNoPointD | Landmarks.PointD |
