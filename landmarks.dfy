/**
 * The landmark points of a response curve. Point A is computed in closed form;
 * points C (diminishing returns) and D (saturation) are the first samples whose
 * slope drops below a threshold.
 */
module Landmarks {
  import opened Wrappers

  /** The threshold of point D: a slope below one hundredth of a unit of response per unit of spend. */
  const SaturationSlope: real := 0.01

  /** A sample picked out on the curve: its position and its coordinates. */
  datatype Landmark = Landmark(index: nat, adstockedSpend: real, response: real)

  /** The largest slope, as `slope.max()` reports it. */
  function MaxOf(s: seq<real>): (m: real)
    requires |s| > 0
    ensures exists i :: 0 <= i < |s| && s[i] == m
    ensures forall i :: 0 <= i < |s| ==> s[i] <= m
  {
    if |s| == 1 then s[0]
    else
      var rest := MaxOf(s[1..]);
      assert forall i :: 1 <= i < |s| ==> s[i] == s[1..][i - 1];
      if s[0] >= rest then s[0] else rest
  }

  /**
   * The first index at or after `from` whose value is below `threshold`, or None
   * when there is none.
   */
  function FirstBelowFrom(s: seq<real>, threshold: real, from: nat): (r: Option<nat>)
    requires from <= |s|
    ensures r.Some? ==> from <= r.value < |s| && s[r.value] < threshold &&
                        forall j :: from <= j < r.value ==> s[j] >= threshold
    ensures r.None? <==> forall j :: from <= j < |s| ==> s[j] >= threshold
    decreases |s| - from
  {
    if from == |s| then None
    else if s[from] < threshold then Some(from)
    else FirstBelowFrom(s, threshold, from + 1)
  }

  /**
   * `np.where(s < threshold)[0][0]`: the first index whose value is below the
   * threshold. Where numpy's indexing fails because nothing matches, the result
   * is None.
   */
  function FirstBelow(s: seq<real>, threshold: real): (r: Option<nat>)
    ensures r.Some? ==> r.value < |s| && s[r.value] < threshold &&
                        forall j :: 0 <= j < r.value ==> s[j] >= threshold
    ensures r.None? <==> forall j :: 0 <= j < |s| ==> s[j] >= threshold
  {
    FirstBelowFrom(s, threshold, 0)
  }

  /** The sample at a found index, read off the adstocked and response series. */
  function At(found: Option<nat>, adstocked: seq<real>, response: seq<real>): (p: Option<Landmark>)
    requires |adstocked| == |response|
    requires found.Some? ==> found.value < |adstocked|
    ensures p.None? <==> found.None?
    ensures p.Some? ==> p.value == Landmark(found.value, adstocked[found.value], response[found.value])
  {
    match found
    case None => None
    case Some(i) => Some(Landmark(i, adstocked[i], response[i]))
  }

  /** Half the largest slope: below it the curve shows diminishing returns. */
  function DiminishingThreshold(slope: seq<real>): real
    requires |slope| > 0
  {
    MaxOf(slope) * 0.5
  }

  /**
   * Point C: the first sample whose slope is below half the largest slope; None
   * when every slope is at least that.
   */
  function PointC(slope: seq<real>, adstocked: seq<real>, response: seq<real>): (c: Option<Landmark>)
    requires |slope| == |adstocked| == |response| > 0
    ensures c.Some? ==>
              var i := c.value.index;
              i < |slope| && slope[i] < DiminishingThreshold(slope) &&
              (forall j :: 0 <= j < i ==> slope[j] >= DiminishingThreshold(slope)) &&
              c.value.adstockedSpend == adstocked[i] && c.value.response == response[i]
    ensures c.None? <==> forall j :: 0 <= j < |slope| ==> slope[j] >= DiminishingThreshold(slope)
  {
    At(FirstBelow(slope, DiminishingThreshold(slope)), adstocked, response)
  }

  /**
   * Point D: the first sample whose slope is below 0.01; None when every slope is
   * at least that.
   */
  function PointD(slope: seq<real>, adstocked: seq<real>, response: seq<real>): (d: Option<Landmark>)
    requires |slope| == |adstocked| == |response|
    ensures d.Some? ==>
              var i := d.value.index;
              i < |slope| && slope[i] < SaturationSlope &&
              (forall j :: 0 <= j < i ==> slope[j] >= SaturationSlope) &&
              d.value.adstockedSpend == adstocked[i] && d.value.response == response[i]
    ensures d.None? <==> forall j :: 0 <= j < |slope| ==> slope[j] >= SaturationSlope
  {
    At(FirstBelow(slope, SaturationSlope), adstocked, response)
  }

  /**
   * The index search as the source writes it, `np.where(s < threshold)[0][0]`: the
   * first match, defined only when some value is below the threshold; on any other
   * series the indexing fails.
   */
  function FirstMatchIndex(s: seq<real>, threshold: real): (i: nat)
    requires exists j :: 0 <= j < |s| && s[j] < threshold
    ensures i < |s| && s[i] < threshold
    ensures forall j :: 0 <= j < i ==> s[j] >= threshold
  {
    FirstBelow(s, threshold).value
  }

  /**
   * A campaign with two samples and a rising response has no point C: both end
   * slopes are the same difference quotient, so neither is below half the peak and
   * the search as written has nothing to index.
   */
  lemma TwoSamplesHaveNoPointC(slope: seq<real>, adstocked: seq<real>, response: seq<real>)
    requires |slope| == |adstocked| == |response| == 2
    requires slope[0] == slope[1] > 0.0
    ensures !(exists j :: 0 <= j < |slope| && slope[j] < DiminishingThreshold(slope))
    ensures PointC(slope, adstocked, response).None?
  {
    assert MaxOf(slope) == slope[0];
  }

  /** Raising the threshold can only bring the first match forward. */
  lemma FirstBelowAntitone(s: seq<real>, low: real, high: real)
    requires low <= high && FirstBelow(s, low).Some?
    ensures FirstBelow(s, high).Some?
    ensures FirstBelow(s, high).value <= FirstBelow(s, low).value
  {
    var i := FirstBelow(s, low).value;
    assert s[i] < high;
  }

  /**
   * When half the peak slope is at least 0.01, a saturation point implies a
   * diminishing-returns point, and the diminishing-returns point comes no later.
   */
  lemma DiminishingNoLaterThanSaturation(slope: seq<real>, adstocked: seq<real>, response: seq<real>)
    requires |slope| == |adstocked| == |response| > 0
    requires SaturationSlope <= DiminishingThreshold(slope)
    requires PointD(slope, adstocked, response).Some?
    ensures PointC(slope, adstocked, response).Some?
    ensures PointC(slope, adstocked, response).value.index <= PointD(slope, adstocked, response).value.index
  {
    FirstBelowAntitone(slope, SaturationSlope, DiminishingThreshold(slope));
  }

  /** With a positive peak slope, point C never sits on a sample with the peak slope. */
  lemma PointCIsPastThePeak(slope: seq<real>, adstocked: seq<real>, response: seq<real>)
    requires |slope| == |adstocked| == |response| > 0 && MaxOf(slope) > 0.0
    requires PointC(slope, adstocked, response).Some?
    ensures slope[PointC(slope, adstocked, response).value.index] < MaxOf(slope)
  {
  }

  /** When every slope is negative, point C always exists: the peak itself is below half the peak. */
  lemma PointCExistsForFallingCurve(slope: seq<real>, adstocked: seq<real>, response: seq<real>)
    requires |slope| == |adstocked| == |response| > 0 && MaxOf(slope) < 0.0
    ensures PointC(slope, adstocked, response).Some?
  {
    var k :| 0 <= k < |slope| && slope[k] == MaxOf(slope);
    assert slope[k] < DiminishingThreshold(slope);
  }

  /**
   * On a curve whose slope never rises (a concave response), every sample from
   * point C on is below the threshold: past C the returns stay diminished.
   */
  lemma {:induction false} DiminishedFromPointCOn(slope: seq<real>, adstocked: seq<real>, response: seq<real>)
    requires |slope| == |adstocked| == |response| > 0
    requires forall j :: 0 < j < |slope| ==> slope[j] <= slope[j - 1]
    requires PointC(slope, adstocked, response).Some?
    ensures forall j :: PointC(slope, adstocked, response).value.index <= j < |slope| ==>
              slope[j] < DiminishingThreshold(slope)
  {
    var i := PointC(slope, adstocked, response).value.index;
    var t := DiminishingThreshold(slope);
    forall j | i <= j < |slope|
      ensures slope[j] < t
    {
      NonIncreasingFrom(slope, i, j);
    }
  }

  lemma {:induction false} NonIncreasingFrom(s: seq<real>, i: nat, j: nat)
    requires forall k :: 0 < k < |s| ==> s[k] <= s[k - 1]
    requires i <= j < |s|
    ensures s[j] <= s[i]
    decreases j - i
  {
    if i < j {
      NonIncreasingFrom(s, i, j - 1);
    }
  }
}
