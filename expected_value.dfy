/**
  The expected-value calculator of
  `components/visualizations/expected-value-calculator.tsx`.

  A stake, decimal odds and the user's own estimate of the win probability
  (a slider from 1 to 99 per cent) give the expected value of the bet, its
  return on the stake, the break-even probability the odds imply, and the
  user's edge over it.
 */
module ExpectedValue {
  import opened Common

  datatype EVResult = EVResult(
    expectedValue: real,
    roi: Option<real>,          // `NaN` (`None`) when the stake is 0
    breakEvenProbability: real,
    edgePercentage: real)

  /** The figures for a stake, decimal odds and a win probability in per cent. */
  function Figures(stake: real, odds: real, winProbability: real): (r: EVResult)
    requires odds >= 1.0
    ensures r.roi.None? <==> stake == 0.0
  {
    var probability := winProbability / 100.0;
    var impliedProbability := 1.0 / odds;
    var potentialProfit := stake * (odds - 1.0);
    var ev := probability * potentialProfit - (1.0 - probability) * stake;
    var returnOnInvestment := if stake == 0.0 then None else Some(ev / stake * 100.0);
    EVResult(ev, returnOnInvestment, impliedProbability * 100.0,
             (probability - impliedProbability) * 100.0)
  }

  /**
    `calculateEV`: `None` when it returns early, because the stake or the odds
    do not read as numbers or the odds are below 1; the page then keeps what it
    showed before.
   */
  function CalculateEV(amount: Option<real>, odds: Option<real>, winProbability: real): (r: Option<EVResult>)
    ensures r.Some? <==> amount.Some? && odds.Some? && odds.value >= 1.0
    ensures r.Some? ==> (r.value.roi.None? <==> amount.value == 0.0)
  {
    if amount.None? || odds.None? || odds.value < 1.0 then None
    else Some(Figures(amount.value, odds.value, winProbability))
  }

  /** "Profitable" only for an expected value that is present and non-zero and at least 0. */
  predicate ShowsProfitable(expectedValue: Option<real>)
  {
    expectedValue.Some? && expectedValue.value != 0.0 && expectedValue.value >= 0.0
  }

  /** The label reads "Profitable" exactly for a positive expected value. */
  lemma ProfitableIffPositive(expectedValue: Option<real>)
    ensures ShowsProfitable(expectedValue) <==> expectedValue.Some? && expectedValue.value > 0.0
  {
  }

  /** The expected value is the stake times `p * odds - 1`, and the ROI is that per cent. */
  lemma ExpectedValueFormula(amount: Option<real>, odds: Option<real>, winProbability: real)
    requires CalculateEV(amount, odds, winProbability).Some?
    ensures var r := CalculateEV(amount, odds, winProbability).value;
            var p := winProbability / 100.0;
            r.expectedValue == amount.value * (p * odds.value - 1.0)
            && (r.roi.Some? ==> r.roi.value == (p * odds.value - 1.0) * 100.0)
  {
    FiguresFormula(amount.value, odds.value, winProbability);
  }

  lemma FiguresFormula(stake: real, d: real, winProbability: real)
    requires d >= 1.0
    ensures var r := Figures(stake, d, winProbability);
            var p := winProbability / 100.0;
            r.expectedValue == stake * (p * d - 1.0)
            && (r.roi.Some? ==> r.roi.value == (p * d - 1.0) * 100.0)
  {
    var r := Figures(stake, d, winProbability);
    var p := winProbability / 100.0;
    var margin := p * d - 1.0;
    var ev := p * (stake * (d - 1.0)) - (1.0 - p) * stake;
    assert r.expectedValue == ev;
    ExpandValue(stake, d, p);
    assert r.expectedValue == stake * margin;
    if stake != 0.0 {
      CancelStake(stake, margin);
      assert r.expectedValue / stake == margin;
    }
  }

  lemma ExpandValue(stake: real, d: real, p: real)
    ensures p * (stake * (d - 1.0)) - (1.0 - p) * stake == stake * (p * d - 1.0)
  {
  }

  lemma CancelStake(stake: real, margin: real)
    requires stake != 0.0
    ensures (stake * margin) / stake == margin
  {
  }

  /**
    The break-even probability is 100 over the odds, in per cent, so odds of at
    least 1 put it above 0 and at most 100.
   */
  lemma BreakEvenInRange(amount: Option<real>, odds: Option<real>, winProbability: real)
    requires CalculateEV(amount, odds, winProbability).Some?
    ensures CalculateEV(amount, odds, winProbability).value.breakEvenProbability == 100.0 / odds.value
    ensures 0.0 < CalculateEV(amount, odds, winProbability).value.breakEvenProbability <= 100.0
  {
    var d := odds.value;
    assert (1.0 / d) * d == 1.0;
  }

  /** The edge is the win probability minus the break-even probability, in points. */
  lemma EdgeIsMargin(amount: Option<real>, odds: Option<real>, winProbability: real)
    requires CalculateEV(amount, odds, winProbability).Some?
    ensures var r := CalculateEV(amount, odds, winProbability).value;
            r.edgePercentage == winProbability - r.breakEvenProbability
  {
  }

  /**
    For a positive stake the expected value, the ROI and the edge share their
    sign: the bet is profitable exactly when the estimate beats the break-even
    probability.
   */
  lemma EdgeAndValueAgree(amount: Option<real>, odds: Option<real>, winProbability: real)
    requires CalculateEV(amount, odds, winProbability).Some?
    requires amount.value > 0.0
    ensures var r := CalculateEV(amount, odds, winProbability).value;
            (r.expectedValue > 0.0 <==> r.edgePercentage > 0.0)
            && (r.expectedValue == 0.0 <==> r.edgePercentage == 0.0)
            && (r.roi.Some? && (r.roi.value > 0.0 <==> r.expectedValue > 0.0))
  {
    ExpectedValueFormula(amount, odds, winProbability);
    var stake, d, p := amount.value, odds.value, winProbability / 100.0;
    var margin := p * d - 1.0;
    assert (p - 1.0 / d) * d == margin;
    ScaleLess(0.0, margin, stake);
    ScaleLess(margin, 0.0, stake);
    ScaleLess(0.0, p - 1.0 / d, d);
    ScaleLess(p - 1.0 / d, 0.0, d);
  }
}
