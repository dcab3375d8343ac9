/**
  The "Odds Reality Check" calculator of `app/odds-calculator/page.tsx`.

  A stake and a quote in one of three formats give the potential profit, the
  probability the quote implies, a "true" probability 5% below it that stands
  for the bookmaker's edge, and the expected value of the bet.
 */
module OddsCalculator {
  import opened Common

  /**
    The quote as the calculator reads it for the chosen format: `parseInt`
    for American odds, `parseFloat` for decimal odds, and
    `split("/").map(Number)` for a fraction (`None` for `NaN`).
   */
  datatype Quote =
    | AmericanQuote(american: Option<int>)
    | DecimalQuote(decimal: Option<real>)
    | FractionalQuote(numerator: Option<real>, denominator: Option<real>)

  datatype OddsFormat = AmericanFormat | DecimalFormat | FractionalFormat

  /** The record the page shows; probabilities in per cent, before `toFixed(2)`. */
  datatype OddsResult = OddsResult(
    betAmount: real,
    potentialWin: real,
    impliedProbability: real,
    trueProbability: real,
    expectedValue: real,
    isPositiveEV: bool)

  /** `trueProbability = impliedProbability * 0.95` */
  const EdgeFactor: real := 0.95

  /**
    Profit on a winning stake of 1 and the implied probability for a quote, or
    `None` when a number is missing or a division by zero makes them non-finite.
   */
  function Price(q: Quote): (r: Option<(real, real)>)
    ensures r.Some? ==> r.value.1 != 0.0
  {
    match q
    case AmericanQuote(None) => None
    case AmericanQuote(Some(a)) =>
      if a > 0 then Some((a as real / 100.0, 100.0 / (a as real + 100.0)))
      else if a == 0 then None
      else
        var m := -a as real;
        Some((100.0 / m, m / (m + 100.0)))
    case DecimalQuote(None) => None
    case DecimalQuote(Some(d)) =>
      if d == 0.0 then None else Some((d - 1.0, 1.0 / d))
    case FractionalQuote(Some(n), Some(den)) =>
      if den == 0.0 || n + den == 0.0 then None
      else Some((n / den, den / (n + den)))
    case FractionalQuote(_, _) => None
  }

  /** The record for a stake and a price: the figures `calculateOdds` derives after reading the quote. */
  function Record(stake: real, perUnit: real, implied: real): (r: OddsResult)
    ensures r.betAmount == stake
    ensures r.isPositiveEV <==> r.expectedValue > 0.0
    ensures r.trueProbability == EdgeFactor * r.impliedProbability
  {
    var potentialWin := stake * perUnit;
    var trueProbability := implied * EdgeFactor;
    var ev := potentialWin * trueProbability - stake * (1.0 - trueProbability);
    OddsResult(stake, potentialWin, implied * 100.0, trueProbability * 100.0, ev, ev > 0.0)
  }

  /**
    `calculateOdds`. `None` stands for a record whose figures are `NaN` or
    infinite: a missing number, American odds of 0, decimal odds of 0, or a
    fraction whose denominator, or numerator plus denominator, is 0.
   */
  function CalculateOdds(amount: Option<real>, q: Quote): (r: Option<OddsResult>)
    ensures r.Some? <==> amount.Some? && Price(q).Some?
    ensures r.Some? ==> r.value.betAmount == amount.value
  {
    if amount.None? || Price(q).None? then None
    else Some(Record(amount.value, Price(q).value.0, Price(q).value.1))
  }

  /** A profit of `x / y` per unit is fair for the probability `y / (x + y)`. */
  lemma FairQuotient(x: real, y: real)
    requires y != 0.0 && x + y != 0.0
    ensures (x / y) * (y / (x + y)) == 1.0 - y / (x + y)
  {
    var s := x + y;
    assert (x / y) * (y / s) == x / s;
    assert s / s == 1.0;
    assert (s - y) / s == s / s - y / s;
  }

  /** The profit per unit and the implied probability describe the same payout: profit = (1 - p) / p. */
  lemma PriceIsFair(q: Quote)
    requires Price(q).Some?
    ensures Price(q).value.0 * Price(q).value.1 == 1.0 - Price(q).value.1
  {
    match q
    case AmericanQuote(Some(a)) => AmericanPriceIsFair(a);
    case DecimalQuote(Some(d)) => FairQuotient(d - 1.0, 1.0);
    case FractionalQuote(Some(n), Some(den)) => FairQuotient(n, den);
  }

  lemma AmericanPriceIsFair(a: int)
    requires a != 0
    ensures var (perUnit, implied) := Price(AmericanQuote(Some(a))).value;
            perUnit * implied == 1.0 - implied
  {
    if a > 0 {
      FairQuotient(a as real, 100.0);
    } else {
      var m := -a as real;
      FairQuotient(100.0, m);
      assert 100.0 + m == m + 100.0;
    }
  }

  /** The potential win is the stake times the fair profit for the implied probability. */
  lemma PotentialWinMatchesImplied(amount: Option<real>, q: Quote)
    requires CalculateOdds(amount, q).Some?
    ensures var r := CalculateOdds(amount, q).value;
            r.potentialWin * r.impliedProbability == 100.0 * r.betAmount * (1.0 - r.impliedProbability / 100.0)
  {
    PriceIsFair(q);
    var (perUnit, implied) := Price(q).value;
    var stake := amount.value;
    assert stake * perUnit * (implied * 100.0) == 100.0 * stake * (perUnit * implied);
  }

  /**
    Whatever the quote, the expected value is a loss of 5% of the stake, so a
    bet is marked positive exactly when the stake is negative.
   */
  lemma ExpectedValueIsFivePercentLoss(amount: Option<real>, q: Quote)
    requires CalculateOdds(amount, q).Some?
    ensures CalculateOdds(amount, q).value.expectedValue == -0.05 * amount.value
    ensures CalculateOdds(amount, q).value.isPositiveEV <==> amount.value < 0.0
  {
    PriceIsFair(q);
    FairRecordLoses(amount.value, Price(q).value.0, Price(q).value.1);
  }

  /** At a fair price, shading the probability by 5% costs exactly 5% of the stake. */
  lemma FairRecordLoses(stake: real, perUnit: real, implied: real)
    requires perUnit * implied == 1.0 - implied
    ensures Record(stake, perUnit, implied).expectedValue == -0.05 * stake
  {
    var tp := implied * EdgeFactor;
    calc {
      stake * perUnit * tp - stake * (1.0 - tp);
      stake * EdgeFactor * (perUnit * implied) - stake * (1.0 - tp);
      stake * EdgeFactor * (1.0 - implied) - stake + stake * implied * EdgeFactor;
      -0.05 * stake;
    }
  }

  /** Quotes of real odds (American odds other than 0, decimal above 1, a positive fraction) imply a probability strictly between 0 and 1. */
  lemma ImpliedProbabilityInRange(q: Quote)
    requires match q
             case AmericanQuote(a) => a.Some? && a.value != 0
             case DecimalQuote(d) => d.Some? && d.value > 1.0
             case FractionalQuote(n, den) => n.Some? && den.Some? && n.value > 0.0 && den.value > 0.0
    ensures Price(q).Some? && 0.0 < Price(q).value.1 < 1.0
    ensures Price(q).value.0 > 0.0
  {
    match q
    case AmericanQuote(Some(a)) =>
      if a > 0 {
        ShareBelowOne(100.0, a as real);
      } else {
        ShareBelowOne(-a as real, 100.0);
      }
    case DecimalQuote(Some(d)) =>
      ShareBelowOne(1.0, d - 1.0);
    case FractionalQuote(Some(n), Some(den)) =>
      ShareBelowOne(den, n);
  }

  /** A positive part of a positive whole is a fraction strictly between 0 and 1. */
  lemma ShareBelowOne(part: real, rest: real)
    requires part > 0.0 && rest > 0.0
    ensures 0.0 < part / (part + rest) < 1.0
    ensures part / (rest + part) == part / (part + rest)
  {
    ScaleLess(part / (part + rest), 1.0, part + rest);
  }

  /** `handleOddsFormatChange`: the example quote each format starts with ("+150", "2.5", "3/2"). */
  function DefaultQuote(format: OddsFormat): (q: Quote)
    ensures format == AmericanFormat <==> q.AmericanQuote?
    ensures format == DecimalFormat <==> q.DecimalQuote?
  {
    match format
    case AmericanFormat => AmericanQuote(Some(150))
    case DecimalFormat => DecimalQuote(Some(2.5))
    case FractionalFormat => FractionalQuote(Some(3.0), Some(2.0))
  }

  /** The three example quotes are the same price: profit 1.5 per unit, implied probability 40%. */
  lemma DefaultQuotesAgree(amount: real, format: OddsFormat)
    ensures CalculateOdds(Some(amount), DefaultQuote(format))
            == CalculateOdds(Some(amount), DefaultQuote(AmericanFormat))
    ensures Price(DefaultQuote(format)) == Some((1.5, 0.4))
  {
  }

  /** An American quote and the decimal and fractional quotes of the same price give the same record. */
  lemma FormatsAgree(amount: Option<real>, a: int)
    requires a != 0
    ensures a > 0 ==>
      CalculateOdds(amount, AmericanQuote(Some(a)))
      == CalculateOdds(amount, DecimalQuote(Some(a as real / 100.0 + 1.0)))
      == CalculateOdds(amount, FractionalQuote(Some(a as real), Some(100.0)))
    ensures a < 0 ==>
      CalculateOdds(amount, AmericanQuote(Some(a)))
      == CalculateOdds(amount, DecimalQuote(Some(100.0 / (-a) as real + 1.0)))
      == CalculateOdds(amount, FractionalQuote(Some(100.0), Some((-a) as real)))
  {
    if a > 0 {
      PositivePriceAgrees(a);
      var x := a as real;
      var american := AmericanQuote(Some(a));
      SamePriceSameRecord(amount, american, DecimalQuote(Some(x / 100.0 + 1.0)));
      SamePriceSameRecord(amount, american, FractionalQuote(Some(x), Some(100.0)));
    } else {
      NegativePriceAgrees(a);
      var m := (-a) as real;
      var american, decimal := AmericanQuote(Some(a)), DecimalQuote(Some(100.0 / m + 1.0));
      var fractional := FractionalQuote(Some(100.0), Some(m));
      SamePriceSameRecord(amount, american, decimal);
      SamePriceSameRecord(amount, american, fractional);
    }
  }

  /** The record depends on the quote only through its price. */
  lemma SamePriceSameRecord(amount: Option<real>, q1: Quote, q2: Quote)
    requires Price(q1) == Price(q2)
    ensures CalculateOdds(amount, q1) == CalculateOdds(amount, q2)
  {
  }

  lemma PositivePriceAgrees(a: int)
    requires a > 0
    ensures Price(AmericanQuote(Some(a))) == Price(DecimalQuote(Some(a as real / 100.0 + 1.0)))
    ensures Price(AmericanQuote(Some(a))) == Price(FractionalQuote(Some(a as real), Some(100.0)))
  {
    var x := a as real;
    assert 1.0 / (x / 100.0 + 1.0) == 100.0 / (x + 100.0);
  }

  lemma NegativePriceAgrees(a: int)
    requires a < 0
    ensures Price(AmericanQuote(Some(a))) == Price(DecimalQuote(Some(100.0 / (-a) as real + 1.0)))
    ensures Price(AmericanQuote(Some(a))) == Price(FractionalQuote(Some(100.0), Some((-a) as real)))
  {
    var m := (-a) as real;
    assert m + 100.0 == 100.0 + m;
    assert 100.0 / m + 1.0 == (100.0 + m) / m;
    assert 1.0 / ((100.0 + m) / m) == m / (100.0 + m);
  }
}
