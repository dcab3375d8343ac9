/**
  The odds converter of `components/visualizations/odds-converter.tsx`.

  Four fields (decimal, American, fractional, implied probability in per
  cent) are kept in step: the conversion effect reads the field of the active
  tab and rewrites the other three, and the probability slider rewrites all
  four. Fractions are reduced with Euclid's algorithm on JavaScript numbers.
 */
module OddsConverter {
  import opened Common

  function Abs(x: int): nat { if x < 0 then -x else x }

  function AbsReal(x: real): real { if x < 0.0 then -x else x }

  /** JavaScript `a % b` on integers: the remainder takes the sign of the dividend. */
  function JsRem(a: int, b: int): (r: int)
    requires b != 0
    ensures Abs(r) < Abs(b)
    ensures a >= 0 ==> r >= 0
    ensures a <= 0 ==> r <= 0
  {
    if a >= 0 then a % Abs(b) else -((-a) % Abs(b))
  }

  /** `a - a % b` is a multiple of `b`. */
  lemma JsRemQuotient(a: int, b: int) returns (q: int)
    requires b != 0
    ensures a == q * b + JsRem(a, b)
  {
    var m := Abs(b);
    var s := if b > 0 then 1 else -1;
    assert m == s * b;
    if a >= 0 {
      q := s * (a / m);
      assert a == m * (a / m) + a % m;
      assert m * (a / m) == s * (a / m) * b;
    } else {
      q := -(s * ((-a) / m));
      assert -a == m * ((-a) / m) + (-a) % m;
      assert m * ((-a) / m) == s * ((-a) / m) * b;
    }
  }

  /** `d` divides `n`, with the quotient as witness. */
  ghost predicate Divides(d: int, n: int)
  {
    exists k: int :: n == d * k
  }

  /** `const gcd = (a, b) => (b ? gcd(b, a % b) : a)` */
  function Gcd(a: int, b: int): int
    decreases Abs(b)
  {
    if b == 0 then a else Gcd(b, JsRem(a, b))
  }

  lemma DividesLinear(d: int, x: int, y: int, q: int)
    requires Divides(d, x) && Divides(d, y)
    ensures Divides(d, q * x + y)
  {
    var kx :| x == d * kx;
    var ky :| y == d * ky;
    assert q * x + y == d * (q * kx + ky);
  }

  /** The result divides both arguments. */
  lemma {:induction false} GcdDivides(a: int, b: int)
    ensures Divides(Gcd(a, b), a) && Divides(Gcd(a, b), b)
    decreases Abs(b)
  {
    if b == 0 {
      assert a == a * 1 && 0 == a * 0;
    } else {
      var r := JsRem(a, b);
      GcdDivides(b, r);
      var q := JsRemQuotient(a, b);
      DividesLinear(Gcd(b, r), b, r, q);
    }
  }

  /** Every common divisor of the arguments divides the result. */
  lemma {:induction false} GcdGreatest(a: int, b: int, c: int)
    requires Divides(c, a) && Divides(c, b)
    ensures Divides(c, Gcd(a, b))
    decreases Abs(b)
  {
    if b != 0 {
      var r := JsRem(a, b);
      var q := JsRemQuotient(a, b);
      DividesLinear(c, b, a, -q);
      assert r == -q * b + a;
      GcdGreatest(b, r, c);
    }
  }

  /** On non-negative arguments the result is non-negative, and zero only for gcd(0, 0). */
  lemma {:induction false} GcdSign(a: int, b: int)
    requires a >= 0 && b >= 0
    ensures Gcd(a, b) >= 0
    ensures Gcd(a, b) == 0 ==> a == 0 && b == 0
    decreases b
  {
    if b != 0 {
      GcdSign(b, JsRem(a, b));
    }
  }

  /** The result is zero only when both arguments are. */
  lemma {:induction false} GcdZero(a: int, b: int)
    ensures Gcd(a, b) == 0 ==> a == 0 && b == 0
    decreases Abs(b)
  {
    if b != 0 {
      GcdZero(b, JsRem(a, b));
    }
  }

  /** The divisor used to reduce a numerator over 100 is at least 1 for numerators from 0 up. */
  lemma GcdWithHundred(n: int)
    requires n >= 0
    ensures Gcd(n, 100) >= 1
    ensures Divides(Gcd(n, 100), n) && Divides(Gcd(n, 100), 100)
  {
    GcdSign(n, 100);
    GcdDivides(n, 100);
  }

  /** Multiplying by a positive number keeps a weak order. */
  lemma MulMono(a: int, b: int, c: int)
    requires c > 0 && a <= b
    ensures a * c <= b * c
  {
    assert (b - a) * c >= 0;
  }

  /** Euclidean division by an exact divisor yields the witness. */
  lemma ExactDivision(n: int, g: int, k: int)
    requires g != 0 && n == g * k
    ensures n / g == k
  {
    var q, r := n / g, n % g;
    assert n == g * q + r && 0 <= r < Abs(g);
    var d := k - q;
    assert g * d == r;
    var pg := Abs(g);
    var pd := if g > 0 then d else -d;
    assert pg * pd == r;
    if pd >= 1 {
      MulMono(1, pd, pg);
    } else if pd <= -1 {
      MulMono(pd, -1, pg);
    }
  }

  /** A product equal to one has a unit factor. */
  lemma UnitFactor(c: int, m: int)
    requires c * m == 1
    ensures c == 1 || c == -1
  {
  }

  datatype Fraction = Fraction(numerator: int, denominator: int)

  /**
    `${numerator / divisor}/${denominator / divisor}` with `denominator = 100`:
    the fraction `numerator/100` divided through by their gcd.
   */
  function Reduce(numerator: int): Fraction
  {
    var divisor := Gcd(numerator, 100);
    GcdZero(numerator, 100);
    Fraction(numerator / divisor, 100 / divisor)
  }

  /** The parts of the reduced fraction are the cofactors of the gcd. */
  lemma ReduceParts(numerator: int) returns (g: int, kn: int, kd: int)
    ensures g == Gcd(numerator, 100) && g != 0 && kd != 0
    ensures numerator == g * kn && 100 == g * kd
    ensures Reduce(numerator) == Fraction(kn, kd)
  {
    g := Gcd(numerator, 100);
    GcdZero(numerator, 100);
    GcdDivides(numerator, 100);
    kn :| numerator == g * kn;
    kd :| 100 == g * kd;
    ExactDivision(numerator, g, kn);
    ExactDivision(100, g, kd);
  }

  /** A common non-zero factor cancels from a quotient of reals. */
  lemma CancelFactor(g: int, a: int, b: int)
    requires g != 0 && b != 0
    ensures (g * a) as real / (g * b) as real == a as real / b as real
  {
    var gr, ar, br := g as real, a as real, b as real;
    assert (g * a) as real == gr * ar;
    assert (g * b) as real == gr * br;
    assert gr * br != 0.0;
    assert (gr * ar) / (gr * br) == ar / br;
  }

  /** The reduced fraction has the value of `numerator/100`. */
  lemma ReduceValue(numerator: int)
    ensures Reduce(numerator).denominator != 0
    ensures Reduce(numerator).numerator as real / Reduce(numerator).denominator as real
            == numerator as real / 100.0
  {
    var g, kn, kd := ReduceParts(numerator);
    CancelFactor(g, kn, kd);
  }

  /** Regrouping a product of three factors. */
  lemma Regroup(x: int, c: int, a: int, g: int)
    requires x == c * a
    ensures g * x == (c * g) * a
  {
  }

  /** A non-zero factor cancels from an equation. */
  lemma MulCancel(g: int, x: int, y: int)
    requires g != 0 && g * x == g * y
    ensures x == y
  {
    assert g * (x - y) == 0;
  }

  /** The parts of the reduced fraction have no common divisor but 1 and -1. */
  lemma ReduceCoprime(numerator: int, c: int)
    requires Divides(c, Reduce(numerator).numerator) && Divides(c, Reduce(numerator).denominator)
    ensures c == 1 || c == -1
  {
    var g, kn, kd := ReduceParts(numerator);
    var an :| kn == c * an;
    var ad :| kd == c * ad;
    Regroup(kn, c, an, g);
    Regroup(kd, c, ad, g);
    GcdGreatest(numerator, 100, c * g);
    var m :| g == (c * g) * m;
    Regroup(c * m, c, m, g);
    MulCancel(g, c * m, 1);
    UnitFactor(c, m);
  }

  /** From a numerator of 0 up, the reduced parts have gcd exactly 1 and a positive denominator. */
  lemma ReduceLowestTerms(numerator: int)
    requires numerator >= 0
    ensures Reduce(numerator).numerator >= 0 && Reduce(numerator).denominator > 0
    ensures Gcd(Reduce(numerator).numerator, Reduce(numerator).denominator) == 1
  {
    var g, kn, kd := ReduceParts(numerator);
    GcdSign(numerator, 100);
    assert kn >= 0 && kd > 0 by {
      if kn < 0 { MulMono(kn, -1, g); }
      if kd <= 0 { MulMono(kd, 0, g); }
    }
    GcdDivides(kn, kd);
    GcdSign(kn, kd);
    ReduceCoprime(numerator, Gcd(kn, kd));
  }

  /** `Number` never yields a negative value from a text whose signs were removed. */
  type Magnitude = x: real | x >= 0.0

  /**
    The American field as the converter reads it: whether the text starts with
    `+`, and the number `parseInt` finds once every `+` and `-` is removed
    (`None` for `NaN`).
   */
  datatype AmericanText = AmericanText(plus: bool, magnitude: Option<Magnitude>)

  /** The fractional field as `split("/").map(Number)` reads its first two parts. */
  datatype FractionText = FractionText(numerator: Option<real>, denominator: Option<real>)

  /** The four fields the converter keeps in step; the decimal field as `parseFloat` reads it. */
  datatype Fields = Fields(decimalOdds: Option<real>, americanOdds: AmericanText,
                           fractionalOdds: FractionText, impliedProbability: real)

  datatype Tab = DecimalTab | AmericanTab | FractionalTab | ProbabilityTab

  /**
    The outcome of one run of the conversion effect: it returns early,
    it meets a division by zero (the field would read `Infinity` or `NaN`),
    or it writes the fields.
   */
  datatype Conversion = Unchanged | NonFinite | Converted(fields: Fields)

  /** Odds between 1 and 2 give an American price below -100. */
  lemma ShortPriceBelowMinusHundred(decimal: real)
    requires 1.0 < decimal < 2.0
    ensures -100.0 / (decimal - 1.0) < -100.0
  {
    var e := decimal - 1.0;
    var american := -100.0 / e;
    assert american * e == -100.0;
    assert -100.0 * e > -100.0;
    ScaleLess(american, -100.0, e);
  }

  /** Probability and decimal odds are reciprocal: converting one to the other and back is exact. */
  lemma ReciprocalFacts(p: real)
    requires p != 0.0
    ensures 100.0 / p != 0.0
    ensures 1.0 / (100.0 / p) == p / 100.0
    ensures 100.0 / (100.0 / p) == p
    ensures (100.0 / p) * p == 100.0
  {
  }

  /** The probability tab reads odds `d` back from `100 / d` per cent, with the same losing numerator. */
  lemma ProbabilityOfOdds(decimal: real)
    requires decimal != 0.0
    ensures 100.0 / decimal != 0.0
    ensures 100.0 / (100.0 / decimal) == decimal
    ensures (100.0 / decimal) / 100.0 == 1.0 / decimal
  {
  }

  /** The American text written for decimal odds: `+` and the profit on 100 from evens up, else `-100 / (decimal - 1)`. */
  function AmericanFor(decimal: real): (a: AmericanText)
    requires decimal != 1.0
    ensures a.plus <==> decimal >= 2.0
    ensures a.magnitude.Some?
    ensures decimal >= 2.0 ==> a.magnitude.value >= 100.0
    ensures 1.0 < decimal < 2.0 ==> a.magnitude.value > 100.0
  {
    if decimal >= 2.0 then AmericanText(true, Some((decimal - 1.0) * 100.0))
    else
      var american := -100.0 / (decimal - 1.0);
      if 1.0 < decimal then
        ShortPriceBelowMinusHundred(decimal);
        AmericanText(false, Some(AbsReal(american)))
      else AmericanText(false, Some(AbsReal(american)))
  }

  /** The decimal odds the American tab derives: `american / 100 + 1` after a `+`, else `100 / american + 1`. */
  function DecimalFromAmerican(a: AmericanText): (r: Option<real>)
    ensures r.Some? <==> a.magnitude.Some? && (a.plus || a.magnitude.value != 0.0)
    ensures r.Some? ==> r.value >= 1.0
    ensures r.Some? && !a.plus ==> r.value > 1.0
  {
    match a.magnitude
    case None => None
    case Some(american) =>
      if a.plus then Some(american / 100.0 + 1.0)
      else if american == 0.0 then None
      else Some(100.0 / american + 1.0)
  }

  /** American odds written for decimal odds above 1 read back as the same decimal odds. */
  lemma AmericanRoundTrip(decimal: real)
    requires decimal > 1.0
    ensures DecimalFromAmerican(AmericanFor(decimal)) == Some(decimal)
  {
    if decimal < 2.0 {
      var m := AmericanFor(decimal).magnitude.value;
      assert m == 100.0 / (decimal - 1.0);
      assert m * (decimal - 1.0) == 100.0;
      assert 100.0 / m == decimal - 1.0;
    }
  }

  /** The fractional text written for a numerator over 100, reduced by the gcd. */
  function FractionFor(numerator: int): (t: FractionText)
    ensures t.numerator.Some? && t.denominator.Some? && t.denominator.value != 0.0
  {
    ReduceValue(numerator);
    var f := Reduce(numerator);
    FractionText(Some(f.numerator as real), Some(f.denominator as real))
  }

  /** The fraction written for a numerator reads back as that numerator over 100. */
  lemma FractionForValue(numerator: int)
    ensures var t := FractionFor(numerator);
            t.numerator.value / t.denominator.value == numerator as real / 100.0
  {
    ReduceValue(numerator);
  }

  /** The numerator over 100 the converter writes for decimal odds: `Math.round((1 - 1 / decimal) * 100)`. */
  function LossNumerator(decimal: real): int
    requires decimal != 0.0
  {
    Round((1.0 - 1.0 / decimal) * 100.0)
  }

  /** Odds above 1 imply a probability strictly between 0 and 1. */
  lemma ImpliedBelowOne(decimal: real)
    requires decimal > 1.0
    ensures 0.0 < 1.0 / decimal < 1.0
  {
    var implied := 1.0 / decimal;
    assert implied * decimal == 1.0;
    ScaleLess(implied, 1.0, decimal);
  }

  /** A numerator from 0 to 100 over 100 reduces to a fraction no larger than 1/1. */
  lemma {:induction false} FractionAtMostOne(n: int)
    requires 0 <= n <= 100
    ensures 0.0 <= FractionFor(n).numerator.value <= FractionFor(n).denominator.value
  {
    var g, kn, kd := ReduceParts(n);
    GcdSign(n, 100);
    assert g > 0;
    if kn < 0 {
      MulMono(kn, -1, g);
    }
    if kn > kd {
      MulMono(kd + 1, kn, g);
    }
  }

  /** For odds above 1 that numerator lies between 0 and 100, so the fraction is never above 1/1. */
  lemma LossNumeratorBounds(decimal: real)
    requires decimal > 1.0
    ensures 0 <= LossNumerator(decimal) <= 100
    ensures FractionFor(LossNumerator(decimal)).numerator.value
            <= FractionFor(LossNumerator(decimal)).denominator.value
  {
    ImpliedBelowOne(decimal);
    FractionAtMostOne(LossNumerator(decimal));
  }

  /** The implied probability in per cent is 100 divided by the decimal odds. */
  predicate Reciprocal(g: Fields)
  {
    g.decimalOdds.Some? && g.decimalOdds.value != 0.0
    && g.impliedProbability == 100.0 / g.decimalOdds.value
  }

  /** One over the odds, in per cent, is 100 over the odds. */
  lemma PerCent(decimal: real)
    requires decimal != 0.0
    ensures 1.0 / decimal * 100.0 == 100.0 / decimal
  {
  }

  /** The decimal tab: nothing unless the text reads as odds above 1. */
  function ConvertDecimal(f: Fields): (c: Conversion)
    ensures c.Unchanged? <==> f.decimalOdds.None? || f.decimalOdds.value <= 1.0
    ensures c.Converted? ==> c.fields.decimalOdds == f.decimalOdds && Reciprocal(c.fields)
  {
    match f.decimalOdds
    case None => Unchanged
    case Some(decimal) =>
      if decimal <= 1.0 then Unchanged
      else
        var impliedProb := 1.0 / decimal;
        PerCent(decimal);
        Converted(Fields(f.decimalOdds, AmericanFor(decimal),
                         FractionFor(LossNumerator(decimal)), impliedProb * 100.0))
  }

  /** The American tab: nothing unless a number remains once the signs are removed. */
  function ConvertAmerican(f: Fields): (c: Conversion)
    ensures c.Unchanged? <==> f.americanOdds.magnitude.None?
    ensures c.Converted? ==> c.fields.americanOdds == f.americanOdds && Reciprocal(c.fields)
  {
    if f.americanOdds.magnitude.None? then Unchanged
    else match DecimalFromAmerican(f.americanOdds)
      case None => NonFinite
      case Some(decimal) =>
        var impliedProb := 1.0 / decimal;
        PerCent(decimal);
        Converted(Fields(Some(decimal), f.americanOdds,
                         FractionFor(LossNumerator(decimal)), impliedProb * 100.0))
  }

  /** The fractional tab: nothing unless both parts are numbers and the denominator is not zero. */
  function ConvertFractional(f: Fields): (c: Conversion)
    ensures c.Unchanged? <==>
      f.fractionalOdds.numerator.None? || f.fractionalOdds.denominator.None?
      || f.fractionalOdds.denominator.value == 0.0
    ensures c.Converted? ==> c.fields.fractionalOdds == f.fractionalOdds && Reciprocal(c.fields)
  {
    match f.fractionalOdds
    case FractionText(Some(numerator), Some(denominator)) =>
      if denominator == 0.0 then Unchanged
      else
        var decimal := numerator / denominator + 1.0;
        if decimal == 1.0 || decimal == 0.0 then NonFinite
        else
          PerCent(decimal);
          Converted(Fields(Some(decimal), AmericanFor(decimal), f.fractionalOdds, 1.0 / decimal * 100.0))
    case _ => Unchanged
  }

  /** The probability tab: the decimal odds are `100 / impliedProbability`. */
  function ConvertProbability(f: Fields): (c: Conversion)
    ensures !c.Unchanged?
    ensures c.Converted? ==> c.fields.impliedProbability == f.impliedProbability && Reciprocal(c.fields)
  {
    var p := f.impliedProbability;
    if p == 0.0 || p == 100.0 then NonFinite
    else
      var decimal := 100.0 / p;
      ReciprocalFacts(p);
      Converted(Fields(Some(decimal), AmericanFor(decimal),
                       FractionFor(Round((1.0 - p / 100.0) * 100.0)), p))
  }

  /**
    One run of the conversion effect for the active tab. It returns early
    exactly on the source's guards; when it writes, the field of the active tab
    is left as typed and the implied probability is 100 divided by the decimal
    odds.
   */
  function Convert(tab: Tab, f: Fields): (c: Conversion)
    ensures c.Unchanged? <==>
      match tab
      case DecimalTab => f.decimalOdds.None? || f.decimalOdds.value <= 1.0
      case AmericanTab => f.americanOdds.magnitude.None?
      case FractionalTab =>
        f.fractionalOdds.numerator.None? || f.fractionalOdds.denominator.None?
        || f.fractionalOdds.denominator.value == 0.0
      case ProbabilityTab => false
    ensures c.Converted? ==> Reciprocal(c.fields)
    ensures c.Converted? ==>
      match tab
      case DecimalTab => c.fields.decimalOdds == f.decimalOdds
      case AmericanTab => c.fields.americanOdds == f.americanOdds
      case FractionalTab => c.fields.fractionalOdds == f.fractionalOdds
      case ProbabilityTab => c.fields.impliedProbability == f.impliedProbability
  {
    match tab
    case DecimalTab => ConvertDecimal(f)
    case AmericanTab => ConvertAmerican(f)
    case FractionalTab => ConvertFractional(f)
    case ProbabilityTab => ConvertProbability(f)
  }

  /** The fields after a run: written on a conversion, as they were otherwise. */
  function Apply(c: Conversion, f: Fields): Fields
  {
    if c.Converted? then c.fields else f
  }

  /** Fields that agree with decimal odds above 1 as the converter writes them. */
  predicate InStep(g: Fields)
  {
    g.decimalOdds.Some? && g.decimalOdds.value > 1.0
    && g.americanOdds == AmericanFor(g.decimalOdds.value)
    && g.fractionalOdds == FractionFor(LossNumerator(g.decimalOdds.value))
    && g.impliedProbability == 100.0 / g.decimalOdds.value
  }

  /** The decimal and probability tabs leave the fields in step whenever the odds come out above 1. */
  lemma ConversionsInStep(tab: Tab, f: Fields)
    requires tab == DecimalTab || tab == ProbabilityTab
    requires Convert(tab, f).Converted? && Convert(tab, f).fields.decimalOdds.value > 1.0
    ensures InStep(Convert(tab, f).fields)
  {
    if tab == ProbabilityTab {
      ReciprocalFacts(f.impliedProbability);
    } else {
      var decimal := f.decimalOdds.value;
      assert (1.0 / decimal) * 100.0 == 100.0 / decimal;
    }
  }

  /**
    Fields in step are a fixed point of the decimal, American and probability
    tabs: switching between them, or the effect running again, changes nothing.
   */
  lemma InStepIsFixedPoint(tab: Tab, g: Fields)
    requires InStep(g) && tab != FractionalTab
    ensures Convert(tab, g) == Converted(g)
  {
    var decimal := g.decimalOdds.value;
    match tab
    case DecimalTab =>
    case AmericanTab =>
      AmericanRoundTrip(decimal);
    case ProbabilityTab =>
      ProbabilityOfOdds(decimal);
  }

  /** The fields a page shows before its first effect run. */
  const InitialFields := Fields(Some(2.0), AmericanText(true, Some(100.0)),
                                FractionText(Some(1.0), Some(1.0)), 50.0)

  lemma GcdOfHundredAndFifty()
    ensures Gcd(50, 100) == 50
  {
    assert JsRem(50, 100) == 50;
    assert JsRem(100, 50) == 0;
  }

  /**
    The fraction written for decimal odds 2.00 is 1/2, and the fractional tab
    reads 1/2 as decimal odds 1.5: the written fraction is the probability of
    losing rather than the profit per unit staked.
   */
  lemma FractionFromEvensReadsBackWrong()
    ensures ConvertDecimal(InitialFields).Converted?
    ensures ConvertDecimal(InitialFields).fields.fractionalOdds == FractionText(Some(1.0), Some(2.0))
    ensures ConvertFractional(ConvertDecimal(InitialFields).fields).Converted?
    ensures ConvertFractional(ConvertDecimal(InitialFields).fields).fields.decimalOdds == Some(1.5)
  {
    assert LossNumerator(2.0) == 50;
    GcdOfHundredAndFifty();
    assert Reduce(50) == Fraction(1, 2);
  }

  /** Fractional odds for decimal odds: the profit per unit staked, `decimal - 1`, to the nearest hundredth. */
  function IntendedFraction(decimal: real): FractionText
  {
    FractionFor(Round((decimal - 1.0) * 100.0))
  }

  /** The intended fraction reads back, in the fractional tab, as the decimal odds within half a hundredth. */
  lemma IntendedFractionRoundTrip(decimal: real)
    ensures var t := IntendedFraction(decimal);
            var back := t.numerator.value / t.denominator.value + 1.0;
            decimal - 0.005 <= back <= decimal + 0.005
  {
    var n := Round((decimal - 1.0) * 100.0);
    FractionForValue(n);
    assert (decimal - 1.0) * 100.0 - 0.5 < n as real <= (decimal - 1.0) * 100.0 + 0.5;
  }

  /** For evens the intended fraction is 1/1, the fraction the page starts with. */
  lemma IntendedFractionOfEvens()
    ensures IntendedFraction(2.0) == InitialFields.fractionalOdds
  {
    assert Round(100.0) == 100;
    assert JsRem(100, 100) == 0;
    assert Gcd(100, 100) == 100;
    assert Reduce(100) == Fraction(1, 1);
  }

  /** The converter card. */
  class Converter {
    var activeTab: Tab
    var decimalOdds: Option<real>
    var americanOdds: AmericanText
    var fractionalOdds: FractionText
    var impliedProbability: real

    function State(): Fields
      reads this
    {
      Fields(decimalOdds, americanOdds, fractionalOdds, impliedProbability)
    }

    /** The initial fields, then the effect's first run on the decimal tab. */
    constructor ()
      ensures activeTab == DecimalTab
      ensures State() == Apply(Convert(DecimalTab, InitialFields), InitialFields)
    {
      activeTab := DecimalTab;
      decimalOdds := InitialFields.decimalOdds;
      americanOdds := InitialFields.americanOdds;
      fractionalOdds := InitialFields.fractionalOdds;
      impliedProbability := InitialFields.impliedProbability;
      new;
      RunEffect();
    }

    /** One run of the conversion effect. */
    method RunEffect()
      modifies this
      ensures activeTab == old(activeTab)
      ensures State() == Apply(Convert(activeTab, old(State())), old(State()))
    {
      var c := Convert(activeTab, State());
      if c.Converted? {
        decimalOdds := c.fields.decimalOdds;
        americanOdds := c.fields.americanOdds;
        fractionalOdds := c.fields.fractionalOdds;
        impliedProbability := c.fields.impliedProbability;
      }
    }

    /** A tab is chosen; the effect runs for it. */
    method SelectTab(tab: Tab)
      modifies this
      ensures activeTab == tab
      ensures State() == Apply(Convert(tab, old(State())), old(State()))
    {
      activeTab := tab;
      RunEffect();
    }

    /** Text typed into the decimal field; the effect runs. */
    method EditDecimal(text: Option<real>)
      modifies this
      ensures activeTab == old(activeTab)
      ensures var typed := old(State()).(decimalOdds := text);
              State() == Apply(Convert(activeTab, typed), typed)
    {
      decimalOdds := text;
      RunEffect();
    }

    /** Text typed into the American field; the effect runs. */
    method EditAmerican(text: AmericanText)
      modifies this
      ensures activeTab == old(activeTab)
      ensures var typed := old(State()).(americanOdds := text);
              State() == Apply(Convert(activeTab, typed), typed)
    {
      americanOdds := text;
      RunEffect();
    }

    /** Text typed into the fractional field; the effect runs. */
    method EditFractional(text: FractionText)
      modifies this
      ensures activeTab == old(activeTab)
      ensures var typed := old(State()).(fractionalOdds := text);
              State() == Apply(Convert(activeTab, typed), typed)
    {
      fractionalOdds := text;
      RunEffect();
    }

    /**
      `handleProbabilitySliderChange`: the slider writes all four fields itself
      while the effect is held off.
     */
    method SlideProbability(p: real)
      requires 1.0 <= p <= 99.0
      modifies this
      ensures activeTab == old(activeTab)
      ensures Convert(ProbabilityTab, old(State()).(impliedProbability := p)) == Converted(State())
      ensures InStep(State())
    {
      impliedProbability := p;
      var decimal := 100.0 / p;
      decimalOdds := Some(decimal);
      americanOdds := AmericanFor(decimal);
      fractionalOdds := FractionFor(Round((1.0 - p / 100.0) * 100.0));
      assert decimal > 1.0 by { ScaleLess(p, 100.0, decimal); }
      ConversionsInStep(ProbabilityTab, old(State()).(impliedProbability := p));
    }
  }

  /** The slider writes a fraction whose numerator over 100 lies between 1 and 99. */
  lemma SliderNumeratorBounds(p: real)
    requires 1.0 <= p <= 99.0
    ensures 1 <= Round((1.0 - p / 100.0) * 100.0) <= 99
  {
    assert (1.0 - p / 100.0) * 100.0 == 100.0 - p;
  }
}
