/**
  The probability visualizer of
  `components/visualizations/probability-visualizer.tsx`.

  Two sliders (the true win probability, a whole per cent from 1 to 99, and
  the bookmaker margin, from 0 to 20 per cent in halves) give the probability
  the bookmaker's price implies, fair and bookmaker decimal odds, the
  expected value of a 100-unit bet, a hundred dots coloured by outcome, and
  three bars.
 */
module ProbabilityVisualizer {
  import opened Common

  /** `betAmount` */
  const BetAmount: real := 100.0

  /** The probability the bookmaker's price implies, in per cent: `t * (1 + margin / 100)`. */
  function Implied(trueWin: int, margin: real): (p: real)
    requires trueWin >= 1 && margin >= 0.0
    ensures p >= trueWin as real
    ensures p == trueWin as real <==> margin == 0.0
  {
    var p := trueWin as real * (1.0 + margin / 100.0);
    assert p - trueWin as real == trueWin as real * (margin / 100.0);
    p
  }

  /** `fairDecimalOdds = 100 / t` */
  function FairOdds(trueWin: int): real
    requires trueWin >= 1
  {
    100.0 / trueWin as real
  }

  /** `bookmakerDecimalOdds = 100 / impliedProbability` */
  function BookmakerOdds(trueWin: int, margin: real): real
    requires trueWin >= 1 && margin >= 0.0
  {
    100.0 / Implied(trueWin, margin)
  }

  /** The bookmaker never offers more than the fair odds, and offers less whenever the margin is positive. */
  lemma BookmakerOddsShorter(trueWin: int, margin: real)
    requires trueWin >= 1 && margin >= 0.0
    ensures BookmakerOdds(trueWin, margin) <= FairOdds(trueWin)
    ensures margin > 0.0 ==> BookmakerOdds(trueWin, margin) < FairOdds(trueWin)
  {
    var t, p := trueWin as real, Implied(trueWin, margin);
    var b, f := 100.0 / p, 100.0 / t;
    assert b * p == 100.0 && f * t == 100.0;
    if b > f {
      ScaleLess(f, b, t);
      assert b * t <= b * p;
    }
    if margin > 0.0 && b == f {
      assert b * t < b * p;
    }
  }

  /**
    `expectedValue`: the true probability of winning the bookmaker's profit
    on 100, less the true probability of losing the stake.
   */
  function ExpectedValue(trueWin: int, margin: real): real
    requires trueWin >= 1 && margin >= 0.0
  {
    var potentialWin := BetAmount * (BookmakerOdds(trueWin, margin) - 1.0);
    (trueWin as real / 100.0) * potentialWin - (1.0 - trueWin as real / 100.0) * BetAmount
  }

  /**
    The expected value does not depend on the true probability: it is
    `100 / (1 + margin / 100) - 100`, zero without a margin and a loss with one.
   */
  lemma ExpectedValueIsMarginCost(trueWin: int, margin: real)
    requires trueWin >= 1 && margin >= 0.0
    ensures ExpectedValue(trueWin, margin) == 100.0 / (1.0 + margin / 100.0) - 100.0
    ensures ExpectedValue(trueWin, margin) == 0.0 <==> margin == 0.0
    ensures margin > 0.0 ==> ExpectedValue(trueWin, margin) < 0.0
  {
    var t := trueWin as real;
    var k := 1.0 + margin / 100.0;
    var p := t * k;
    var b := 100.0 / p;
    assert (t / 100.0) * (BetAmount * (b - 1.0)) == t * b - t;
    assert t * b == 100.0 / k by {
      assert b * p == 100.0;
      assert (t * b) * k == 100.0;
    }
    if margin > 0.0 {
      assert (100.0 / k) * k == 100.0;
      ScaleLess(100.0 / k, 100.0, k);
    }
  }

  /** The "long-term return" line: the expected value as a share of the 100-unit stake, in per cent. */
  function LongTermReturn(trueWin: int, margin: real): (r: real)
    requires trueWin >= 1 && margin >= 0.0
    ensures r == ExpectedValue(trueWin, margin)
  {
    ExpectedValue(trueWin, margin) / BetAmount * 100.0
  }

  datatype Colour = Green | Blue | Red | Grey

  /** The colour of dot `i`: green when both the true and the implied count reach it, blue for only the true one, red for only the implied one. */
  function DotColour(i: int, winCount: int, impliedWinCount: int): (c: Colour)
    ensures c == Green <==> i < winCount && i < impliedWinCount
    ensures c == Blue <==> i < winCount && i >= impliedWinCount
    ensures c == Red <==> i >= winCount && i < impliedWinCount
    ensures c == Grey <==> i >= winCount && i >= impliedWinCount
  {
    var isTrueWin := i < winCount;
    var isImpliedWin := i < impliedWinCount;
    if isTrueWin && isImpliedWin then Green
    else if isTrueWin then Blue
    else if isImpliedWin then Red
    else Grey
  }

  /** `generateDots(count, winCount, impliedWinCount)`, as the colours of the dots. */
  function Dots(count: nat, winCount: int, impliedWinCount: int): (s: seq<Colour>)
    ensures |s| == count
  {
    seq(count, i requires 0 <= i < count => DotColour(i, winCount, impliedWinCount))
  }

  /** Number of dots of colour `c`. */
  function CountOf(s: seq<Colour>, c: Colour): (n: nat)
    ensures n <= |s|
  {
    if |s| == 0 then 0
    else CountOf(s[..|s| - 1], c) + (if s[|s| - 1] == c then 1 else 0)
  }

  /** Number of indices below `n` that are also below `k`. */
  function Below(n: nat, k: int): nat
  {
    if k <= 0 then 0 else if k < n then k else n
  }

  function MinInt(a: int, b: int): int { if a < b then a else b }

  function MaxInt(a: int, b: int): int { if a < b then b else a }

  /** How many dots of each colour `generateDots` draws. */
  lemma {:induction false} DotCounts(n: nat, w: int, ic: int)
    ensures CountOf(Dots(n, w, ic), Green) == Below(n, MinInt(w, ic))
    ensures CountOf(Dots(n, w, ic), Blue) == Below(n, w) - Below(n, MinInt(w, ic))
    ensures CountOf(Dots(n, w, ic), Red) == Below(n, ic) - Below(n, MinInt(w, ic))
    ensures CountOf(Dots(n, w, ic), Grey) == n - Below(n, MaxInt(w, ic))
  {
    GreenCount(n, w, ic);
    BlueCount(n, w, ic);
    RedCount(n, w, ic);
    GreyCount(n, w, ic);
  }

  /** The first `n - 1` dots of `n` are the dots of `n - 1`. */
  lemma DotsPrefix(n: nat, w: int, ic: int)
    requires n > 0
    ensures CountOf(Dots(n, w, ic), Green) == CountOf(Dots(n - 1, w, ic), Green) + (if DotColour(n - 1, w, ic) == Green then 1 else 0)
    ensures CountOf(Dots(n, w, ic), Blue) == CountOf(Dots(n - 1, w, ic), Blue) + (if DotColour(n - 1, w, ic) == Blue then 1 else 0)
    ensures CountOf(Dots(n, w, ic), Red) == CountOf(Dots(n - 1, w, ic), Red) + (if DotColour(n - 1, w, ic) == Red then 1 else 0)
    ensures CountOf(Dots(n, w, ic), Grey) == CountOf(Dots(n - 1, w, ic), Grey) + (if DotColour(n - 1, w, ic) == Grey then 1 else 0)
  {
    assert Dots(n, w, ic)[..n - 1] == Dots(n - 1, w, ic);
  }

  lemma {:induction false} GreenCount(n: nat, w: int, ic: int)
    ensures CountOf(Dots(n, w, ic), Green) == Below(n, MinInt(w, ic))
  {
    if n > 0 {
      GreenCount(n - 1, w, ic);
      DotsPrefix(n, w, ic);
    }
  }

  lemma {:induction false} BlueCount(n: nat, w: int, ic: int)
    ensures CountOf(Dots(n, w, ic), Blue) == Below(n, w) - Below(n, MinInt(w, ic))
  {
    if n > 0 {
      BlueCount(n - 1, w, ic);
      DotsPrefix(n, w, ic);
    }
  }

  lemma {:induction false} RedCount(n: nat, w: int, ic: int)
    ensures CountOf(Dots(n, w, ic), Red) == Below(n, ic) - Below(n, MinInt(w, ic))
  {
    if n > 0 {
      RedCount(n - 1, w, ic);
      DotsPrefix(n, w, ic);
    }
  }

  lemma {:induction false} GreyCount(n: nat, w: int, ic: int)
    ensures CountOf(Dots(n, w, ic), Grey) == n - Below(n, MaxInt(w, ic))
  {
    if n > 0 {
      GreyCount(n - 1, w, ic);
      DotsPrefix(n, w, ic);
    }
  }

  /**
    With the sliders in range the page draws no blue dot: a hundred dots,
    `t` green, red up to the rounded implied probability (at most the hundredth
    dot), and grey for the rest.
   */
  lemma PageDots(trueWin: int, margin: real)
    requires 1 <= trueWin <= 99 && 0.0 <= margin <= 20.0
    ensures var dots := Dots(100, Round(trueWin as real), Round(Implied(trueWin, margin)));
            var reach := MinInt(Round(Implied(trueWin, margin)), 100);
            CountOf(dots, Blue) == 0
            && CountOf(dots, Green) == trueWin
            && CountOf(dots, Red) == reach - trueWin
            && CountOf(dots, Grey) == 100 - reach
  {
    var w, ic := Round(trueWin as real), Round(Implied(trueWin, margin));
    assert w == trueWin;
    RoundMonotone(trueWin as real, Implied(trueWin, margin));
    DotCounts(100, w, ic);
  }

  /** The widths, in per cent, of the blue, red and grey bars. */
  function BarWidths(trueWin: int, margin: real): (real, real, real)
    requires trueWin >= 1 && margin >= 0.0
  {
    var implied := Implied(trueWin, margin);
    (trueWin as real, implied - trueWin as real, 100.0 - implied)
  }

  /**
    The three widths always add up to 100, and the first two are never
    negative; the grey one is negative exactly when the implied probability
    passes 100 per cent.
   */
  lemma BarWidthsSum(trueWin: int, margin: real)
    requires trueWin >= 1 && margin >= 0.0
    ensures var (blue, red, grey) := BarWidths(trueWin, margin);
            blue + red + grey == 100.0 && blue > 0.0 && red >= 0.0
            && (grey < 0.0 <==> Implied(trueWin, margin) > 100.0)
  {
  }

  /** At the top of both sliders the implied probability is 118.8 per cent, so the bars overflow the strip. */
  lemma BarsOverflowAtTop()
    ensures Implied(99, 20.0) == 118.8
    ensures BarWidths(99, 20.0).2 < 0.0
  {
  }
}
