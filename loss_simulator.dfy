/**
  The loss simulator of `app/loss-simulator/page.tsx`.

  A betting habit (stake, frequency, duration in months, win rate, average
  decimal odds) is played out month by month beside two alternatives: the
  same money put into savings or into an investment, each compounded
  monthly at a twelfth of its yearly rate. The random draw for every bet is
  a parameter.
 */
module LossSimulator {
  import opened Common

  /** The frequency select; `Unrecognised` is the fall-through that leaves `betsPerMonth` at 0. */
  datatype Frequency = Daily | Weekly | Monthly | Unrecognised

  /** Bets per month: 30, 4 or 1, and 0 for any other choice. */
  function BetsPerMonth(frequency: Frequency): (n: nat)
    ensures n <= 30
    ensures n == 0 <==> frequency == Unrecognised
  {
    match frequency
    case Daily => 30
    case Weekly => 4
    case Monthly => 1
    case Unrecognised => 0
  }

  datatype Label = Start | Month(n: nat)

  /** The chart labels: "Start", then "Month 1" to "Month m". */
  function Labels(months: nat): (s: seq<Label>)
    ensures |s| == months + 1
    ensures s[0] == Start
    ensures forall i :: 1 <= i <= months ==> s[i] == Month(i)
  {
    seq(months + 1, i requires 0 <= i <= months => if i == 0 then Start else Month(i))
  }

  /** One bet's effect on the betting balance: won when the draw is below the win probability. */
  function BetOutcome(draw: real, winProbability: real, amount: real, odds: real): real
  {
    if draw < winProbability then amount * (odds - 1.0) else -amount
  }

  /** The betting balance after the given draws. */
  function BettingBalance(draws: seq<real>, winProbability: real, amount: real, odds: real): real
  {
    if |draws| == 0 then 0.0
    else BettingBalance(draws[..|draws| - 1], winProbability, amount, odds)
         + BetOutcome(draws[|draws| - 1], winProbability, amount, odds)
  }

  /** Bets won among the draws. */
  function Wins(draws: seq<real>, winProbability: real): (w: nat)
    ensures w <= |draws|
  {
    if |draws| == 0 then 0
    else Wins(draws[..|draws| - 1], winProbability) + (if draws[|draws| - 1] < winProbability then 1 else 0)
  }

  /** Each win adds the profit at the odds and each loss takes the stake. */
  lemma {:induction false} BettingByWins(draws: seq<real>, winProbability: real, amount: real, odds: real)
    ensures var w := Wins(draws, winProbability);
            BettingBalance(draws, winProbability, amount, odds)
            == w as real * amount * (odds - 1.0) - (|draws| - w) as real * amount
  {
    if |draws| > 0 {
      BettingByWins(draws[..|draws| - 1], winProbability, amount, odds);
    }
  }

  /** With a non-negative stake and odds of at least 1, betting never loses more than was staked. */
  lemma BettingLossBounded(draws: seq<real>, winProbability: real, amount: real, odds: real)
    requires amount >= 0.0 && odds >= 1.0
    ensures BettingBalance(draws, winProbability, amount, odds) >= -(|draws| as real * amount)
  {
    BettingByWins(draws, winProbability, amount, odds);
    var w := Wins(draws, winProbability);
    assert w as real * amount * (odds - 1.0) >= 0.0;
    assert (|draws| - w) as real * amount <= |draws| as real * amount;
  }

  /** At the default odds of 2.0 a positive stake ends the period behind exactly when fewer than half the bets were won. */
  lemma EvenOddsBehindIffUnderHalfWon(draws: seq<real>, winProbability: real, amount: real)
    requires amount > 0.0
    ensures BettingBalance(draws, winProbability, amount, 2.0) < 0.0
            <==> 2 * Wins(draws, winProbability) < |draws|
  {
    BettingByWins(draws, winProbability, amount, 2.0);
    var w, n := Wins(draws, winProbability) as real, |draws| as real;
    assert BettingBalance(draws, winProbability, amount, 2.0) == amount * (2.0 * w - n);
    ScaleLess(2.0 * w - n, 0.0, amount);
    assert (2 * Wins(draws, winProbability)) as real == 2.0 * w;
  }

  /**
    The saving or investing balance after `months` months: each month the
    month's stakes are paid in and the balance grows by `rate / 12`.
   */
  function Compounded(months: nat, monthlyAmount: real, rate: real): real
  {
    if months == 0 then 0.0
    else MonthOfSaving(Compounded(months - 1, monthlyAmount, rate), monthlyAmount, rate)
  }

  /** One month of saving or investing: the month's stakes are paid in, then a twelfth of the yearly rate is added. */
  function MonthOfSaving(balance: real, monthlyAmount: real, rate: real): real
  {
    (balance + monthlyAmount) * (1.0 + rate / 12.0)
  }

  /** At a rate of 0 the balance is exactly what was paid in. */
  lemma {:induction false} CompoundedWithoutInterest(months: nat, monthlyAmount: real)
    ensures Compounded(months, monthlyAmount, 0.0) == months as real * monthlyAmount
  {
    if months > 0 {
      CompoundedWithoutInterest(months - 1, monthlyAmount);
    }
  }

  /** At a non-negative rate the balance is at least what was paid in. */
  lemma {:induction false} CompoundedAtLeastPaidIn(months: nat, monthlyAmount: real, rate: real)
    requires monthlyAmount >= 0.0 && rate >= 0.0
    ensures Compounded(months, monthlyAmount, rate) >= months as real * monthlyAmount
  {
    if months > 0 {
      CompoundedAtLeastPaidIn(months - 1, monthlyAmount, rate);
      var before := Compounded(months - 1, monthlyAmount, rate) + monthlyAmount;
      assert before >= months as real * monthlyAmount;
      assert before * (1.0 + rate / 12.0) >= before;
    }
  }

  /** A higher rate never gives a smaller balance: at 7% investing ends at least as high as saving at 2%. */
  lemma {:induction false} CompoundedMonotoneInRate(months: nat, monthlyAmount: real, low: real, high: real)
    requires monthlyAmount >= 0.0 && 0.0 <= low <= high
    ensures 0.0 <= Compounded(months, monthlyAmount, low) <= Compounded(months, monthlyAmount, high)
  {
    if months > 0 {
      CompoundedMonotoneInRate(months - 1, monthlyAmount, low, high);
      var a := Compounded(months - 1, monthlyAmount, low) + monthlyAmount;
      var b := Compounded(months - 1, monthlyAmount, high) + monthlyAmount;
      ProductMonotone(a, b, 1.0 + low / 12.0, 1.0 + high / 12.0);
    }
  }

  /** A product of non-negative factors grows with each factor. */
  lemma ProductMonotone(a: real, b: real, x: real, y: real)
    requires 0.0 <= a <= b && 0.0 <= x <= y
    ensures 0.0 <= a * x <= b * y
  {
    assert a * x <= b * x;
    assert b * x <= b * y;
  }

  /** The balance never falls from one month to the next when nothing negative is involved. */
  lemma CompoundedGrows(months: nat, monthlyAmount: real, rate: real)
    requires monthlyAmount >= 0.0 && rate >= 0.0
    ensures Compounded(months, monthlyAmount, rate) <= Compounded(months + 1, monthlyAmount, rate)
  {
    CompoundedMonotoneInRate(months, monthlyAmount, rate, rate);
    var a := Compounded(months, monthlyAmount, rate) + monthlyAmount;
    assert a * (1.0 + rate / 12.0) >= a;
  }

  /** Without interest the savings are exactly the total the betting habit spent, `amount * totalBets`. */
  lemma SavingWithoutInterestIsTotalSpent(amount: real, betsPerMonth: nat, months: nat)
    ensures Compounded(months, amount * betsPerMonth as real, 0.0) == amount * MonthEnd(months, betsPerMonth) as real
  {
    CompoundedWithoutInterest(months, amount * betsPerMonth as real);
    MonthEndProduct(months, betsPerMonth);
    assert months as real * (amount * betsPerMonth as real) == amount * (betsPerMonth * months) as real;
  }

  datatype SimulationResults = SimulationResults(
    labels: seq<Label>,
    betting: seq<real>,
    saving: seq<real>,
    investing: seq<real>,
    finalBetting: real,
    finalSaving: real,
    finalInvesting: real,
    totalSpent: real)

  /** Draws used by the end of month `m`: `betsPerMonth` per month. */
  function MonthEnd(m: nat, betsPerMonth: nat): nat
  {
    if m == 0 then 0 else MonthEnd(m - 1, betsPerMonth) + betsPerMonth
  }

  lemma {:induction false} MonthEndProduct(m: nat, betsPerMonth: nat)
    ensures MonthEnd(m, betsPerMonth) == m * betsPerMonth
  {
    if m > 0 {
      MonthEndProduct(m - 1, betsPerMonth);
      assert m * betsPerMonth == (m - 1) * betsPerMonth + betsPerMonth;
    }
  }

  lemma {:induction false} MonthEndMonotone(m: nat, months: nat, betsPerMonth: nat)
    requires m <= months
    ensures MonthEnd(m, betsPerMonth) <= MonthEnd(months, betsPerMonth)
    decreases months - m
  {
    if m < months {
      MonthEndMonotone(m + 1, months, betsPerMonth);
    }
  }

  /**
    The inner loop of `runSimulation`: the month's bets, one per draw from
    `draws[start]` on, added to the betting balance.
   */
  method PlayMonth(draws: seq<real>, start: nat, betsPerMonth: nat, winProbability: real,
                   amount: real, odds: real, balance: real)
    returns (newBalance: real)
    requires start + betsPerMonth <= |draws|
    requires balance == BettingBalance(draws[..start], winProbability, amount, odds)
    ensures newBalance == BettingBalance(draws[..start + betsPerMonth], winProbability, amount, odds)
  {
    newBalance := balance;
    var bet := 0;
    while bet < betsPerMonth
      invariant 0 <= bet <= betsPerMonth
      invariant newBalance == BettingBalance(draws[..start + bet], winProbability, amount, odds)
    {
      var win := draws[start + bet] < winProbability;
      newBalance := newBalance + (if win then amount * (odds - 1.0) else -amount);
      assert draws[..start + bet + 1][..start + bet] == draws[..start + bet];
      bet := bet + 1;
    }
  }

  /** The betting series of the chart: 0, then the balance at the end of each month. */
  function BettingSeries(draws: seq<real>, betsPerMonth: nat, months: nat,
                         winProbability: real, amount: real, odds: real): (s: seq<real>)
    requires MonthEnd(months, betsPerMonth) <= |draws|
    ensures |s| == months + 1
  {
    if months == 0 then [0.0]
    else BettingSeries(draws, betsPerMonth, months - 1, winProbability, amount, odds)
         + [BettingBalance(draws[..MonthEnd(months, betsPerMonth)], winProbability, amount, odds)]
  }

  /** The savings or investment series of the chart: 0, then the balance at the end of each month. */
  function CompoundedSeries(months: nat, monthlyAmount: real, rate: real): (s: seq<real>)
    ensures |s| == months + 1
  {
    if months == 0 then [0.0]
    else CompoundedSeries(months - 1, monthlyAmount, rate) + [Compounded(months, monthlyAmount, rate)]
  }

  /** Point `m` of the betting series is the balance after the first `m * betsPerMonth` bets. */
  lemma {:induction false} BettingSeriesAt(draws: seq<real>, betsPerMonth: nat, months: nat,
                                           winProbability: real, amount: real, odds: real, m: nat)
    requires MonthEnd(months, betsPerMonth) <= |draws| && m <= months
    ensures m * betsPerMonth <= |draws|
    ensures BettingSeries(draws, betsPerMonth, months, winProbability, amount, odds)[m]
            == BettingBalance(draws[..m * betsPerMonth], winProbability, amount, odds)
  {
    MonthEndProduct(m, betsPerMonth);
    MonthEndMonotone(m, months, betsPerMonth);
    if m < months {
      BettingSeriesAt(draws, betsPerMonth, months - 1, winProbability, amount, odds, m);
    }
  }

  /** Point `m` of a compounded series is the balance after `m` months. */
  lemma {:induction false} CompoundedSeriesAt(months: nat, monthlyAmount: real, rate: real, m: nat)
    requires m <= months
    ensures CompoundedSeries(months, monthlyAmount, rate)[m] == Compounded(m, monthlyAmount, rate)
  {
    if m < months {
      CompoundedSeriesAt(months - 1, monthlyAmount, rate, m);
    }
  }

  /** Once every draw is used, the last point of the betting series is the balance after all of them. */
  lemma BettingSeriesLast(draws: seq<real>, betsPerMonth: nat, months: nat,
                          winProbability: real, amount: real, odds: real)
    requires MonthEnd(months, betsPerMonth) == |draws|
    ensures BettingSeries(draws, betsPerMonth, months, winProbability, amount, odds)[months]
            == BettingBalance(draws, winProbability, amount, odds)
  {
    assert draws[..MonthEnd(months, betsPerMonth)] == draws;
  }

  /**
    The month loop of `runSimulation`: each month plays that month's bets,
    pays the month's stakes into savings and into the investment, adds a
    month's interest to each, and appends the three balances to the series.
   */
  method PlayMonths(draws: seq<real>, betsPerMonth: nat, months: nat, winProbability: real,
                    amount: real, odds: real, monthlyAmount: real, savingsInterest: real, investmentReturn: real)
    returns (betting: seq<real>, saving: seq<real>, investing: seq<real>,
             bettingBalance: real, savingBalance: real, investingBalance: real)
    requires MonthEnd(months, betsPerMonth) <= |draws|
    ensures betting == BettingSeries(draws, betsPerMonth, months, winProbability, amount, odds)
    ensures saving == CompoundedSeries(months, monthlyAmount, savingsInterest)
    ensures investing == CompoundedSeries(months, monthlyAmount, investmentReturn)
    ensures bettingBalance == betting[months] && savingBalance == saving[months]
            && investingBalance == investing[months]
  {
    betting, saving, investing := [0.0], [0.0], [0.0];
    bettingBalance, savingBalance, investingBalance := 0.0, 0.0, 0.0;

    var month, start := 1, 0;
    while month <= months
      invariant 1 <= month <= months + 1
      invariant start == MonthEnd(month - 1, betsPerMonth) <= |draws|
      invariant betting == BettingSeries(draws, betsPerMonth, month - 1, winProbability, amount, odds)
      invariant saving == CompoundedSeries(month - 1, monthlyAmount, savingsInterest)
      invariant investing == CompoundedSeries(month - 1, monthlyAmount, investmentReturn)
      invariant bettingBalance == betting[month - 1] == BettingBalance(draws[..start], winProbability, amount, odds)
      invariant savingBalance == saving[month - 1] == Compounded(month - 1, monthlyAmount, savingsInterest)
      invariant investingBalance == investing[month - 1] == Compounded(month - 1, monthlyAmount, investmentReturn)
    {
      MonthEndMonotone(month, months, betsPerMonth);
      bettingBalance := PlayMonth(draws, start, betsPerMonth, winProbability, amount, odds, bettingBalance);

      savingBalance := MonthOfSaving(savingBalance, monthlyAmount, savingsInterest);
      investingBalance := MonthOfSaving(investingBalance, monthlyAmount, investmentReturn);

      betting := betting + [bettingBalance];
      saving := saving + [savingBalance];
      investing := investing + [investingBalance];
      month, start := month + 1, start + betsPerMonth;
    }
  }

  /**
    `runSimulation`. The chart series start at 0 and hold the balance at the
    end of every month; `draws[k]` stands for the `Math.random()` of the
    `k`-th bet, so there is one draw per bet: `MonthEnd(months, b)` is
    `b * months` (`MonthEndProduct`).
   */
  method RunSimulation(amount: real, frequency: Frequency, months: nat, winRate: int, odds: real,
                       savingsRate: real, investmentRate: real, draws: seq<real>)
    returns (r: SimulationResults)
    requires |draws| == MonthEnd(months, BetsPerMonth(frequency))
    ensures r.labels == Labels(months)
    ensures r.betting == BettingSeries(draws, BetsPerMonth(frequency), months, winRate as real / 100.0, amount, odds)
    ensures r.saving == CompoundedSeries(months, amount * BetsPerMonth(frequency) as real, savingsRate / 100.0)
    ensures r.investing == CompoundedSeries(months, amount * BetsPerMonth(frequency) as real, investmentRate / 100.0)
    ensures r.finalBetting == r.betting[months] == BettingBalance(draws, winRate as real / 100.0, amount, odds)
    ensures r.finalSaving == r.saving[months] && r.finalInvesting == r.investing[months]
    ensures r.totalSpent == amount * |draws| as real
  {
    var winProbability := winRate as real / 100.0;
    var savingsInterest := savingsRate / 100.0;
    var investmentReturn := investmentRate / 100.0;
    var betsPerMonth := BetsPerMonth(frequency);
    var totalBets := MonthEnd(months, betsPerMonth);
    var monthlyAmount := amount * betsPerMonth as real;

    var betting, saving, investing, bettingBalance, savingBalance, investingBalance :=
      PlayMonths(draws, betsPerMonth, months, winProbability, amount, odds,
                 monthlyAmount, savingsInterest, investmentReturn);
    BettingSeriesLast(draws, betsPerMonth, months, winProbability, amount, odds);
    assert monthlyAmount == amount * BetsPerMonth(frequency) as real;

    r := SimulationResults(Labels(months), betting, saving, investing,
                           bettingBalance, savingBalance, investingBalance,
                           amount * totalBets as real);
  }

  /** The closing sentence: how much more investing would have left, or "You were lucky!". */
  datatype Verdict = InvestingWouldLeaveMore(dollars: real) | Lucky

  function Conclusion(r: SimulationResults): (v: Verdict)
    ensures v.Lucky? <==> r.finalBetting >= 0.0
  {
    if r.finalBetting < 0.0 then InvestingWouldLeaveMore(r.finalInvesting - r.finalBetting) else Lucky
  }

  /**
    With a non-negative stake and investment rate, whenever the betting ended
    behind the sentence names more than the total spent: investing keeps at
    least what was paid in, and the betting loss comes on top.
   */
  lemma ConclusionExceedsTotalSpent(r: SimulationResults, amount: real, frequency: Frequency, months: nat,
                                    winRate: int, odds: real, investmentRate: real, draws: seq<real>)
    requires amount >= 0.0 && investmentRate >= 0.0
    requires |draws| == MonthEnd(months, BetsPerMonth(frequency))
    requires r.finalBetting == BettingBalance(draws, winRate as real / 100.0, amount, odds)
    requires r.finalInvesting == Compounded(months, amount * BetsPerMonth(frequency) as real, investmentRate / 100.0)
    requires r.totalSpent == amount * |draws| as real
    ensures Conclusion(r).InvestingWouldLeaveMore? ==> Conclusion(r).dollars > r.totalSpent
  {
    var b := BetsPerMonth(frequency);
    CompoundedAtLeastPaidIn(months, amount * b as real, investmentRate / 100.0);
    MonthEndProduct(months, b);
    assert months as real * (amount * b as real) == amount * |draws| as real;
  }
}
