/**
  The virtual-bet ledger of `app/smart-play/page.tsx` (SmartPlay mode).

  A bankroll starts at 1000 virtual dollars. Each accepted bet is settled at
  once (the random draw is a parameter), prepended to a newest-first history
  and followed by a fresh list of insight lines; a reset restores the start.
 */
module SmartPlay {
  import opened Common

  datatype Sport = Sport(value: string, winProb: real)

  /** `sports`: the true win probability of each sport. */
  const Sports: seq<Sport> := [
    Sport("football", 0.48),
    Sport("basketball", 0.46),
    Sport("baseball", 0.42),
    Sport("hockey", 0.45),
    Sport("soccer", 0.4)
  ]

  datatype OddsChoice = OddsChoice(value: string, odds: real, impliedProb: real)

  /** `oddsOptions`: the decimal odds offered, with the probability each label quotes. */
  const OddsOptions: seq<OddsChoice> := [
    OddsChoice("1.5", 1.5, 0.67),
    OddsChoice("1.8", 1.8, 0.56),
    OddsChoice("2.0", 2.0, 0.5),
    OddsChoice("2.5", 2.5, 0.4),
    OddsChoice("3.0", 3.0, 0.33)
  ]

  const InitialBalance: real := 1000.0

  /** One settled bet of the history (the display label and timestamp are left out). */
  datatype Bet = Bet(id: nat, sport: nat, amount: real, odds: real, win: bool, winAmount: real, balanceAfter: real)

  /** `win ? amount * (odds - 1) : -amount` */
  function WinAmount(amount: real, odds: real, win: bool): real
  {
    if win then amount * (odds - 1.0) else -amount
  }

  /** The guard of `placeBet`: a number, positive, and no more than the balance. */
  predicate Accepted(amount: Option<real>, balance: real)
  {
    amount.Some? && amount.value > 0.0 && amount.value <= balance
  }

  /** An accepted bet at odds of at least 1 never takes the balance below zero. */
  lemma SettledBalanceNonNegative(amount: Option<real>, balance: real, odds: real, win: bool)
    requires Accepted(amount, balance) && odds >= 1.0
    ensures balance + WinAmount(amount.value, odds, win) >= 0.0
    ensures win ==> balance + WinAmount(amount.value, odds, win) >= balance
    ensures !win ==> balance + WinAmount(amount.value, odds, win) == balance - amount.value
  {
    if win {
      assert amount.value * (odds - 1.0) >= 0.0;
    }
  }

  /**
    The newest-first history as the page keeps it: ids count down to 1, each
    balance is the next older one plus this bet's win amount, and the oldest
    bet started from the initial balance.
   */
  ghost predicate Chained(h: seq<Bet>)
  {
    && (forall i :: 0 <= i < |h| ==> h[i].id == |h| - i)
    && (forall i :: 0 <= i < |h| - 1 ==> h[i].balanceAfter == h[i + 1].balanceAfter + h[i].winAmount)
    && (|h| > 0 ==> h[|h| - 1].balanceAfter == InitialBalance + h[|h| - 1].winAmount)
  }

  /**
    Prepending a bet keeps the history chained when its id is one more than
    the history's length and its balance is the previous balance plus its
    win amount; balances that were never negative stay so when the new one
    is not.
   */
  lemma ChainedPrepend(h: seq<Bet>, bet: Bet)
    requires Chained(h)
    requires bet.id == |h| + 1
    requires bet.balanceAfter == (if h == [] then InitialBalance else h[0].balanceAfter) + bet.winAmount
    ensures Chained([bet] + h)
  {
    var h' := [bet] + h;
    forall i | 0 <= i < |h'|
      ensures h'[i].id == |h'| - i
    {
      if i > 0 {
        assert h'[i] == h[i - 1];
      }
    }
    forall i | 0 <= i < |h'| - 1
      ensures h'[i].balanceAfter == h'[i + 1].balanceAfter + h'[i].winAmount
    {
      if i > 0 {
        assert h'[i] == h[i - 1] && h'[i + 1] == h[i];
      }
    }
  }

  /**
    The bet `placeBet` records: the next id, the stake at the selected odds
    on the selected sport, won when the draw is below the sport's win
    probability, and the balance after it.
   */
  function Settle(history: seq<Bet>, balance: real, amount: real, oddsIndex: nat, sportIndex: nat, draw: real): (bet: Bet)
    requires oddsIndex < |OddsOptions| && sportIndex < |Sports|
    ensures bet.id == |history| + 1 && bet.sport == sportIndex && bet.amount == amount
    ensures bet.odds == OddsOptions[oddsIndex].odds
    ensures bet.win <==> draw < Sports[sportIndex].winProb
    ensures bet.balanceAfter == balance + bet.winAmount
    ensures bet.winAmount == if bet.win then amount * (bet.odds - 1.0) else -amount
  {
    var odds := OddsOptions[oddsIndex].odds;
    var win := draw < Sports[sportIndex].winProb;
    var winAmount := WinAmount(amount, odds, win);
    Bet(|history| + 1, sportIndex, amount, odds, win, winAmount, balance + winAmount)
  }

  /** Prepending a bet whose balance is not negative keeps every balance non-negative. */
  lemma NonNegativePrepend(h: seq<Bet>, bet: Bet)
    requires forall i :: 0 <= i < |h| ==> h[i].balanceAfter >= 0.0
    requires bet.balanceAfter >= 0.0
    ensures forall i :: 0 <= i < |[bet] + h| ==> ([bet] + h)[i].balanceAfter >= 0.0
  {
    forall i | 0 <= i < |[bet] + h|
      ensures ([bet] + h)[i].balanceAfter >= 0.0
    {
      if i > 0 {
        assert ([bet] + h)[i] == h[i - 1];
      }
    }
  }

  /** Sum of the win amounts of a list of bets (`reduce((sum, bet) => sum + bet.winAmount, 0)`). */
  function TotalProfit(h: seq<Bet>): real
  {
    if h == [] then 0.0 else h[0].winAmount + TotalProfit(h[1..])
  }

  /** The latest balance of a chained history is the initial balance plus every win amount. */
  lemma {:induction false} ChainedBalanceIsTotal(h: seq<Bet>)
    requires Chained(h) && |h| > 0
    ensures h[0].balanceAfter == InitialBalance + TotalProfit(h)
  {
    if |h| > 1 {
      assert Chained(h[1..]);
      ChainedBalanceIsTotal(h[1..]);
    }
  }

  /** `filter((bet) => bet.win).length` */
  function Wins(h: seq<Bet>): (n: nat)
    ensures n <= |h|
  {
    if h == [] then 0 else (if h[0].win then 1 else 0) + Wins(h[1..])
  }

  /** `findIndex((bet) => bet.win)`: the index of the first win, or -1. */
  function FirstWin(h: seq<Bet>): (k: int)
    ensures -1 <= k < |h|
    ensures k == -1 <==> forall i :: 0 <= i < |h| ==> !h[i].win
    ensures k >= 0 ==> h[k].win && forall i :: 0 <= i < k ==> !h[i].win
  {
    if h == [] then -1
    else if h[0].win then 0
    else
      var k := FirstWin(h[1..]);
      if k == -1 then -1 else k + 1
  }

  function Min(a: int, b: int): int { if a <= b then a else b }

  datatype RoiLine = DownLine(loss: real, roi: real) | UpLine(profit: real, roi: real)

  /**
    The four insight lines, each present or absent, in the order they are
    pushed (the wording is left out, the figures they quote are kept).
   */
  datatype Insights = Insights(
    winRateLine: Option<(real, real)>,
    roiLine: Option<RoiLine>,
    chasingLine: Option<int>,
    betSizeLine: Option<real>)

  const NoInsights: Insights := Insights(None, None, None, None)

  /** The win-rate line: from five bets on, the win rate beside the probability the odds quote. */
  function WinRateLine(history: seq<Bet>, impliedProb: real): Option<(real, real)>
  {
    var totalBets := |history|;
    var winRate := if totalBets > 0 then Wins(history) as real / totalBets as real * 100.0 else 0.0;
    if totalBets >= 5 then Some((winRate, impliedProb * 100.0)) else None
  }

  /** The ROI line: from ten bets on, when the return on the total staked is beyond 5% either way. */
  function RoiInsight(history: seq<Bet>, betAmount: real): Option<RoiLine>
    requires betAmount > 0.0
  {
    var totalBets := |history|;
    var totalProfit := TotalProfit(history);
    var roi := if totalBets > 0 then totalProfit / (totalBets as real * betAmount) * 100.0 else 0.0;
    if totalBets >= 10 then
      if roi < -5.0 then Some(DownLine(if totalProfit < 0.0 then -totalProfit else totalProfit, roi))
      else if roi > 5.0 then Some(UpLine(totalProfit, roi))
      else None
    else None
  }

  /** The chasing line: the number of losses before the first win among the last five bets, when it is at least 3. */
  function ChasingInsight(history: seq<Bet>): Option<int>
  {
    var recentBets := history[..Min(5, |history|)];
    var consecutiveLosses := FirstWin(recentBets);
    if consecutiveLosses >= 3 then Some(consecutiveLosses) else None
  }

  /** The bet-size line: the bet as a percentage of the balance, when above 10. */
  function BetSizeInsight(betAmount: real, balance: real): Option<real>
    requires balance > 0.0
  {
    var betSizePercentage := betAmount / balance * 100.0;
    if betSizePercentage > 10.0 then Some(betSizePercentage) else None
  }

  /**
    `generateInsights`: `history` is the list the page passes, `betAmount`
    the parsed bet field, `balance` the balance before the bet and
    `impliedProb` the quoted probability of the selected odds.
   */
  function GenerateInsights(history: seq<Bet>, betAmount: real, balance: real, impliedProb: real): Insights
    requires betAmount > 0.0 && balance > 0.0
  {
    Insights(WinRateLine(history, impliedProb), RoiInsight(history, betAmount),
             ChasingInsight(history), BetSizeInsight(betAmount, balance))
  }

  /** The win-rate line appears from the fifth bet on and quotes the share of bets won, in per cent. */
  lemma {:induction false} WinRateLineFacts(history: seq<Bet>, impliedProb: real)
    ensures WinRateLine(history, impliedProb).Some? <==> |history| >= 5
    ensures WinRateLine(history, impliedProb).Some? ==>
              WinRateLine(history, impliedProb).value.0 * |history| as real == Wins(history) as real * 100.0
  {
    if |history| >= 5 {
      RateTimesCount(Wins(history), |history|, WinRateLine(history, impliedProb).value.0);
    }
  }

  /**
    The ROI line appears from the tenth bet on exactly when the profit is
    beyond 5% of the total staked; a "down" line quotes the loss and an "up"
    line the profit.
   */
  lemma RoiInsightFacts(history: seq<Bet>, betAmount: real)
    requires betAmount > 0.0
    ensures var line := RoiInsight(history, betAmount);
            (line.Some? <==>
              |history| >= 10 && (TotalProfit(history) * 100.0 < -5.0 * |history| as real * betAmount
                                  || TotalProfit(history) * 100.0 > 5.0 * |history| as real * betAmount))
            && (line.Some? && line.value.DownLine? ==> TotalProfit(history) < 0.0 && line.value.loss == -TotalProfit(history))
            && (line.Some? && line.value.UpLine? ==> TotalProfit(history) > 0.0 && line.value.profit == TotalProfit(history))
  {
    var totalBets := |history|;
    var totalProfit := TotalProfit(history);
    var roi := if totalBets > 0 then totalProfit / (totalBets as real * betAmount) * 100.0 else 0.0;
    RoiFacts(totalProfit, totalBets, betAmount, roi);
  }

  /**
    The chasing line appears exactly when the first three entries of the list
    passed are losses and the fourth or fifth is the first win, and quotes the
    losses before it. `placeBet` passes the earlier bets newest first followed
    by the new bet, so from five earlier bets on the new bet is not among them.
   */
  lemma ChasingInsightFacts(history: seq<Bet>)
    ensures ChasingInsight(history).Some? <==>
              |history| >= 4 && !history[0].win && !history[1].win && !history[2].win
              && (history[3].win || (|history| >= 5 && history[4].win))
    ensures ChasingInsight(history).Some? ==> ChasingInsight(history).value == (if history[3].win then 3 else 4)
  {
    ChasingFacts(history, history[..Min(5, |history|)]);
  }

  /** The bet-size line appears exactly when the bet is over 10% of the balance, and quotes that percentage. */
  lemma BetSizeInsightFacts(betAmount: real, balance: real)
    requires balance > 0.0
    ensures BetSizeInsight(betAmount, balance).Some? <==> betAmount * 100.0 > 10.0 * balance
    ensures BetSizeInsight(betAmount, balance).Some? ==> BetSizeInsight(betAmount, balance).value * balance == betAmount * 100.0
  {
    BetSizeFact(betAmount, balance);
  }

  /** When each of the four insight lines is shown. */
  lemma InsightLines(history: seq<Bet>, betAmount: real, balance: real, impliedProb: real)
    requires betAmount > 0.0 && balance > 0.0
    ensures var r := GenerateInsights(history, betAmount, balance, impliedProb);
            && (r.winRateLine.Some? <==> |history| >= 5)
            && (r.roiLine.Some? <==>
                  |history| >= 10 && (TotalProfit(history) * 100.0 < -5.0 * |history| as real * betAmount
                                      || TotalProfit(history) * 100.0 > 5.0 * |history| as real * betAmount))
            && (r.chasingLine.Some? <==>
                  |history| >= 4 && !history[0].win && !history[1].win && !history[2].win
                  && (history[3].win || (|history| >= 5 && history[4].win)))
            && (r.betSizeLine.Some? <==> betAmount * 100.0 > 10.0 * balance)
  {
    WinRateLineFacts(history, impliedProb);
    RoiInsightFacts(history, betAmount);
    ChasingInsightFacts(history);
    BetSizeInsightFacts(betAmount, balance);
  }

  lemma RoiFacts(totalProfit: real, totalBets: nat, betAmount: real, roi: real)
    requires betAmount > 0.0
    requires roi == if totalBets > 0 then totalProfit / (totalBets as real * betAmount) * 100.0 else 0.0
    ensures totalBets > 0 ==> (roi < -5.0 <==> totalProfit * 100.0 < -5.0 * totalBets as real * betAmount)
    ensures totalBets > 0 ==> (roi > 5.0 <==> totalProfit * 100.0 > 5.0 * totalBets as real * betAmount)
    ensures totalBets > 0 ==> (roi < -5.0 ==> totalProfit < 0.0) && (roi > 5.0 ==> totalProfit > 0.0)
  {
    if totalBets > 0 {
      var staked := totalBets as real * betAmount;
      var scaled := totalProfit * 100.0;
      var lower := -5.0 * staked;
      assert staked > 0.0;
      assert roi == scaled / staked;
      assert roi * staked == scaled;
      ScaleLess(roi, -5.0, staked);
      ScaleLess(5.0, roi, staked);
      assert lower == -5.0 * totalBets as real * betAmount;
    }
  }

  lemma RateTimesCount(wins: nat, count: nat, rate: real)
    requires count > 0 && rate == wins as real / count as real * 100.0
    ensures rate * count as real == wins as real * 100.0
  {
    var q := wins as real / count as real;
    assert q * count as real == wins as real;
    assert q * 100.0 * count as real == (q * count as real) * 100.0;
  }

  lemma BetSizeFact(betAmount: real, balance: real)
    requires balance > 0.0
    ensures betAmount / balance * 100.0 > 10.0 <==> betAmount * 100.0 > 10.0 * balance
    ensures betAmount / balance * 100.0 * balance == betAmount * 100.0
  {
    assert betAmount / balance * 100.0 * balance == betAmount * 100.0;
  }

  lemma ChasingFacts(history: seq<Bet>, recent: seq<Bet>)
    requires recent == history[..Min(5, |history|)]
    ensures FirstWin(recent) >= 3 <==>
              |history| >= 4 && !history[0].win && !history[1].win && !history[2].win
              && (history[3].win || (|history| >= 5 && history[4].win))
  {
    var k := FirstWin(recent);
    if |history| >= 4 && !history[0].win && !history[1].win && !history[2].win
       && (history[3].win || (|history| >= 5 && history[4].win)) {
      assert !recent[0].win && !recent[1].win && !recent[2].win;
      if history[3].win {
        assert recent[3].win;
      } else {
        assert recent[4].win;
      }
    }
  }

  /** Five straight losses at the head of the list produce no chasing line at all. */
  lemma FiveLossesNoChasingLine(history: seq<Bet>, betAmount: real, balance: real, impliedProb: real)
    requires betAmount > 0.0 && balance > 0.0
    requires |history| >= 5 && forall i :: 0 <= i < 5 ==> !history[i].win
    ensures GenerateInsights(history, betAmount, balance, impliedProb).chasingLine == None
  {
    ChasingInsightFacts(history);
  }

  /**
    As written, the bet just placed goes at the end of the list the insights
    read. After a win and two losses, a further loss gives no chasing line,
    although the three newest bets were lost and the fourth newest won.
   */
  lemma ChasingLineMissedAsWritten(won: Bet, lost1: Bet, lost2: Bet, bet: Bet)
    requires won.win && !lost1.win && !lost2.win && !bet.win
    ensures ChasingInsight([lost2, lost1, won] + [bet]) == None
    ensures ChasingInsight([bet] + [lost2, lost1, won]) == Some(3)
  {
    ChasingInsightFacts([lost2, lost1, won] + [bet]);
    ChasingInsightFacts([bet] + [lost2, lost1, won]);
  }

  /** The chasing line over the bets newest first, the new bet included. */
  function IntendedChasingInsight(history: seq<Bet>, bet: Bet): Option<int>
  {
    ChasingInsight([bet] + history)
  }

  /**
    With the new bet first, the line appears exactly when the new bet and the
    two newest earlier bets were lost and the third or fourth newest earlier
    bet is the first win, and it quotes the losses in a row.
   */
  lemma IntendedChasingFacts(history: seq<Bet>, bet: Bet)
    ensures IntendedChasingInsight(history, bet).Some? <==>
              |history| >= 3 && !bet.win && !history[0].win && !history[1].win
              && (history[2].win || (|history| >= 4 && history[3].win))
    ensures IntendedChasingInsight(history, bet).Some? ==>
              IntendedChasingInsight(history, bet).value == (if history[2].win then 3 else 4)
  {
    var h := [bet] + history;
    ChasingInsightFacts(h);
    if |h| >= 4 {
      assert h[1] == history[0] && h[2] == history[1] && h[3] == history[2];
    }
    if |h| >= 5 {
      assert h[4] == history[3];
    }
  }

  /** The SmartPlay page state. */
  class Simulator {
    var virtualBalance: real
    /** The bet field as `parseFloat` reads it (`None` for `NaN`). */
    var betAmount: Option<real>
    /** Index of the selected entry of `OddsOptions`. */
    var selectedOdds: nat
    /** Index of the selected entry of `Sports`. */
    var selectedSport: nat
    var bettingHistory: seq<Bet>
    var showOutcome: bool
    var lastOutcome: Option<Bet>
    var insights: Insights

    ghost predicate Valid()
      reads this
    {
      && selectedOdds < |OddsOptions|
      && selectedSport < |Sports|
      && Chained(bettingHistory)
      && virtualBalance == (if bettingHistory == [] then InitialBalance else bettingHistory[0].balanceAfter)
      && (forall i :: 0 <= i < |bettingHistory| ==> bettingHistory[i].balanceAfter >= 0.0)
    }

    /** The page's initial state: 1000 dollars, a bet of 50 at 2.0 on football. */
    constructor ()
      ensures Valid()
      ensures virtualBalance == InitialBalance && bettingHistory == []
      ensures betAmount == Some(50.0) && selectedOdds == 2 && selectedSport == 0
      ensures !showOutcome && lastOutcome == None && insights == NoInsights
    {
      virtualBalance := InitialBalance;
      betAmount := Some(50.0);
      selectedOdds := 2;
      selectedSport := 0;
      bettingHistory := [];
      showOutcome := false;
      lastOutcome := None;
      insights := NoInsights;
    }

    /** The three form controls: bet amount, odds and sport. */
    method ChooseBet(amount: Option<real>, oddsIndex: nat, sportIndex: nat)
      requires Valid()
      requires oddsIndex < |OddsOptions| && sportIndex < |Sports|
      modifies this
      ensures Valid()
      ensures betAmount == amount && selectedOdds == oddsIndex && selectedSport == sportIndex
      ensures virtualBalance == old(virtualBalance) && bettingHistory == old(bettingHistory)
      ensures showOutcome == old(showOutcome) && lastOutcome == old(lastOutcome) && insights == old(insights)
    {
      betAmount, selectedOdds, selectedSport := amount, oddsIndex, sportIndex;
    }

    /**
      `placeBet`, with `draw` the value `Math.random()` returned: the bet
      wins when the draw is below the sport's win probability.
     */
    method PlaceBet(draw: real)
      requires Valid()
      modifies this
      ensures Valid()
      ensures betAmount == old(betAmount) && selectedOdds == old(selectedOdds) && selectedSport == old(selectedSport)
      ensures !Accepted(old(betAmount), old(virtualBalance)) ==>
                && virtualBalance == old(virtualBalance) && bettingHistory == old(bettingHistory)
                && showOutcome == old(showOutcome) && lastOutcome == old(lastOutcome) && insights == old(insights)
      ensures Accepted(old(betAmount), old(virtualBalance)) ==>
                var bet := Settle(old(bettingHistory), old(virtualBalance), old(betAmount).value,
                                  old(selectedOdds), old(selectedSport), draw);
                && bettingHistory == [bet] + old(bettingHistory)
                && virtualBalance == bet.balanceAfter
                && lastOutcome == Some(bet) && showOutcome
                && insights == GenerateInsights(old(bettingHistory) + [bet], bet.amount, old(virtualBalance),
                                                OddsOptions[old(selectedOdds)].impliedProb)
    {
      if betAmount.None? || betAmount.value <= 0.0 || betAmount.value > virtualBalance {
        return;
      }
      var previous, balanceBefore, amount := bettingHistory, virtualBalance, betAmount.value;
      var bet := Settle(previous, balanceBefore, amount, selectedOdds, selectedSport, draw);
      SettledBalanceNonNegative(betAmount, balanceBefore, bet.odds, bet.win);
      ChainedPrepend(previous, bet);
      NonNegativePrepend(previous, bet);
      bettingHistory := [bet] + previous;
      virtualBalance := bet.balanceAfter;
      lastOutcome := Some(bet);
      showOutcome := true;
      insights := GenerateInsights(previous + [bet], amount, balanceBefore, OddsOptions[selectedOdds].impliedProb);
    }

    /** `resetSimulation` */
    method ResetSimulation()
      requires Valid()
      modifies this
      ensures Valid()
      ensures virtualBalance == InitialBalance && bettingHistory == []
      ensures !showOutcome && lastOutcome == None && insights == NoInsights
      ensures betAmount == old(betAmount) && selectedOdds == old(selectedOdds) && selectedSport == old(selectedSport)
    {
      virtualBalance := InitialBalance;
      bettingHistory := [];
      showOutcome := false;
      lastOutcome := None;
      insights := NoInsights;
    }

    /** Over any sequence of bets the bankroll is never negative and equals 1000 plus every win amount. */
    lemma BalanceIsStartPlusProfit()
      requires Valid()
      ensures virtualBalance >= 0.0
      ensures virtualBalance == InitialBalance + TotalProfit(bettingHistory)
    {
      if bettingHistory != [] {
        ChainedBalanceIsTotal(bettingHistory);
      }
    }
  }
}
