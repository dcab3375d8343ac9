# betAWARE calculators and simulators in Dafny

betAWARE is a Next.js site about the risks of sports betting. This project
models the logic behind its interactive pages, and proves properties of that
logic:

- the myths **quiz** engine (`components/quiz-component.tsx`);
- the **risk-profile** questionnaire (`app/risk-profile/page.tsx`);
- the **SmartPlay** virtual-bet ledger and its insight lines (`app/smart-play/page.tsx`);
- the **odds converter**, which keeps decimal, American, fractional and
  implied-probability fields in step (`components/visualizations/odds-converter.tsx`);
- the **odds calculator** (`app/odds-calculator/page.tsx`);
- the **expected-value calculator** (`components/visualizations/expected-value-calculator.tsx`);
- the **probability visualizer** (`components/visualizations/probability-visualizer.tsx`);
- the **house-edge visualizer**, with its simulated run and its histogram
  (`components/visualizations/house-edge-visualizer.tsx`);
- the **loss simulator**, which plays a betting habit against saving and
  investing the same money (`app/loss-simulator/page.tsx`).

There is one module per source file. `Common` holds `Option` and
`Math.round`.

How the source is modelled:

- Pages whose state is changed by event handlers are classes. Each handler
  is a method with `modifies this`, and each class has a `Valid()` invariant
  that every handler keeps.
  - `Quiz.QuizSession`, `RiskProfile.Assessment`, `SmartPlay.Simulator` and
    `OddsConverter.Converter` are classes.
- Pure calculations are functions.
- Loops in the source are methods with loop invariants. Each is proved
  against a recursive specification function.
  - The loops are the risk-score sum, the house-edge simulation, the bucket
    count and the loss simulator's month and bet loops.
- Money, odds and probabilities are exact `real`s. `Math.round(x)` is
  `Floor(x + 1/2)`. JavaScript `%` on integers truncates toward zero
  (`JsRem`).
- A JavaScript number that becomes `NaN` or infinite is never excluded by a
  precondition. It is modelled as an explicit outcome:
  - `None` for a text that does not parse or a result that is not finite;
  - `NonFinite` for a converter run that meets a division by zero.
- Every `Math.random()` call is a parameter `draw` or an element of a
  sequence `draws`.

## Model

| member | source | states |
|---|---|---|
| Common.Round | components/visualizations/odds-converter.tsx:42 | `Math.round(x)` is the integer `r` with `r <= x + 1/2 < r + 1`: the nearest integer, halves rounded up |
| Common.RoundMonotone | components/visualizations/probability-visualizer.tsx:142 | rounding keeps the order of its arguments, so the rounded implied count is never below the rounded true count |
| Quiz.FindOption | components/quiz-component.tsx:48 | `find` gives `None` exactly when no option has the id; otherwise it gives the first option with that id |
| Quiz.QuizSession.constructor | components/quiz-component.tsx:30-35 | the initial state (question 0, no selection, score 0, no answers) satisfies the session invariant |
| Quiz.QuizSession.SelectOption | components/quiz-component.tsx:39-43 | the selection changes only while the question is unanswered; nothing else changes |
| Quiz.QuizSession.SubmitAnswer | components/quiz-component.tsx:45-56 | with no selection, an empty selection or an answered question, nothing changes; otherwise the score gains 1 exactly when the selected option is correct, the answer is recorded under the question's id, and the score stays the number of ticked report rows of the questions done |
| Quiz.AnswerCounts | components/quiz-component.tsx:48-54 | recording the answer to the first unanswered question adds exactly that question's tick to the count and leaves later questions unanswered |
| Quiz.QuizSession.NextQuestion | components/quiz-component.tsx:58-66 | before the last question: the next question, with selection and answered flag cleared; on the last: the quiz completes; score and answers are kept |
| Quiz.QuizSession.Reset | components/quiz-component.tsx:68-75 | the retake restores the initial state from any state |
| Quiz.ScoreMessageThresholds | components/quiz-component.tsx:77-83 | the four messages in whole numbers: at least 9/10, 7/10 and 1/2 of the questions, and below half |
| Quiz.ScoreMessageMonotone | components/quiz-component.tsx:77-83 | a higher score never gets a worse message |
| Quiz.QuizSession.TallyBounds | components/quiz-component.tsx:100 | the running tally `score / (index + answered)` never exceeds its denominator, which never exceeds the number of questions |
| Quiz.QuizSession.Progress | components/quiz-component.tsx:103 | the progress bar value stays between 0 and 100 |
| Quiz.ViewOption | components/quiz-component.tsx:109-148 | after submission the correct option is ticked and a wrongly chosen one crossed, and exactly those two show their explanations; before submission only the selection is highlighted |
| Quiz.QuizSession.CompletedScoreIsReport | components/quiz-component.tsx:160-170 | on completion the score equals the number of ticked rows in the report, and is at most the number of questions |
| Quiz.CorrectCountOtherKey | components/quiz-component.tsx:54 | recording an answer under an id that no earlier question has leaves their count of ticks unchanged |
| RiskProfile.Assessment.constructor | app/risk-profile/page.tsx:12-14 | the questionnaire starts at question 0 with no answers and no results |
| RiskProfile.Assessment.HandleAnswer | app/risk-profile/page.tsx:64-66 | the chosen value replaces any earlier answer to the current question; nothing else changes |
| RiskProfile.Assessment.HandleNext | app/risk-profile/page.tsx:68-74 | moves forward, or from the last question shows the results; answers are kept |
| RiskProfile.Assessment.HandleBack | app/risk-profile/page.tsx:76-80 | moves one question back, never before the first; answers and the results flag are kept |
| RiskProfile.Assessment.Retake | app/risk-profile/page.tsx:230-234 | the retake button clears the answers and returns to question 0 with no results |
| RiskProfile.Assessment.CalculateRiskScore | app/risk-profile/page.tsx:82-88 | the loop returns the sum of the recorded answers, which lies between the number of answers and 20 |
| RiskProfile.RiskScoreBounds | app/risk-profile/page.tsx:16-62 | with every answer taken from the option table, the score is at least the number of answers and at most four times it, so at most 20 |
| RiskProfile.RiskProfileThresholds | app/risk-profile/page.tsx:90-128 | the four bands in points out of 20: at least 16, 12 to 15, 8 to 11, and below 8 |
| RiskProfile.RiskProfileMonotone | app/risk-profile/page.tsx:90-128 | a higher score never gives a riskier band |
| RiskProfile.SpecialistAdviceExactlyRisky | app/risk-profile/page.tsx:219-223 | the specialist line appears exactly for the medium-high and high risk bands |
| SmartPlay.Simulator.constructor | app/smart-play/page.tsx:13-20 | the page starts with 1000 dollars, a bet of 50 at 2.0 on football and an empty history |
| SmartPlay.Simulator.PlaceBet | app/smart-play/page.tsx:38-68 | a bet that is not a number, not positive or more than the balance changes nothing; otherwise the settled bet is prepended to the history, the balance becomes its balance-after and the insights are regenerated from the old history followed by the bet; the ledger stays chained and never negative |
| SmartPlay.Settle | app/smart-play/page.tsx:42-59 | the settled bet has the next id, the chosen sport, stake and odds; it is won exactly when the draw is below the sport's win probability; it gains `amount * (odds - 1)` or loses the stake, and its balance-after is the old balance plus that amount |
| SmartPlay.SettledBalanceNonNegative | app/smart-play/page.tsx:40-48 | an accepted bet at odds of at least 1 never takes the balance below zero; a win never lowers it, and a loss lowers it by the stake |
| SmartPlay.ChainedPrepend | app/smart-play/page.tsx:51-61 | prepending a bet with the next id whose balance follows from the previous one keeps the history chained |
| SmartPlay.Simulator.ResetSimulation | app/smart-play/page.tsx:70-76 | the reset restores 1000 dollars, an empty history and no outcome or insights, and keeps the form |
| SmartPlay.Simulator.ChooseBet | app/smart-play/page.tsx:14-16 | the form controls set the bet amount, odds and sport and change nothing else |
| SmartPlay.Simulator.BalanceIsStartPlusProfit | app/smart-play/page.tsx:47-61 | after any sequence of bets, the balance is never negative and equals 1000 plus the sum of all win amounts |
| SmartPlay.ChainedBalanceIsTotal | app/smart-play/page.tsx:48 | in a chained history the newest balance is 1000 plus every win amount |
| SmartPlay.FirstWin | app/smart-play/page.tsx:111 | `findIndex` gives -1 exactly when no bet was won, and otherwise the index of the first win |
| SmartPlay.WinRateLineFacts | app/smart-play/page.tsx:82-95 | the win-rate line appears exactly from the fifth bet on, and quotes wins divided by bets, in per cent |
| SmartPlay.RoiInsightFacts | app/smart-play/page.tsx:86-107 | the ROI line appears from the tenth bet on exactly when the profit is more than 5% of the total staked, either way; a "down" line quotes the loss and an "up" line the profit |
| SmartPlay.ChasingInsightFacts | app/smart-play/page.tsx:109-116 | the chasing line appears exactly when the first three entries of the list passed are losses and the fourth or fifth is the first win; it quotes 3 or 4. The page passes the earlier bets newest first followed by the new bet |
| SmartPlay.BetSizeInsightFacts | app/smart-play/page.tsx:118-124 | the bet-size line appears exactly when the bet is more than 10% of the balance, and quotes that percentage |
| SmartPlay.InsightLines | app/smart-play/page.tsx:78-127 | when each of the four insight lines is shown, stated together |
| SmartPlay.FiveLossesNoChasingLine | app/smart-play/page.tsx:110-116 | five straight losses at the head of the list give no chasing line, because `findIndex` finds no win |
| SmartPlay.ChasingLineMissedAsWritten | app/smart-play/page.tsx:61-67 | as written, after a win and two losses a further loss gives no chasing line, while the same bets newest first would give a line quoting 3 (see Findings) |
| SmartPlay.IntendedChasingFacts | app/smart-play/page.tsx:109-116 | with the new bet first, the line appears exactly when the new bet and the two newest earlier bets were lost and the third or fourth newest earlier bet is the first win |
| OddsConverter.JsRem | components/visualizations/odds-converter.tsx:40 | JavaScript `%` on integers: smaller than the divisor in size, with the sign of the dividend |
| OddsConverter.GcdDivides | components/visualizations/odds-converter.tsx:40 | the recursive `gcd` divides both of its arguments |
| OddsConverter.GcdGreatest | components/visualizations/odds-converter.tsx:40 | every common divisor of the arguments divides their `gcd` |
| OddsConverter.ReduceValue | components/visualizations/odds-converter.tsx:41-44 | the reduced fraction has a non-zero denominator and the value `numerator / 100` |
| OddsConverter.ReduceLowestTerms | components/visualizations/odds-converter.tsx:41-44 | for a numerator of 0 or more, the reduced fraction has a positive denominator and its parts have gcd 1 |
| OddsConverter.FractionForValue | components/visualizations/odds-converter.tsx:41-44 | the written fraction reads back as the numerator over 100 |
| OddsConverter.AmericanFor | components/visualizations/odds-converter.tsx:29-36 | from evens up the American text has a `+` and at least 100; between 1 and 2 it is a minus price above 100 |
| OddsConverter.DecimalFromAmerican | components/visualizations/odds-converter.tsx:49-58 | American text gives decimal odds exactly when it has a number and that number is not an unsigned or minus zero ("0", "00", "-0"); the odds are at least 1, and above 1 for a minus price |
| OddsConverter.AmericanRoundTrip | components/visualizations/odds-converter.tsx:29-36 | American odds written for decimal odds above 1 read back as the same decimal odds |
| OddsConverter.LossNumeratorBounds | components/visualizations/odds-converter.tsx:39-44 | for odds above 1 the numerator over 100 is between 0 and 100, so the fraction is never above 1/1 |
| OddsConverter.ConvertDecimal | components/visualizations/odds-converter.tsx:24-47 | nothing is written unless the decimal text reads as odds above 1; otherwise the typed odds are kept and the probability becomes 100 over them |
| OddsConverter.ConvertAmerican | components/visualizations/odds-converter.tsx:48-70 | nothing is written unless a number remains once the signs are removed; otherwise the American text is kept and the probability becomes 100 over the derived odds |
| OddsConverter.ConvertFractional | components/visualizations/odds-converter.tsx:71-90 | nothing is written unless both parts are numbers and the denominator is not 0; otherwise the fraction is kept and the probability becomes 100 over the derived odds |
| OddsConverter.ConvertProbability | components/visualizations/odds-converter.tsx:91-111 | the probability tab never returns early; when it writes, it keeps the probability and writes odds of 100 over it |
| OddsConverter.Convert | components/visualizations/odds-converter.tsx:20-116 | one effect run returns early exactly on the source's guards; when it writes, the active tab's field is kept and the probability is 100 over the decimal odds |
| OddsConverter.ConversionsInStep | components/visualizations/odds-converter.tsx:20-116 | the decimal and probability tabs leave all four fields in step whenever the odds are above 1 |
| OddsConverter.InStepIsFixedPoint | components/visualizations/odds-converter.tsx:20-116 | fields in step are not changed by a further run of the decimal, American or probability tab |
| OddsConverter.Converter.constructor | components/visualizations/odds-converter.tsx:12-17 | the initial fields, followed by the effect's first run on the decimal tab |
| OddsConverter.Converter.RunEffect | components/visualizations/odds-converter.tsx:20-116 | the fields become the conversion of the active tab, or stay as they were when it writes nothing |
| OddsConverter.Converter.SelectTab | components/visualizations/odds-converter.tsx:153 | choosing a tab runs the effect for that tab |
| OddsConverter.Converter.EditDecimal | components/visualizations/odds-converter.tsx:170 | typed decimal text, followed by an effect run |
| OddsConverter.Converter.EditAmerican | components/visualizations/odds-converter.tsx:181 | typed American text, followed by an effect run |
| OddsConverter.Converter.EditFractional | components/visualizations/odds-converter.tsx:192 | typed fractional text, followed by an effect run |
| OddsConverter.Converter.SlideProbability | components/visualizations/odds-converter.tsx:118-144 | the slider writes the fields the probability tab would write, and they are in step |
| OddsConverter.SliderNumeratorBounds | components/visualizations/odds-converter.tsx:205-212 | on the slider's range from 1 to 99, the fraction's numerator over 100 is between 1 and 99 |
| OddsConverter.FractionFromEvensReadsBackWrong | components/visualizations/odds-converter.tsx:39-44 | decimal odds 2.00 are written as the fraction 1/2, which the fractional tab reads back as 1.5 (see Findings) |
| OddsConverter.IntendedFractionRoundTrip | components/visualizations/odds-converter.tsx:39-44 | the corrected fraction, the profit per unit staked, reads back as the decimal odds within half a hundredth |
| OddsConverter.IntendedFractionOfEvens | components/visualizations/odds-converter.tsx:15 | the corrected fraction for evens is 1/1, the page's initial fraction |
| OddsCalculator.Price | app/odds-calculator/page.tsx:26-43 | whenever a quote has a price (profit per unit and implied probability), its implied probability is not 0, so the true probability and the expected value can be formed from it |
| OddsCalculator.Record | app/odds-calculator/page.tsx:47-59 | the record keeps the stake, the true probability is 95% of the implied one, and the bet is flagged positive exactly when its expected value is above 0 |
| OddsCalculator.CalculateOdds | app/odds-calculator/page.tsx:19-60 | a record exists exactly when the stake parses and the quote has a finite price, and it quotes that stake |
| OddsCalculator.PriceIsFair | app/odds-calculator/page.tsx:26-43 | in all three formats, profit per unit times implied probability equals the losing probability: the quote describes a fair payout |
| OddsCalculator.PotentialWinMatchesImplied | app/odds-calculator/page.tsx:26-55 | the potential win is the stake times the fair profit for the implied probability |
| OddsCalculator.ExpectedValueIsFivePercentLoss | app/odds-calculator/page.tsx:45-58 | whatever the quote, the expected value is -5% of the stake, so a bet is flagged positive exactly when the stake is negative |
| OddsCalculator.ImpliedProbabilityInRange | app/odds-calculator/page.tsx:26-43 | real odds in any format imply a probability strictly between 0 and 1 and a positive profit |
| OddsCalculator.DefaultQuote | app/odds-calculator/page.tsx:62-68 | each format starts with its own example quote |
| OddsCalculator.DefaultQuotesAgree | app/odds-calculator/page.tsx:62-68 | the three example quotes are the same price (profit 1.5 per unit, 40%), so they give the same record |
| OddsCalculator.FormatsAgree | app/odds-calculator/page.tsx:26-43 | an American quote and the decimal and fractional quotes of the same price give the same record |
| ExpectedValue.Figures | components/visualizations/expected-value-calculator.tsx:26-40 | the ROI is missing (`NaN`) exactly when the stake is 0 |
| ExpectedValue.CalculateEV | components/visualizations/expected-value-calculator.tsx:19-46 | figures are produced exactly when stake and odds parse and the odds are at least 1 |
| ExpectedValue.ExpectedValueFormula | components/visualizations/expected-value-calculator.tsx:27-34 | the expected value is the stake times `p * odds - 1`, and the ROI is that in per cent |
| ExpectedValue.BreakEvenInRange | components/visualizations/expected-value-calculator.tsx:37 | the break-even probability is 100 over the odds, in per cent, so it is above 0 and at most 100 |
| ExpectedValue.EdgeIsMargin | components/visualizations/expected-value-calculator.tsx:37-40 | the edge is the win probability minus the break-even probability |
| ExpectedValue.EdgeAndValueAgree | components/visualizations/expected-value-calculator.tsx:30-40 | for a positive stake, the expected value, the ROI and the edge have the same sign |
| ExpectedValue.ProfitableIffPositive | components/visualizations/expected-value-calculator.tsx:155-157 | the label reads "Profitable" exactly for an expected value above 0; a value of exactly 0 reads "Unprofitable" |
| ProbabilityVisualizer.Implied | components/visualizations/probability-visualizer.tsx:16 | the implied probability is at least the true one, and equal to it exactly without a margin |
| ProbabilityVisualizer.BookmakerOddsShorter | components/visualizations/probability-visualizer.tsx:19-20 | the bookmaker's odds never exceed the fair odds, and are shorter whenever there is a margin |
| ProbabilityVisualizer.ExpectedValueIsMarginCost | components/visualizations/probability-visualizer.tsx:23-25 | the expected value is `100 / (1 + margin/100) - 100` whatever the true probability: 0 without a margin, a loss with one |
| ProbabilityVisualizer.LongTermReturn | components/visualizations/probability-visualizer.tsx:204-210 | on the 100-unit stake, the long-term return in per cent is the expected value itself |
| ProbabilityVisualizer.DotColour | components/visualizations/probability-visualizer.tsx:30-41 | each colour exactly for its combination of "below the true count" and "below the implied count" |
| ProbabilityVisualizer.DotCounts | components/visualizations/probability-visualizer.tsx:28-45 | how many dots of each colour `generateDots` draws, for any counts |
| ProbabilityVisualizer.PageDots | components/visualizations/probability-visualizer.tsx:142 | with the sliders in range no dot is blue; the true count is green, red runs up to the rounded implied probability (capped at 100), and the rest is grey |
| ProbabilityVisualizer.BarWidthsSum | components/visualizations/probability-visualizer.tsx:48-74 | the three bar widths add up to 100, the first two are never negative, and the grey one is negative exactly when the implied probability passes 100 |
| ProbabilityVisualizer.BarsOverflowAtTop | components/visualizations/probability-visualizer.tsx:88-108 | at the top of both sliders the implied probability is 118.8%, so the grey bar's width is negative |
| HouseEdge.ExpectedLoss | components/visualizations/house-edge-visualizer.tsx:16-18 | with a non-negative edge and stake, the theoretical loss is never negative |
| HouseEdge.ExpectedLossPerBet | components/visualizations/house-edge-visualizer.tsx:16-18 | each further bet adds `betAmount * edge / 100` to the theoretical loss |
| HouseEdge.GenerateSimulation | components/visualizations/house-edge-visualizer.tsx:21-43 | the loop pushes one record per bet, and the last record holds the final balance |
| HouseEdge.SimulationAt | components/visualizations/house-edge-visualizer.tsx:35-39 | record `i` is bet `i + 1`, with that bet's result and the running balance after it |
| HouseEdge.BalanceByWins | components/visualizations/house-edge-visualizer.tsx:27-33 | the final balance is `100 - edge` per win and -100 per loss |
| HouseEdge.MeanOfBet | components/visualizations/house-edge-visualizer.tsx:27-32 | the mean result of a bet won with a given chance is that chance of `BetResult` above `edge/100` plus the rest of `BetResult` below it |
| HouseEdge.SimulatedBetFavoursBettor | components/visualizations/house-edge-visualizer.tsx:26-32 | as written, for a draw uniform on [0, 1), the mean of `BetResult` is a gain of at least 55 over the slider's range, while the theoretical line shows a loss (see Findings) |
| HouseEdge.GridAbove | components/visualizations/house-edge-visualizer.tsx:27-28 | of 100 draws spread evenly over [0, 1), exactly those from `t + 1` on lie above `t/100` |
| HouseEdge.EvenlySpreadDrawsGain | components/visualizations/house-edge-visualizer.tsx:21-43 | as written, a run of 100 bets over evenly spread draws at any whole edge up to 15 ends at least 5540 ahead, while the theoretical loss is `100 * edge` (see Findings) |
| HouseEdge.MeanOfIntendedBet | components/visualizations/house-edge-visualizer.tsx:26-32 | the corrected bet's mean is half its result above one half plus half its result below |
| HouseEdge.IntendedBetFavoursHouse | components/visualizations/house-edge-visualizer.tsx:26-32 | for a draw uniform on [0, 1), the corrected bet (an even chance paid at `100 - edge`) loses half the edge on average, negative over the slider's range |
| HouseEdge.IntendedBalanceByWins | components/visualizations/house-edge-visualizer.tsx:27-33 | a run of corrected bets ends at `100 - edge` per draw above one half and -100 per other draw |
| HouseEdge.EvenlySpreadIntendedLoses | components/visualizations/house-edge-visualizer.tsx:21-43 | over the same evenly spread draws, a run of corrected bets ends `200 + 49 * edge` behind |
| HouseEdge.BucketKey | components/visualizations/house-edge-visualizer.tsx:113-117 | the bucket key is a multiple of 500, at most the balance and within 500 of it |
| HouseEdge.BucketsCount | components/visualizations/house-edge-visualizer.tsx:116-119 | a bucket exists exactly when a final balance falls in it, and it holds the number that do |
| HouseEdge.FinalsCovered | components/visualizations/house-edge-visualizer.tsx:113-119 | every final balance lands in a bucket: its own |
| HouseEdge.CountBuckets | components/visualizations/house-edge-visualizer.tsx:114-119 | the `forEach` loop builds those buckets, along with the list of their distinct keys, whose counts add up to the number of final balances |
| HouseEdge.SortByBalanceCorrect | components/visualizations/house-edge-visualizer.tsx:121-123 | sorting the entries puts them in strictly increasing order and keeps every entry (a permutation) |
| HouseEdge.SortSum | components/visualizations/house-edge-visualizer.tsx:121-123 | sorting keeps the total of the counts |
| HouseEdge.MaxCount | components/visualizations/house-edge-visualizer.tsx:125 | `Math.max` of the counts is an upper bound of all of them and is one of them; it is `None` for no entries |
| HouseEdge.Distribution | components/visualizations/house-edge-visualizer.tsx:108-125 | the histogram entries are exactly the buckets, ordered by balance, each counting the final balances in it; their counts add up to the number of runs; the maximum count is taken over them |
| LossSimulator.BetsPerMonth | app/loss-simulator/page.tsx:29-32 | 30, 4 or 1 bets a month, and 0 exactly for an unrecognised frequency |
| LossSimulator.Labels | app/loss-simulator/page.tsx:38 | the chart labels are "Start" followed by "Month 1" to "Month m" |
| LossSimulator.RunSimulation | app/loss-simulator/page.tsx:22-78 | the results hold the labels; the betting series holds the balance after each month's bets, and the saving and investing series the same monthly stake compounded at their rates; the final balances are the last points (final betting is the balance over every draw); the total spent is the stake times the number of bets |
| LossSimulator.PlayMonths | app/loss-simulator/page.tsx:47-66 | the month loop builds the betting, saving and investing series and ends on their last points |
| LossSimulator.PlayMonth | app/loss-simulator/page.tsx:49-52 | the inner loop adds the month's bets to the betting balance |
| LossSimulator.MonthEndProduct | app/loss-simulator/page.tsx:35 | the bets played by the end of month `m` number `betsPerMonth * m` |
| LossSimulator.BettingSeriesAt | app/loss-simulator/page.tsx:47-63 | point `m` of the betting series is the balance after the first `m * betsPerMonth` bets |
| LossSimulator.CompoundedSeriesAt | app/loss-simulator/page.tsx:54-64 | point `m` of the saving or investing series is the balance compounded over `m` months |
| LossSimulator.BettingByWins | app/loss-simulator/page.tsx:49-52 | the betting balance is `amount * (odds - 1)` per win minus the stake per loss |
| LossSimulator.BettingLossBounded | app/loss-simulator/page.tsx:49-52 | with a non-negative stake and odds of at least 1, betting never loses more than was staked |
| LossSimulator.EvenOddsBehindIffUnderHalfWon | app/loss-simulator/page.tsx:49-52 | at the default odds of 2.0, a positive stake ends behind exactly when fewer than half of the bets were won |
| LossSimulator.CompoundedWithoutInterest | app/loss-simulator/page.tsx:55-61 | at a rate of 0 the balance is exactly what was paid in |
| LossSimulator.CompoundedAtLeastPaidIn | app/loss-simulator/page.tsx:55-61 | with non-negative payments and rate, the balance is at least what was paid in |
| LossSimulator.CompoundedMonotoneInRate | app/loss-simulator/page.tsx:55-61 | a higher non-negative rate never leaves less |
| LossSimulator.CompoundedGrows | app/loss-simulator/page.tsx:55-61 | with non-negative payments and rate, the balance never falls from one month to the next |
| LossSimulator.SavingWithoutInterestIsTotalSpent | app/loss-simulator/page.tsx:55-76 | without interest, the savings equal the total spent |
| LossSimulator.Conclusion | app/loss-simulator/page.tsx:255-257 | the closing sentence is "You were lucky!" exactly when betting did not end behind |
| LossSimulator.ConclusionExceedsTotalSpent | app/loss-simulator/page.tsx:255-257 | with a non-negative stake and investment rate, whenever betting ended behind, the extra dollars the sentence names exceed the total spent |

## Left out

- Rendering, styling, icons, chart drawing and all wording are left out.
  The insight lines and the messages keep only when they appear and the
  figures they quote. `toFixed` rounding of displayed figures is left out.
- Number parsing is not modelled character by character. `parseFloat`,
  `parseInt` and `Number` appear as already-read values (`Option<real>`,
  `Option<int>`, or `AmericanText` for the American field).
- The converter writes exact values where the page writes `toFixed` text
  (`decimal.toFixed(2)`, `american.toFixed(0)`). Reading that text back in
  the page can give odds a rounding step away, so `OddsConverter.InStepIsFixedPoint`
  holds for exact values only.
- The converter's `isUpdatingFromSlider` flag and its 100 ms `setTimeout` are
  left out. `OddsConverter.Converter.SlideProbability` writes the four fields
  without an effect run, which is what the flag achieves.
- A conversion that meets a division by zero (`NonFinite`) leaves all four
  fields unchanged in the model. The page writes a mix of finite and
  non-finite values instead, for example:
  - fraction "0/5" gives decimal "1.00", implied 100 and American "-Infinity";
  - fraction "-1/1" gives decimal "0.00", American "100" and implied `Infinity`;
  - American "0" gives decimal "Infinity", implied 0 and fraction "1/1".
- A converter field holding `Infinity` or `NaN` text, and the `try`/`catch`,
  are not modelled.
- `OddsCalculator.CalculateOdds`: a record with a `NaN` or infinite figure is
  `None`. The page would still show it, with `NaN` or `Infinity` values.
- The loss simulator reads its text fields with `parseFloat`. A stake, odds
  or rate that does not parse (giving `NaN` balances) is not modelled: the
  inputs are `real`s.
- The `useEffect` that runs the loss simulation on load, and the effect that
  recomputes the expected value, are only the function they call. So is the
  house-edge effect that regenerates the run.
- `Math.random()` is a parameter (`draw`, `draws`). The house-edge
  mean-result lemmas (`HouseEdge.SimulatedBetFavoursBettor`,
  `HouseEdge.IntendedBetFavoursHouse`) assume a draw uniform on [0, 1):
  `ChanceAbove` gives the chance of exceeding a threshold. The
  evenly-spread-draw lemmas take fixed draws instead and assume nothing.
- `HouseEdge.IntendedBetFavoursHouse`: the corrected bet loses `edge/2` per
  bet on average, half the page's theoretical `edge` per bet. No payout in
  the source makes the simulation and the theoretical line agree, so the
  model does not choose one.
- The quiz and risk pages' question texts and explanations are left out.
  The quiz keeps question ids and options with their `isCorrect` flags. The
  risk page keeps the value of each option.
- `QuizSession` requires what the quiz pages supply (`WellFormed`): at
  least one question, distinct ids, and one correct option per question.
- `RiskProfile.Assessment.HandleAnswer` requires the value to be one of the
  current question's options, as the radio buttons ensure.
  `RiskProfile.Assessment.CalculateRiskScore` adds the answers as integers.
  The page stores the option values as strings and reads them with
  `parseInt`.
- `SmartPlay.Simulator.PlaceBet` keeps the page's order for the insights:
  earlier bets newest first, then the new bet. The corrected order (new bet
  first) is stated only by `SmartPlay.IntendedChasingFacts`.
- SmartPlay keeps the index of the chosen sport and odds, not their labels.
  A bet's label and timestamp are left out.
- The house-edge histogram is computed from a given list of final balances
  (`finals`). The hundred runs behind it are `GenerateSimulation` with other
  draws, and are not composed in the model.
- `HouseEdge.GenerateSimulation`: the page reads `[betCount - 1]` of the
  result, which needs at least one bet. The slider's minimum of 10 ensures
  this; the model states the final balance only for `betCount > 0`.

## Findings

| source | as written | input that shows it | evidently intended | confidence | as-written member | corrected member |
|---|---|---|---|---|---|---|
| components/visualizations/odds-converter.tsx:39-44 | the fraction written is `(1 - 1/decimal)` over 1: the probability of losing | decimal odds 2.00 give 1/2, and the fractional tab reads 1/2 back as odds 1.50 | the profit per unit staked, `decimal - 1`, which reads back as the same odds (evens is 1/1, the page's own initial fraction) | high; not executed | OddsConverter.FractionFromEvensReadsBackWrong | OddsConverter.IntendedFractionRoundTrip |
| components/visualizations/house-edge-visualizer.tsx:26-32 | a bet wins when `Math.random() > edge/100`, that is, with chance `1 - edge/100` | 100 draws spread evenly over [0, 1) (0, 0.01, …, 0.99) at an edge of 5: 94 wins and 6 losses end 8330 ahead, while the theoretical line beside it shows a loss of 500 | an even chance paid slightly under evens (`100 - edge`), so the house keeps an edge, as the comments say; the same draws then end 445 behind, although the mean loss of `edge/2` per bet is still half the theoretical line's `edge` | medium; not executed | HouseEdge.EvenlySpreadDrawsGain | HouseEdge.EvenlySpreadIntendedLoses |
| app/smart-play/page.tsx:67 | the insights read the earlier bets newest first followed by the new bet, and the chasing check looks at the first five entries of that list | a win, two losses, then a losing bet: the list read is loss, loss, win, loss, so no chasing line, although the three newest bets were lost | the new bet first, as the history itself is kept (line 61), so the check sees the newest bets | medium; not executed | SmartPlay.ChasingLineMissedAsWritten | SmartPlay.IntendedChasingFacts |
