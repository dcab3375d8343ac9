/**
  The risk-profile questionnaire of `app/risk-profile/page.tsx`.

  Five questions, each answered with one option whose value is 1 to 4 (4 the
  healthiest habit). The user moves forward and back through the questions,
  answers are kept per question index, and the results page bands the sum of
  the answers against the maximum score of 20.
 */
module RiskProfile {

  /** The value of each option, per question, in the order the options are listed. */
  const OptionValues: seq<seq<int>> := [
    [1, 2, 3, 4],
    [1, 2, 3, 4],
    [1, 2, 3, 4],
    [4, 3, 2, 1],
    [1, 2, 3, 4]
  ]

  const QuestionCount: nat := 5

  /** `questions.length * 4` */
  const MaxScore: nat := QuestionCount * 4

  /** Sum of the answers recorded for the questions before `k`. */
  function SumUpTo(answers: map<int, int>, k: nat): int
  {
    if k == 0 then 0
    else SumUpTo(answers, k - 1) + (if k - 1 in answers then answers[k - 1] else 0)
  }

  /** Number of questions before `k` that have an answer. */
  function AnsweredUpTo(answers: map<int, int>, k: nat): (n: nat)
    ensures n <= k
  {
    if k == 0 then 0
    else AnsweredUpTo(answers, k - 1) + (if k - 1 in answers then 1 else 0)
  }

  /** `calculateRiskScore`: the sum of every recorded answer (all keys are question indices). */
  function RiskScore(answers: map<int, int>): int
  {
    SumUpTo(answers, QuestionCount)
  }

  /** Answers taken from the option table. */
  ghost predicate AnswersFromTable(answers: map<int, int>)
  {
    forall k :: k in answers ==> 0 <= k < QuestionCount && answers[k] in OptionValues[k]
  }

  /** Every answer lies between 1 and 4, so the score lies between the number of answers and four times it. */
  lemma {:induction false} SumBounds(answers: map<int, int>, k: nat)
    requires AnswersFromTable(answers)
    ensures AnsweredUpTo(answers, k) <= SumUpTo(answers, k) <= 4 * AnsweredUpTo(answers, k)
  {
    if k > 0 {
      SumBounds(answers, k - 1);
      if k - 1 in answers {
        var v := answers[k - 1];
        assert 1 <= v <= 4 by {
          assert v in OptionValues[k - 1];
        }
      }
    }
  }

  /** The risk score is never above 20 and never below the number of answered questions. */
  lemma RiskScoreBounds(answers: map<int, int>)
    requires AnswersFromTable(answers)
    ensures AnsweredUpTo(answers, QuestionCount) <= RiskScore(answers)
    ensures RiskScore(answers) <= 4 * AnsweredUpTo(answers, QuestionCount) <= MaxScore
  {
    SumBounds(answers, QuestionCount);
  }

  datatype RiskLevel = LowRisk | ModerateRisk | MediumHighRisk | HighRisk

  /** Higher is healthier. */
  function LevelRank(level: RiskLevel): nat
  {
    match level
    case HighRisk => 0
    case MediumHighRisk => 1
    case ModerateRisk => 2
    case LowRisk => 3
  }

  /** `(score / maxScore) * 100` */
  function Percentage(score: int): real
  {
    score as real / MaxScore as real * 100.0
  }

  /** `getRiskProfile`: bands at 80, 60 and 40 per cent. */
  function GetRiskProfile(score: int): RiskLevel
  {
    var percentage := Percentage(score);
    if percentage >= 80.0 then LowRisk
    else if percentage >= 60.0 then ModerateRisk
    else if percentage >= 40.0 then MediumHighRisk
    else HighRisk
  }

  /** The bands in whole points out of 20: 16, 12 and 8. */
  lemma RiskProfileThresholds(score: int)
    ensures GetRiskProfile(score) == LowRisk <==> score >= 16
    ensures GetRiskProfile(score) == ModerateRisk <==> 12 <= score < 16
    ensures GetRiskProfile(score) == MediumHighRisk <==> 8 <= score < 12
    ensures GetRiskProfile(score) == HighRisk <==> score < 8
  {
    assert Percentage(score) == score as real * 5.0;
  }

  /** A higher score never gives a riskier band. */
  lemma RiskProfileMonotone(s1: int, s2: int)
    requires s1 <= s2
    ensures LevelRank(GetRiskProfile(s1)) <= LevelRank(GetRiskProfile(s2))
  {
    RiskProfileThresholds(s1);
    RiskProfileThresholds(s2);
  }

  /** The "speak with a specialist" line: shown when the percentage is below 60. */
  predicate ShowsSpecialistAdvice(score: int)
  {
    Percentage(score) < 60.0
  }

  /** The specialist line appears exactly for the two riskiest bands. */
  lemma SpecialistAdviceExactlyRisky(score: int)
    ensures ShowsSpecialistAdvice(score) <==> GetRiskProfile(score) in {MediumHighRisk, HighRisk}
  {
    RiskProfileThresholds(score);
    assert Percentage(score) == score as real * 5.0;
  }

  /** The questionnaire page state. */
  class Assessment {
    var currentQuestion: nat
    var answers: map<int, int>
    var showResults: bool

    ghost predicate Valid()
      reads this
    {
      currentQuestion < QuestionCount && AnswersFromTable(answers)
    }

    constructor ()
      ensures Valid()
      ensures currentQuestion == 0 && answers == map[] && !showResults
    {
      currentQuestion := 0;
      answers := map[];
      showResults := false;
    }

    /** `handleAnswer`: the chosen option's value replaces any earlier answer to the current question. */
    method HandleAnswer(value: int)
      requires Valid()
      requires value in OptionValues[currentQuestion]
      modifies this
      ensures Valid()
      ensures answers == old(answers)[old(currentQuestion) := value]
      ensures currentQuestion == old(currentQuestion) && showResults == old(showResults)
    {
      answers := answers[currentQuestion := value];
    }

    /** `handleNext`: forward, or the results page from the last question. */
    method HandleNext()
      requires Valid()
      modifies this
      ensures Valid()
      ensures answers == old(answers)
      ensures old(currentQuestion) < QuestionCount - 1 ==>
                currentQuestion == old(currentQuestion) + 1 && showResults == old(showResults)
      ensures old(currentQuestion) == QuestionCount - 1 ==>
                currentQuestion == old(currentQuestion) && showResults
    {
      if currentQuestion < QuestionCount - 1 {
        currentQuestion := currentQuestion + 1;
      } else {
        showResults := true;
      }
    }

    /** `handleBack`: one question back, never before the first; answers are kept. */
    method HandleBack()
      requires Valid()
      modifies this
      ensures Valid()
      ensures answers == old(answers) && showResults == old(showResults)
      ensures currentQuestion == if old(currentQuestion) > 0 then old(currentQuestion) - 1 else 0
    {
      if currentQuestion > 0 {
        currentQuestion := currentQuestion - 1;
      }
    }

    /** The "Retake Assessment" button. */
    method Retake()
      requires Valid()
      modifies this
      ensures Valid()
      ensures currentQuestion == 0 && answers == map[] && !showResults
    {
      showResults := false;
      currentQuestion := 0;
      answers := map[];
    }

    /**
      `calculateRiskScore`: adds up the recorded answers in key order, which
      for integer keys is the order `Object.values` yields them in.
     */
    method CalculateRiskScore() returns (total: int)
      requires Valid()
      ensures total == RiskScore(answers)
      ensures AnsweredUpTo(answers, QuestionCount) <= total <= MaxScore
    {
      total := 0;
      var i := 0;
      while i < QuestionCount
        invariant 0 <= i <= QuestionCount
        invariant total == SumUpTo(answers, i)
      {
        if i in answers {
          total := total + answers[i];
        }
        i := i + 1;
      }
      RiskScoreBounds(answers);
    }
  }
}
