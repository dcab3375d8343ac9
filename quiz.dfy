/**
  The multiple-choice quiz engine of `components/quiz-component.tsx`.

  A session walks an ordered, non-empty list of questions. For the current
  question the user selects an option (tentatively), submits it (which scores
  it and records it in `answers`), and advances; advancing past the last
  question completes the quiz, and a retake restores the initial state.
 */
module Quiz {
  import opened Common

  datatype AnswerOption = AnswerOption(id: string, isCorrect: bool)

  datatype Question = Question(id: int, options: seq<AnswerOption>)

  /** Number of options of a list marked correct. */
  function CorrectOptions(options: seq<AnswerOption>): nat
  {
    if options == [] then 0
    else CorrectOptions(options[1..]) + (if options[0].isCorrect then 1 else 0)
  }

  /**
    What the quiz pages supply: at least one question, distinct question ids
    and exactly one correct option per question.
   */
  predicate WellFormed(qs: seq<Question>)
  {
    && |qs| > 0
    && (forall i, j :: 0 <= i < j < |qs| ==> qs[i].id != qs[j].id)
    && (forall i :: 0 <= i < |qs| ==> CorrectOptions(qs[i].options) == 1)
  }

  /** `options.find((option) => option.id === id)`: the first option with that id. */
  function FindOption(options: seq<AnswerOption>, id: string): (r: Option<AnswerOption>)
    ensures r.None? <==> forall k :: 0 <= k < |options| ==> options[k].id != id
    ensures r.Some? ==> exists k :: 0 <= k < |options| && options[k] == r.value && r.value.id == id
                                   && forall j :: 0 <= j < k ==> options[j].id != id
  {
    if options == [] then None
    else if options[0].id == id then Some(options[0])
    else
      var r := FindOption(options[1..], id);
      if r.Some? then
        var k :| 0 <= k < |options[1..]| && options[1..][k] == r.value && r.value.id == id
                 && forall j :: 0 <= j < k ==> options[1..][j].id != id;
        assert options[k + 1] == r.value;
        r
      else r
  }

  /**
    `find(...)?.isCorrect || false`: the chosen option is correct; an id that
    names no option counts as incorrect.
   */
  predicate SelectedIsCorrect(q: Question, optionId: string)
  {
    match FindOption(q.options, optionId)
    case Some(o) => o.isCorrect
    case None => false
  }

  /** The tick of one row of the completion report. */
  predicate ReportRow(q: Question, answers: map<int, string>)
  {
    q.id in answers && SelectedIsCorrect(q, answers[q.id])
  }

  /** The number of report rows that carry a tick. */
  function CorrectCount(qs: seq<Question>, answers: map<int, string>): nat
  {
    if qs == [] then 0
    else CorrectCount(qs[..|qs| - 1], answers) + (if ReportRow(qs[|qs| - 1], answers) then 1 else 0)
  }

  lemma {:induction false} CorrectCountBound(qs: seq<Question>, answers: map<int, string>)
    ensures CorrectCount(qs, answers) <= |qs|
  {
    if qs != [] {
      CorrectCountBound(qs[..|qs| - 1], answers);
    }
  }

  /** Entering an answer under a key that no question of `qs` carries leaves the count alone. */
  lemma {:induction false} CorrectCountOtherKey(qs: seq<Question>, answers: map<int, string>, key: int, v: string)
    requires forall i :: 0 <= i < |qs| ==> qs[i].id != key
    ensures CorrectCount(qs, answers[key := v]) == CorrectCount(qs, answers)
  {
    if qs != [] {
      CorrectCountOtherKey(qs[..|qs| - 1], answers, key, v);
    }
  }

  /**
    Answering question `i`, the first without an answer, adds its tick to the
    count of the rows up to it and leaves the later rows unanswered.
   */
  lemma AnswerCounts(qs: seq<Question>, i: nat, answers: map<int, string>, chosen: string)
    requires WellFormed(qs) && i < |qs|
    requires forall j :: i <= j < |qs| ==> qs[j].id !in answers
    ensures CorrectCount(qs[..i + 1], answers[qs[i].id := chosen])
            == CorrectCount(qs[..i], answers) + (if SelectedIsCorrect(qs[i], chosen) then 1 else 0)
    ensures forall j :: i + 1 <= j < |qs| ==> qs[j].id !in answers[qs[i].id := chosen]
  {
    var q := qs[i];
    assert qs[..i + 1][..i] == qs[..i];
    assert forall k :: 0 <= k < i ==> qs[..i][k].id != q.id;
    CorrectCountOtherKey(qs[..i], answers, q.id, chosen);
  }

  /** Rows past `n` without an answer add nothing to the count. */
  lemma {:induction false} CorrectCountUnansweredTail(qs: seq<Question>, n: nat, answers: map<int, string>)
    requires n <= |qs|
    requires forall j :: n <= j < |qs| ==> qs[j].id !in answers
    ensures CorrectCount(qs, answers) == CorrectCount(qs[..n], answers)
  {
    if n < |qs| {
      assert qs[..|qs| - 1][..n] == qs[..n];
      CorrectCountUnansweredTail(qs[..|qs| - 1], n, answers);
    } else {
      assert qs[..n] == qs;
    }
  }

  /** The four bands of `getScoreMessage`. */
  datatype ScoreBand = Excellent | Good | Basic | Review

  /** Higher is better. */
  function BandRank(b: ScoreBand): nat
  {
    match b
    case Review => 0
    case Basic => 1
    case Good => 2
    case Excellent => 3
  }

  /** `getScoreMessage`: bands at 90, 70 and 50 per cent of the questions. */
  function ScoreMessage(score: nat, total: nat): ScoreBand
    requires total > 0
  {
    var percentage := score as real / total as real * 100.0;
    if percentage >= 90.0 then Excellent
    else if percentage >= 70.0 then Good
    else if percentage >= 50.0 then Basic
    else Review
  }

  /** The bands in whole numbers: `score` reaches a band exactly when it reaches its share of `total`. */
  lemma {:induction false} ScoreMessageThresholds(score: nat, total: nat)
    requires total > 0
    ensures ScoreMessage(score, total) == Excellent <==> 10 * score >= 9 * total
    ensures ScoreMessage(score, total) == Good <==> 10 * score < 9 * total && 10 * score >= 7 * total
    ensures ScoreMessage(score, total) == Basic <==> 10 * score < 7 * total && 2 * score >= total
    ensures ScoreMessage(score, total) == Review <==> 2 * score < total
  {
    PercentBelow(score, total, 90.0);
    PercentBelow(score, total, 70.0);
    PercentBelow(score, total, 50.0);
  }

  /** The percentage is below a bound exactly when the score is below that share of the total. */
  lemma PercentBelow(score: nat, total: nat, bound: real)
    requires total > 0
    ensures score as real / total as real * 100.0 < bound <==> score as real * 100.0 < bound * total as real
  {
    var s, t := score as real, total as real;
    var q := s / t;
    assert q * t == s;
    ScaleLess(q * 100.0, bound, t);
    assert q * 100.0 * t == s * 100.0;
  }

  /** A higher score never earns a worse band. */
  lemma ScoreMessageMonotone(s1: nat, s2: nat, total: nat)
    requires total > 0 && s1 <= s2
    ensures BandRank(ScoreMessage(s1, total)) <= BandRank(ScoreMessage(s2, total))
  {
    ScoreMessageThresholds(s1, total);
    ScoreMessageThresholds(s2, total);
  }

  /** How an option is marked once rendered. */
  datatype Mark = Unmarked | Pending | CorrectMark | IncorrectMark

  datatype OptionView = OptionView(mark: Mark, explanationShown: bool)

  /**
    The reveal rule: before submission only the tentative selection is
    highlighted; afterwards the correct option is ticked, a wrongly selected
    option is crossed, and exactly those two show their explanations.
   */
  function ViewOption(option: AnswerOption, selected: Option<string>, hasAnswered: bool): (v: OptionView)
    ensures v.explanationShown <==> hasAnswered && (option.isCorrect || selected == Some(option.id))
    ensures v.mark == CorrectMark <==> hasAnswered && option.isCorrect
    ensures v.mark == IncorrectMark <==> hasAnswered && !option.isCorrect && selected == Some(option.id)
    ensures v.mark == Pending <==> !hasAnswered && selected == Some(option.id)
  {
    var isSelected := selected == Some(option.id);
    var showCorrect := hasAnswered && option.isCorrect;
    var showIncorrect := hasAnswered && isSelected && !option.isCorrect;
    var mark :=
      if showCorrect then CorrectMark
      else if showIncorrect then IncorrectMark
      else if isSelected && !hasAnswered then Pending
      else Unmarked;
    OptionView(mark, hasAnswered && ((isSelected && !option.isCorrect) || option.isCorrect))
  }

  /** One quiz session over a fixed list of questions. */
  class QuizSession {
    const questions: seq<Question>
    var currentQuestionIndex: nat
    var selectedOption: Option<string>
    var hasAnswered: bool
    var score: nat
    var quizCompleted: bool
    var answers: map<int, string>

    /** Questions dealt with so far: the ones before the current one, and it too once answered. */
    function Done(): nat
      reads this
    {
      currentQuestionIndex + if hasAnswered then 1 else 0
    }

    ghost predicate Valid()
      reads this
    {
      && WellFormed(questions)
      && currentQuestionIndex < |questions|
      && (quizCompleted ==> currentQuestionIndex == |questions| - 1)
      && (forall j :: Done() <= j < |questions| ==> questions[j].id !in answers)
      && score == CorrectCount(questions[..Done()], answers)
    }

    constructor (qs: seq<Question>)
      requires WellFormed(qs)
      ensures Valid() && questions == qs
      ensures currentQuestionIndex == 0 && selectedOption == None && !hasAnswered
      ensures score == 0 && !quizCompleted && answers == map[]
    {
      questions := qs;
      currentQuestionIndex := 0;
      selectedOption := None;
      hasAnswered := false;
      score := 0;
      quizCompleted := false;
      answers := map[];
    }

    /** `handleOptionSelect`: a tentative choice, ignored once the question is answered. */
    method SelectOption(optionId: string)
      requires Valid()
      modifies this
      ensures Valid()
      ensures selectedOption == if old(hasAnswered) then old(selectedOption) else Some(optionId)
      ensures currentQuestionIndex == old(currentQuestionIndex) && hasAnswered == old(hasAnswered)
      ensures score == old(score) && quizCompleted == old(quizCompleted) && answers == old(answers)
    {
      if !hasAnswered {
        selectedOption := Some(optionId);
      }
    }

    /**
      `handleSubmitAnswer`: a no-op without a (non-empty) selection or once
      answered; otherwise scores the selection and records it under the
      question's id.
     */
    method SubmitAnswer()
      requires Valid()
      modifies this
      ensures Valid()
      ensures currentQuestionIndex == old(currentQuestionIndex) && selectedOption == old(selectedOption)
      ensures quizCompleted == old(quizCompleted)
      ensures old(selectedOption == None || selectedOption == Some("") || hasAnswered) ==>
                hasAnswered == old(hasAnswered) && score == old(score) && answers == old(answers)
      ensures !old(selectedOption == None || selectedOption == Some("") || hasAnswered) ==>
                var q := questions[currentQuestionIndex];
                && hasAnswered
                && score == old(score) + (if SelectedIsCorrect(q, old(selectedOption).value) then 1 else 0)
                && answers == old(answers)[q.id := old(selectedOption).value]
    {
      if selectedOption == None || selectedOption == Some("") || hasAnswered {
        return;
      }
      var q := questions[currentQuestionIndex];
      var chosen := selectedOption.value;
      AnswerCounts(questions, currentQuestionIndex, answers, chosen);
      if SelectedIsCorrect(q, chosen) {
        score := score + 1;
      }
      answers := answers[q.id := chosen];
      hasAnswered := true;
    }

    /**
      `handleNextQuestion`: moves to the next question with a cleared
      selection, or on the last question completes the quiz.
     */
    method NextQuestion()
      requires Valid()
      modifies this
      ensures Valid()
      ensures score == old(score) && answers == old(answers)
      ensures old(currentQuestionIndex) < |questions| - 1 ==>
                && currentQuestionIndex == old(currentQuestionIndex) + 1
                && selectedOption == None && !hasAnswered && quizCompleted == old(quizCompleted)
      ensures old(currentQuestionIndex) == |questions| - 1 ==>
                && currentQuestionIndex == old(currentQuestionIndex) && quizCompleted
                && selectedOption == old(selectedOption) && hasAnswered == old(hasAnswered)
    {
      if currentQuestionIndex < |questions| - 1 {
        var i := currentQuestionIndex;
        if !hasAnswered {
          assert questions[..i + 1][..i] == questions[..i];
        }
        currentQuestionIndex := currentQuestionIndex + 1;
        selectedOption := None;
        hasAnswered := false;
      } else {
        quizCompleted := true;
      }
    }

    /** `resetQuiz`: the retake, from any state. */
    method Reset()
      requires Valid()
      modifies this
      ensures Valid()
      ensures currentQuestionIndex == 0 && selectedOption == None && !hasAnswered
      ensures score == 0 && !quizCompleted && answers == map[]
    {
      currentQuestionIndex := 0;
      selectedOption := None;
      hasAnswered := false;
      score := 0;
      quizCompleted := false;
      answers := map[];
    }

    /** The running tally `score / (index + answered)` never exceeds its denominator or the quiz length. */
    lemma TallyBounds()
      requires Valid()
      ensures score <= Done() <= |questions|
    {
      CorrectCountBound(questions[..Done()], answers);
    }

    /** The progress bar value, in per cent. */
    function Progress(): (p: real)
      reads this
      requires Valid()
      ensures 0.0 <= p <= 100.0
    {
      Done() as real / |questions| as real * 100.0
    }

    /** On completion the score is the number of ticked rows of the report. */
    lemma CompletedScoreIsReport()
      requires Valid() && quizCompleted
      ensures score == CorrectCount(questions, answers)
      ensures score <= |questions|
    {
      CorrectCountUnansweredTail(questions, Done(), answers);
      CorrectCountBound(questions, answers);
    }
  }
}
