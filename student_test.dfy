/** The student's test session (`src/components/StudentTest.tsx`): the
    questions fetched for the session and four arrays indexed by question
    (chosen option, seconds spent, status, review flag), the index of the
    question on screen, and the scored result built when the test ends. */
module StudentTest {
  import opened Js
  import opened Types
  import opened Seqs
  import opened Text

  /** The value `selectedOptions` holds for a question with no answer. */
  const NoOption: int := -1

  /** Seconds recorded for a question whose timer ran out before it was answered. */
  const TimeUpSeconds: int := 60

  /** The seconds the session's handlers record for a question: 0 when the
      questions are loaded, the full 60 when the timer runs out unanswered,
      and a random 20 to 59 from `handleQuestionOptionSelect`, a handler the
      page defines but never calls. */
  predicate RecordableTime(t: int) {
    t == 0 || 20 <= t <= TimeUpSeconds
  }

  /** The seconds the handlers the page does call record: only 0 and 60. */
  predicate PageRecordedTime(t: int) {
    t == 0 || t == TimeUpSeconds
  }

  datatype QuestionStatus = Answered | Unanswered | AnsweredReview | UnansweredReview

  /** `updateQuestionStatus`: the status shows exactly whether the question is
      answered and whether it is marked for review. */
  function StatusOf(selectedOption: int, markedForReview: bool): (s: QuestionStatus)
    ensures (s.Answered? || s.AnsweredReview?) <==> selectedOption != NoOption
    ensures (s.AnsweredReview? || s.UnansweredReview?) <==> markedForReview
  {
    if selectedOption != NoOption then
      (if markedForReview then AnsweredReview else Answered)
    else
      (if markedForReview then UnansweredReview else Unanswered)
  }

  /** `selectedOption === question.correctOption`: a `NaN` key never matches. */
  predicate IsCorrect(selectedOption: int, correctOption: JsInt) {
    correctOption == Int(selectedOption)
  }

  /** The `answers` of a result: one entry per question, in question order. */
  function AnswersOf(questions: seq<Question>, selected: seq<int>, times: seq<int>): seq<Answer>
    requires |selected| == |questions| && |times| == |questions|
  {
    seq(|questions|, i requires 0 <= i < |questions| =>
      Answer(questions[i].id, selected[i], IsCorrect(selected[i], questions[i].correctOption), times[i]))
  }

  /** The number of answers marked correct. */
  function CountCorrect(answers: seq<Answer>): nat {
    if answers == [] then 0
    else CountCorrect(answers[..|answers| - 1]) + (if answers[|answers| - 1].isCorrect then 1 else 0)
  }

  /** The seconds recorded in each answer. */
  function TimesOf(answers: seq<Answer>): seq<int> {
    seq(|answers|, i requires 0 <= i < |answers| => answers[i].timeSpent)
  }

  /** The signed-in user, as read from local storage. */
  datatype CurrentUser = CurrentUser(id: string, username: string, name: Option<string>)

  /** `currentUser.name || currentUser.username` */
  function DisplayName(u: CurrentUser): string {
    if TruthyString(u.name) then u.name.value else u.username
  }

  /** What completing a test takes from outside the session: the user, the
      clock, and the identifier returned by saving (`None` when saving failed
      or returned no row). */
  datatype Completion = Completion(user: CurrentUser, now: int, savedId: Option<string>)

  /** The result `completeTest` builds and keeps. */
  function ResultFor(questions: seq<Question>, selected: seq<int>, times: seq<int>, c: Completion): TestResult
    requires |selected| == |questions| && |times| == |questions|
  {
    var answers := AnswersOf(questions, selected, times);
    TestResult(
      c.savedId.GetOr(""), c.user.id, DisplayName(c.user), c.now,
      CountCorrect(answers), |questions|, Sum(times), answers, None)
  }

  /** The score never exceeds the number of answers. */
  lemma {:induction false} CountCorrectBound(answers: seq<Answer>)
    ensures CountCorrect(answers) <= |answers|
  {
    if answers != [] {
      CountCorrectBound(answers[..|answers| - 1]);
    }
  }

  /** The score counts exactly the answers marked correct: all of them when all are. */
  lemma {:induction false} CountCorrectAll(answers: seq<Answer>)
    requires forall i :: 0 <= i < |answers| ==> answers[i].isCorrect
    ensures CountCorrect(answers) == |answers|
  {
    if answers != [] {
      CountCorrectAll(answers[..|answers| - 1]);
    }
  }

  /** ... and none of them when none is. */
  lemma {:induction false} CountCorrectNone(answers: seq<Answer>)
    requires forall i :: 0 <= i < |answers| ==> !answers[i].isCorrect
    ensures CountCorrect(answers) == 0
  {
    if answers != [] {
      CountCorrectNone(answers[..|answers| - 1]);
    }
  }

  /** The invariants of every result `completeTest` builds: one answer per
      question in question order, each marked correct exactly when its option
      is the question's key, a score between 0 and the number of questions,
      and a time that is the sum of the per-question times. */
  lemma ResultInvariant(questions: seq<Question>, selected: seq<int>, times: seq<int>, c: Completion)
    requires |selected| == |questions| && |times| == |questions|
    requires forall i :: 0 <= i < |times| ==> times[i] >= 0
    ensures var r := ResultFor(questions, selected, times, c);
      && r.totalQuestions == |r.answers| == |questions|
      && (forall i :: 0 <= i < |questions| ==>
            && r.answers[i].questionId == questions[i].id
            && r.answers[i].selectedOption == selected[i]
            && r.answers[i].timeSpent == times[i]
            && (r.answers[i].isCorrect <==> questions[i].correctOption == Int(selected[i])))
      && 0 <= r.score <= r.totalQuestions
      && r.score == CountCorrect(r.answers)
      && r.timeSpent == Sum(times) >= 0
      && TimesOf(r.answers) == times
  {
    var r := ResultFor(questions, selected, times, c);
    CountCorrectBound(r.answers);
    SumNonNegative(times);
  }

  /** Choosing every question's key gives full marks. */
  lemma FullMarks(questions: seq<Question>, selected: seq<int>, times: seq<int>)
    requires |selected| == |questions| && |times| == |questions|
    requires forall i :: 0 <= i < |questions| ==> questions[i].correctOption == Int(selected[i])
    ensures CountCorrect(AnswersOf(questions, selected, times)) == |questions|
  {
    CountCorrectAll(AnswersOf(questions, selected, times));
  }

  /** An unanswered question is never correct when its key is not negative,
      so a test with no answer scores 0. */
  lemma NoAnswerNoMarks(questions: seq<Question>, selected: seq<int>, times: seq<int>)
    requires |selected| == |questions| && |times| == |questions|
    requires forall i :: 0 <= i < |questions| ==> selected[i] == NoOption
    requires forall i :: 0 <= i < |questions| ==> questions[i].correctOption.NaN? || questions[i].correctOption.i >= 0
    ensures CountCorrect(AnswersOf(questions, selected, times)) == 0
  {
    CountCorrectNone(AnswersOf(questions, selected, times));
  }

  /** Two questions, the first answered with its key 2, the second left
      unanswered: the score is 1 and the second answer is -1 and incorrect. */
  lemma TwoQuestionScenario(q1: Question, q2: Question, c: Completion)
    requires q1.correctOption == Int(2)
    requires q2.correctOption.NaN? || q2.correctOption.i >= 0
    ensures var r := ResultFor([q1, q2], [2, NoOption], [40, 60], c);
      r.score == 1 && r.totalQuestions == 2 && r.timeSpent == 100
      && r.answers[1].selectedOption == -1 && !r.answers[1].isCorrect
  {
    var answers := AnswersOf([q1, q2], [2, NoOption], [40, 60]);
    assert answers[0].isCorrect && !answers[1].isCorrect;
    assert answers[..1][..0] == [];
    assert answers[..|answers| - 1] == answers[..1];
    assert CountCorrect(answers[..1]) == 1;
    assert [40, 60][..1] == [40] && [40][..0] == [];
    assert Sum([40, 60]) == 100;
  }

  /** The loop of `completeTest`: builds the answers and counts the correct ones. */
  method ScoreAnswers(questions: seq<Question>, selected: seq<int>, times: seq<int>)
    returns (answers: seq<Answer>, score: nat)
    requires |selected| == |questions| && |times| == |questions|
    ensures answers == AnswersOf(questions, selected, times)
    ensures score == CountCorrect(answers)
  {
    answers, score := [], 0;
    var index := 0;
    while index < |questions|
      invariant 0 <= index <= |questions|
      invariant |answers| == index
      invariant forall k :: 0 <= k < index ==>
        answers[k] == Answer(questions[k].id, selected[k], IsCorrect(selected[k], questions[k].correctOption), times[k])
      invariant score == CountCorrect(answers)
    {
      var isCorrect := Int(selected[index]) == questions[index].correctOption;
      if isCorrect {
        score := score + 1;
      }
      var answer := Answer(questions[index].id, selected[index], isCorrect, times[index]);
      assert (answers + [answer])[..|answers|] == answers;
      answers := answers + [answer];
      index := index + 1;
    }
  }

  class TestSession {
    var questions: seq<Question>
    var currentQuestionIndex: nat
    var selectedOptions: seq<int>
    var timeSpentPerQuestion: seq<int>
    var questionStatus: seq<QuestionStatus>
    var markedForReview: seq<bool>
    var testStarted: bool
    var testComplete: bool
    var testResult: Option<TestResult>

    /** The four arrays follow the questions, every status is derived from its
        answer and review flag, and every time is one the handlers record. The index is
        not part of it: a second fetch can shrink the list under it. */
    ghost predicate Valid()
      reads this
    {
      && |selectedOptions| == |questions|
      && |timeSpentPerQuestion| == |questions|
      && |questionStatus| == |questions|
      && |markedForReview| == |questions|
      && (forall i :: 0 <= i < |questions| ==> questionStatus[i] == StatusOf(selectedOptions[i], markedForReview[i]))
      && (forall i :: 0 <= i < |questions| ==> RecordableTime(timeSpentPerQuestion[i]))
    }

    /** The question handlers are on screen only while the index points at a
        loaded question: the page renders `questions[currentQuestionIndex]`
        and cannot render past the end of the list. */
    predicate Loaded()
      reads this
    {
      currentQuestionIndex < |questions|
    }

    constructor ()
      ensures Valid() && questions == [] && currentQuestionIndex == 0
      ensures !testStarted && !testComplete && testResult == None
    {
      questions := [];
      currentQuestionIndex := 0;
      selectedOptions, timeSpentPerQuestion, questionStatus, markedForReview := [], [], [], [];
      testStarted, testComplete, testResult := false, false, None;
    }

    /** `fetchQuestions` after the query: `fetched` is `None` when the query
        failed. A non-empty list is formatted (its topics are not carried over)
        and the four arrays are reset, wiping any answers given so far;
        otherwise nothing changes and the student is sent back to the
        dashboard. The question index is never reset, so after a shorter
        list it may point past the end. */
    method FetchQuestions(fetched: Option<seq<Question>>) returns (loaded: bool)
      requires Valid()
      modifies this
      ensures Valid()
      ensures loaded <==> fetched.Some? && |fetched.value| > 0
      ensures loaded ==> (Loaded() <==> old(currentQuestionIndex) < |fetched.value|)
      ensures loaded ==> var n := |fetched.value|;
        && |questions| == n
        && (forall i :: 0 <= i < n ==> questions[i] == fetched.value[i].(topic := None))
        && selectedOptions == seq(n, _ => NoOption)
        && timeSpentPerQuestion == seq(n, _ => 0)
        && questionStatus == seq(n, _ => Unanswered)
        && markedForReview == seq(n, _ => false)
      ensures !loaded ==> unchanged(this)
      ensures currentQuestionIndex == old(currentQuestionIndex)
      ensures testStarted == old(testStarted) && testComplete == old(testComplete) && testResult == old(testResult)
    {
      loaded := fetched.Some? && |fetched.value| > 0;
      if loaded {
        var rows := fetched.value;
        var n := |rows|;
        questions := seq(n, i requires 0 <= i < n => rows[i].(topic := None));
        selectedOptions := seq(n, _ => NoOption);
        timeSpentPerQuestion := seq(n, _ => 0);
        questionStatus := seq(n, _ => Unanswered);
        markedForReview := seq(n, _ => false);
      }
    }

    /** `startTest` */
    method StartTest()
      modifies this`testStarted
      ensures testStarted
    {
      testStarted := true;
    }

    /** `updateQuestionStatus(index, selectedOption, isMarkedForReview)` */
    method UpdateQuestionStatus(index: nat, selectedOption: int, isMarkedForReview: bool)
      requires index < |questionStatus|
      modifies this`questionStatus
      ensures questionStatus == old(questionStatus)[index := StatusOf(selectedOption, isMarkedForReview)]
    {
      questionStatus := questionStatus[index := StatusOf(selectedOption, isMarkedForReview)];
    }

    /** `handleOptionChange(value)`: the radio group hands over the option's
        index as a decimal string. Only the current question's option and
        status change; its review flag is kept. */
    method HandleOptionChange(value: string)
      requires Valid() && Loaded()
      requires ParseInt(value).Int?
      modifies this
      ensures Valid()
      ensures questions == old(questions) && currentQuestionIndex == old(currentQuestionIndex)
      ensures selectedOptions == old(selectedOptions)[currentQuestionIndex := ParseInt(value).i]
      ensures questionStatus == old(questionStatus)[currentQuestionIndex := StatusOf(ParseInt(value).i, markedForReview[currentQuestionIndex])]
      ensures timeSpentPerQuestion == old(timeSpentPerQuestion) && markedForReview == old(markedForReview)
      ensures testStarted == old(testStarted) && testComplete == old(testComplete) && testResult == old(testResult)
    {
      var option := ParseInt(value).i;
      selectedOptions := selectedOptions[currentQuestionIndex := option];
      UpdateQuestionStatus(currentQuestionIndex, option, markedForReview[currentQuestionIndex]);
    }

    /** `handleQuestionOptionSelect(option)`: like `HandleOptionChange`, and
        records a random 20 to 59 seconds as the time spent on the question. */
    method HandleQuestionOptionSelect(option: int)
      requires Valid() && Loaded()
      modifies this
      ensures Valid()
      ensures questions == old(questions) && currentQuestionIndex == old(currentQuestionIndex)
      ensures selectedOptions == old(selectedOptions)[currentQuestionIndex := option]
      ensures questionStatus == old(questionStatus)[currentQuestionIndex := StatusOf(option, markedForReview[currentQuestionIndex])]
      ensures 20 <= timeSpentPerQuestion[currentQuestionIndex] <= 59
      ensures timeSpentPerQuestion == old(timeSpentPerQuestion)[currentQuestionIndex := timeSpentPerQuestion[currentQuestionIndex]]
      ensures markedForReview == old(markedForReview)
      ensures testStarted == old(testStarted) && testComplete == old(testComplete) && testResult == old(testResult)
    {
      selectedOptions := selectedOptions[currentQuestionIndex := option];
      UpdateQuestionStatus(currentQuestionIndex, option, markedForReview[currentQuestionIndex]);
      var timeSpent :| 20 <= timeSpent <= 59;
      timeSpentPerQuestion := timeSpentPerQuestion[currentQuestionIndex := timeSpent];
    }

    /** `toggleMarkForReview`: flips the current question's review flag and
        re-derives its status; its answer is untouched. */
    method ToggleMarkForReview()
      requires Valid() && Loaded()
      modifies this
      ensures Valid()
      ensures questions == old(questions) && currentQuestionIndex == old(currentQuestionIndex)
      ensures markedForReview == old(markedForReview)[currentQuestionIndex := !old(markedForReview[currentQuestionIndex])]
      ensures questionStatus == old(questionStatus)[currentQuestionIndex :=
        StatusOf(selectedOptions[currentQuestionIndex], !old(markedForReview[currentQuestionIndex]))]
      ensures selectedOptions == old(selectedOptions) && timeSpentPerQuestion == old(timeSpentPerQuestion)
      ensures testStarted == old(testStarted) && testComplete == old(testComplete) && testResult == old(testResult)
    {
      markedForReview := markedForReview[currentQuestionIndex := !markedForReview[currentQuestionIndex]];
      UpdateQuestionStatus(currentQuestionIndex, selectedOptions[currentQuestionIndex], markedForReview[currentQuestionIndex]);
    }

    /** `completeTest`: scores the session, keeps the result and marks the
        test complete; a successful save only replaces the empty `id`. */
    method CompleteTest(c: Completion)
      requires Valid()
      modifies this
      ensures Valid()
      ensures testComplete
      ensures testResult == Some(ResultFor(questions, selectedOptions, timeSpentPerQuestion, c))
      ensures forall i :: 0 <= i < |testResult.value.answers| ==> RecordableTime(testResult.value.answers[i].timeSpent)
      ensures questions == old(questions) && currentQuestionIndex == old(currentQuestionIndex)
      ensures selectedOptions == old(selectedOptions) && timeSpentPerQuestion == old(timeSpentPerQuestion)
      ensures questionStatus == old(questionStatus) && markedForReview == old(markedForReview)
      ensures testStarted == old(testStarted)
    {
      var answers, score := ScoreAnswers(questions, selectedOptions, timeSpentPerQuestion);
      var totalTimeSpent := Sum(timeSpentPerQuestion);
      var result := TestResult("", c.user.id, DisplayName(c.user), c.now,
                               score, |questions|, totalTimeSpent, answers, None);
      testResult := Some(result);
      testComplete := true;
      if c.savedId.Some? {
        result := result.(id := c.savedId.value);
        testResult := Some(result);
      }
    }

    /** `moveToNextQuestion`: the next question, or completion on the last one. */
    method MoveToNextQuestion(c: Completion)
      requires Valid() && Loaded()
      modifies this
      ensures Valid() && Loaded()
      ensures old(currentQuestionIndex) < |questions| - 1 ==>
        currentQuestionIndex == old(currentQuestionIndex) + 1
        && testComplete == old(testComplete) && testResult == old(testResult)
      ensures old(currentQuestionIndex) == |questions| - 1 ==>
        currentQuestionIndex == old(currentQuestionIndex)
        && testComplete
        && testResult == Some(ResultFor(questions, selectedOptions, timeSpentPerQuestion, c))
      ensures questions == old(questions)
      ensures selectedOptions == old(selectedOptions) && timeSpentPerQuestion == old(timeSpentPerQuestion)
      ensures questionStatus == old(questionStatus) && markedForReview == old(markedForReview)
      ensures testStarted == old(testStarted)
    {
      if currentQuestionIndex < |questions| - 1 {
        currentQuestionIndex := currentQuestionIndex + 1;
      } else {
        CompleteTest(c);
      }
    }

    /** `goToQuestion(index)`, reachable from the navigator's buttons, one per question. */
    method GoToQuestion(index: nat)
      requires Valid() && index < |questions|
      modifies this`currentQuestionIndex
      ensures Valid() && Loaded() && currentQuestionIndex == index
    {
      currentQuestionIndex := index;
    }

    /** `handleTimeUp`: an unanswered question is charged the full 60 seconds,
        no answer changes, then the session moves on as `moveToNextQuestion`
        does. The charge is a state update that lands only after the handler
        returns, so on the last question the result is scored with the times
        as they were when the timer ran out. */
    method HandleTimeUp(c: Completion)
      requires Valid() && Loaded()
      modifies this
      ensures Valid() && Loaded()
      ensures selectedOptions == old(selectedOptions)
      ensures timeSpentPerQuestion ==
        if old(selectedOptions[currentQuestionIndex]) == NoOption
        then old(timeSpentPerQuestion)[old(currentQuestionIndex) := TimeUpSeconds]
        else old(timeSpentPerQuestion)
      ensures old(currentQuestionIndex) < |questions| - 1 ==>
        currentQuestionIndex == old(currentQuestionIndex) + 1
        && testComplete == old(testComplete) && testResult == old(testResult)
      ensures old(currentQuestionIndex) == |questions| - 1 ==>
        currentQuestionIndex == old(currentQuestionIndex)
        && testComplete
        && testResult == Some(ResultFor(questions, selectedOptions, old(timeSpentPerQuestion), c))
      ensures questions == old(questions)
      ensures questionStatus == old(questionStatus) && markedForReview == old(markedForReview)
      ensures testStarted == old(testStarted)
    {
      var index := currentQuestionIndex;
      var charged := selectedOptions[index] == NoOption;
      MoveToNextQuestion(c);
      if charged {
        timeSpentPerQuestion := timeSpentPerQuestion[index := TimeUpSeconds];
      }
    }
  }

  /** Marking a question for review twice leaves the session as it was. */
  method ToggleTwiceRestores(s: TestSession)
    requires s.Valid() && s.Loaded()
    modifies s
    ensures s.Valid()
    ensures s.markedForReview == old(s.markedForReview) && s.questionStatus == old(s.questionStatus)
    ensures s.selectedOptions == old(s.selectedOptions) && s.currentQuestionIndex == old(s.currentQuestionIndex)
    ensures s.questions == old(s.questions) && s.timeSpentPerQuestion == old(s.timeSpentPerQuestion)
    ensures s.testStarted == old(s.testStarted) && s.testComplete == old(s.testComplete) && s.testResult == old(s.testResult)
  {
    s.ToggleMarkForReview();
    s.ToggleMarkForReview();
  }

  /** One question left unanswered until its timer runs out: the session
      keeps the 60-second charge, but the result it scored and saved records
      no time for the question. */
  method TimeUpOnOnlyQuestion(q: Question, c: Completion) returns (s: TestSession)
    ensures s.testComplete && s.timeSpentPerQuestion == [TimeUpSeconds]
    ensures s.testResult.Some? && s.testResult.value.timeSpent == 0
    ensures |s.testResult.value.answers| == 1 && s.testResult.value.answers[0].timeSpent == 0
  {
    s := new TestSession();
    var loaded := s.FetchQuestions(Some([q]));
    s.HandleTimeUp(c);
    assert Sum([0]) == 0;
  }
}
