/** The fixture results of `src/mock/data.ts`: each is exactly the result a
    test session over the first mock questions builds from its selections and
    times. */
module MockData {
  import opened Js
  import opened Types
  import opened Seqs
  import opened StudentTest

  /** A mock question reduced to what scoring reads: its id and answer key. */
  function KeyedQuestion(id: string, key: int): Question {
    Question(id, "", [], Int(key), None, None)
  }

  const MockQuestions: seq<Question> := [
    KeyedQuestion("1", 1),
    KeyedQuestion("2", 2),
    KeyedQuestion("3", 0),
    KeyedQuestion("4", 0),
    KeyedQuestion("5", 2),
    KeyedQuestion("6", 0),
    KeyedQuestion("7", 1),
    KeyedQuestion("8", 3),
    KeyedQuestion("9", 2),
    KeyedQuestion("10", 2)
  ]

  const MockResult1: TestResult := TestResult("1", "2", "John Doe", 1697380200000, 4, 5, 270, [
    Answer("1", 1, true, 45),
    Answer("2", 2, true, 58),
    Answer("3", 0, true, 52),
    Answer("4", 1, false, 60),
    Answer("5", 2, true, 55)
  ], None)

  const MockResult2: TestResult := TestResult("2", "3", "Jane Smith", 1697451300000, 3, 5, 285, [
    Answer("1", 1, true, 50),
    Answer("2", 3, false, 60),
    Answer("3", 0, true, 55),
    Answer("4", 0, true, 58),
    Answer("5", 3, false, 62)
  ], None)

  const MockResult3: TestResult := TestResult("3", "2", "John Doe", 1699609500000, 7, 10, 540, [
    Answer("1", 1, true, 48),
    Answer("2", 2, true, 55),
    Answer("3", 0, true, 50),
    Answer("4", 0, true, 52),
    Answer("5", 2, true, 58),
    Answer("6", 2, false, 60),
    Answer("7", 1, true, 54),
    Answer("8", 2, false, 56),
    Answer("9", 2, true, 53),
    Answer("10", 1, false, 54)
  ], None)

  const MockResult4: TestResult := TestResult("4", "2", "John Doe", 1701793200000, 8, 10, 520, [
    Answer("1", 1, true, 42),
    Answer("2", 2, true, 50),
    Answer("3", 0, true, 48),
    Answer("4", 0, true, 50),
    Answer("5", 2, true, 52),
    Answer("6", 0, true, 58),
    Answer("7", 1, true, 50),
    Answer("8", 2, false, 56),
    Answer("9", 1, false, 55),
    Answer("10", 2, true, 59)
  ], None)

  const MockTestResults: seq<TestResult> := [MockResult1, MockResult2, MockResult3, MockResult4]

  /** The options chosen in a list of answers. */
  function SelectionsOf(answers: seq<Answer>): seq<int> {
    seq(|answers|, i requires 0 <= i < |answers| => answers[i].selectedOption)
  }

  /** The result a session over `MockQuestions[..|r.answers|]` builds when it is
      completed by user `r.userId` at `r.testDate` and saved under `r.id`. */
  function Rescored(r: TestResult): TestResult
    requires |r.answers| <= |MockQuestions|
  {
    var n := |r.answers|;
    ResultFor(MockQuestions[..n], SelectionsOf(r.answers), TimesOf(r.answers),
              Completion(CurrentUser(r.userId, r.userName, Some(r.userName)), r.testDate, Some(r.id)))
  }

  /** One step of the left-to-right count over a prefix. */
  lemma CountStep(a: seq<Answer>, k: nat)
    requires 0 < k <= |a|
    ensures CountCorrect(a[..k]) == CountCorrect(a[..k - 1]) + (if a[k - 1].isCorrect then 1 else 0)
  {
    assert a[..k][..k - 1] == a[..k - 1];
  }

  /** One step of the left-to-right sum over a prefix. */
  lemma SumStep(t: seq<int>, k: nat)
    requires 0 < k <= |t|
    ensures Sum(t[..k]) == Sum(t[..k - 1]) + t[k - 1]
  {
    assert t[..k][..k - 1] == t[..k - 1];
  }

  /** The count over a concatenation adds the counts of the two parts. */
  lemma {:induction false} CountAppend(a: seq<Answer>, b: seq<Answer>)
    ensures CountCorrect(a + b) == CountCorrect(a) + CountCorrect(b)
  {
    if b == [] {
      assert a + b == a;
    } else {
      var init := b[..|b| - 1];
      CountAppend(a, init);
      assert (a + b)[..|a + b| - 1] == a + init;
      assert (a + b)[|a + b| - 1] == b[|b| - 1];
    }
  }

  /** The count over five answers, one at a time. */
  lemma CountFive(a: seq<Answer>)
    requires |a| == 5
    ensures CountCorrect(a) == (if a[0].isCorrect then 1 else 0) + (if a[1].isCorrect then 1 else 0)
      + (if a[2].isCorrect then 1 else 0) + (if a[3].isCorrect then 1 else 0) + (if a[4].isCorrect then 1 else 0)
  {
    assert a[..0] == [];
    CountStep(a, 1);
    CountStep(a, 2);
    CountStep(a, 3);
    CountStep(a, 4);
    CountStep(a, 5);
    assert a[..5] == a;
  }

  /** Fixture 1: each answer is the one scoring builds for its question. */
  lemma MockResult1Answers()
    ensures AnswersOf(MockQuestions[..5], SelectionsOf(MockResult1.answers), TimesOf(MockResult1.answers)) == MockResult1.answers
  {
    var a := MockResult1.answers;
    var rescored := AnswersOf(MockQuestions[..5], SelectionsOf(a), TimesOf(a));
    assert rescored[0] == a[0];
    assert rescored[1] == a[1];
    assert rescored[2] == a[2];
    assert rescored[3] == a[3];
    assert rescored[4] == a[4];
  }

  /** Fixture 1: its score counts its correct answers. */
  lemma MockResult1Score()
    ensures MockResult1.score == CountCorrect(MockResult1.answers)
  {
    CountFive(MockResult1.answers);
  }

  /** Fixture 1: its time sums its answer times. */
  lemma MockResult1Time()
    ensures MockResult1.timeSpent == Sum(TimesOf(MockResult1.answers))
  {
    var t := TimesOf(MockResult1.answers);
    assert t[..0] == [];
    SumStep(t, 1);
    SumStep(t, 2);
    SumStep(t, 3);
    SumStep(t, 4);
    SumStep(t, 5);
    assert t[..5] == t;
  }


  /** Fixture 2: each answer is the one scoring builds for its question. */
  lemma MockResult2Answers()
    ensures AnswersOf(MockQuestions[..5], SelectionsOf(MockResult2.answers), TimesOf(MockResult2.answers)) == MockResult2.answers
  {
    var a := MockResult2.answers;
    var rescored := AnswersOf(MockQuestions[..5], SelectionsOf(a), TimesOf(a));
    assert rescored[0] == a[0];
    assert rescored[1] == a[1];
    assert rescored[2] == a[2];
    assert rescored[3] == a[3];
    assert rescored[4] == a[4];
  }

  /** Fixture 2: its score counts its correct answers. */
  lemma MockResult2Score()
    ensures MockResult2.score == CountCorrect(MockResult2.answers)
  {
    CountFive(MockResult2.answers);
  }

  /** Fixture 2: its time sums its answer times. */
  lemma MockResult2Time()
    ensures MockResult2.timeSpent == Sum(TimesOf(MockResult2.answers))
  {
    var t := TimesOf(MockResult2.answers);
    assert t[..0] == [];
    SumStep(t, 1);
    SumStep(t, 2);
    SumStep(t, 3);
    SumStep(t, 4);
    SumStep(t, 5);
    assert t[..5] == t;
  }


  /** Fixture 3: each answer is the one scoring builds for its question. */
  lemma MockResult3Answers()
    ensures AnswersOf(MockQuestions[..10], SelectionsOf(MockResult3.answers), TimesOf(MockResult3.answers)) == MockResult3.answers
  {
    var a := MockResult3.answers;
    var rescored := AnswersOf(MockQuestions[..10], SelectionsOf(a), TimesOf(a));
    assert rescored[0] == a[0];
    assert rescored[1] == a[1];
    assert rescored[2] == a[2];
    assert rescored[3] == a[3];
    assert rescored[4] == a[4];
    assert rescored[5] == a[5];
    assert rescored[6] == a[6];
    assert rescored[7] == a[7];
    assert rescored[8] == a[8];
    assert rescored[9] == a[9];
  }

  /** Fixture 3: its score counts its correct answers. */
  lemma MockResult3Score()
    ensures MockResult3.score == CountCorrect(MockResult3.answers)
  {
    var a := MockResult3.answers;
    CountFive(a[..5]);
    CountFive(a[5..]);
    CountAppend(a[..5], a[5..]);
    assert a[..5] + a[5..] == a;
  }

  /** Fixture 3: its time sums its answer times. */
  lemma MockResult3Time()
    ensures MockResult3.timeSpent == Sum(TimesOf(MockResult3.answers))
  {
    var t := TimesOf(MockResult3.answers);
    assert t[..0] == [];
    SumStep(t, 1);
    SumStep(t, 2);
    SumStep(t, 3);
    SumStep(t, 4);
    SumStep(t, 5);
    SumStep(t, 6);
    SumStep(t, 7);
    SumStep(t, 8);
    SumStep(t, 9);
    SumStep(t, 10);
    assert t[..10] == t;
  }


  /** Fixture 4: each answer is the one scoring builds for its question. */
  lemma MockResult4Answers()
    ensures AnswersOf(MockQuestions[..10], SelectionsOf(MockResult4.answers), TimesOf(MockResult4.answers)) == MockResult4.answers
  {
    var a := MockResult4.answers;
    var rescored := AnswersOf(MockQuestions[..10], SelectionsOf(a), TimesOf(a));
    assert rescored[0] == a[0];
    assert rescored[1] == a[1];
    assert rescored[2] == a[2];
    assert rescored[3] == a[3];
    assert rescored[4] == a[4];
    assert rescored[5] == a[5];
    assert rescored[6] == a[6];
    assert rescored[7] == a[7];
    assert rescored[8] == a[8];
    assert rescored[9] == a[9];
  }

  /** Fixture 4: its score counts its correct answers. */
  lemma MockResult4Score()
    ensures MockResult4.score == CountCorrect(MockResult4.answers)
  {
    var a := MockResult4.answers;
    CountFive(a[..5]);
    CountFive(a[5..]);
    CountAppend(a[..5], a[5..]);
    assert a[..5] + a[5..] == a;
  }

  /** Fixture 4: its time sums its answer times. */
  lemma MockResult4Time()
    ensures MockResult4.timeSpent == Sum(TimesOf(MockResult4.answers))
  {
    var t := TimesOf(MockResult4.answers);
    assert t[..0] == [];
    SumStep(t, 1);
    SumStep(t, 2);
    SumStep(t, 3);
    SumStep(t, 4);
    SumStep(t, 5);
    SumStep(t, 6);
    SumStep(t, 7);
    SumStep(t, 8);
    SumStep(t, 9);
    SumStep(t, 10);
    assert t[..10] == t;
  }


  /** A fixture agrees with scoring: its answers, score, question count
      and total time are the result scoring builds from its selections and
      times. Whether the session's handlers could have recorded those times
      is `SessionTimes`. */
  predicate AgreesWithScoring(r: TestResult) {
    && |r.answers| <= |MockQuestions| && Rescored(r) == r
    && r.score == CountCorrect(r.answers) && r.timeSpent == Sum(TimesOf(r.answers))
  }

  lemma MockResult1Agrees()
    ensures AgreesWithScoring(MockResult1)
  {
    MockResult1Answers();
    MockResult1Score();
    MockResult1Time();
  }

  lemma MockResult2Agrees()
    ensures AgreesWithScoring(MockResult2)
  {
    MockResult2Answers();
    MockResult2Score();
    MockResult2Time();
  }

  lemma MockResult3Agrees()
    ensures AgreesWithScoring(MockResult3)
  {
    MockResult3Answers();
    MockResult3Score();
    MockResult3Time();
  }

  lemma MockResult4Agrees()
    ensures AgreesWithScoring(MockResult4)
  {
    MockResult4Answers();
    MockResult4Score();
    MockResult4Time();
  }

  /** Every fixture is the result scoring builds from its selections and times. */
  lemma MockResultsAreScored()
    ensures forall r :: r in MockTestResults ==> AgreesWithScoring(r)
  {
    MockResult1Agrees();
    MockResult2Agrees();
    MockResult3Agrees();
    MockResult4Agrees();
  }

  /** Every answer time is one the session's handlers record for a question. */
  predicate SessionTimes(r: TestResult) {
    forall i :: 0 <= i < |r.answers| ==> RecordableTime(r.answers[i].timeSpent)
  }

  /** Fixtures 1, 3 and 4 use only times the session's handlers can record,
      but each has an answer time from 20 to 59, which only the uncalled
      `handleQuestionOptionSelect` records: the page itself never records
      their first answer's time. */
  lemma MockResultTimes()
    ensures SessionTimes(MockResult1) && SessionTimes(MockResult3) && SessionTimes(MockResult4)
    ensures !PageRecordedTime(MockResult1.answers[0].timeSpent)
    ensures !PageRecordedTime(MockResult3.answers[0].timeSpent)
    ensures !PageRecordedTime(MockResult4.answers[0].timeSpent)
  {
  }

  /** Fixture 2's fifth answer records 62 seconds, more than a question's
      timer allows and more than any handler records, although scoring
      agrees with the fixture. */
  lemma MockResult2TimeBeyondSession()
    ensures MockResult2.answers[4].timeSpent == 62 > TimeUpSeconds
    ensures !SessionTimes(MockResult2) && AgreesWithScoring(MockResult2)
  {
    MockResult2Agrees();
  }
}
