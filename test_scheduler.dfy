/** The test-scheduling form (`src/components/admin/TestScheduler.tsx`):
    topics are toggled in and out of the selection, and submission checks
    the fields in three steps before handing one new test to the parent and
    resetting the form. Dates are timestamps in milliseconds; the clock
    reading for `createdAt` is a parameter. */
module TestScheduler {
  import opened Js
  import opened Seqs
  import opened Text

  /** `handleTopicToggle`: a selected topic is removed (every occurrence),
      any other topic is appended. */
  function Toggled(selected: seq<string>, topic: string): (r: seq<string>)
    ensures topic in selected ==> topic !in r && forall t :: t in r <==> t in selected && t != topic
    ensures topic !in selected ==> r == selected + [topic]
  {
    if topic in selected then Filter(selected, (t: string) => t != topic) else selected + [topic]
  }

  /** Toggling the same topic twice gives back the same selected set; when
      the topic was not selected it gives back the very same list. */
  lemma ToggleTwice(selected: seq<string>, topic: string)
    ensures forall t :: t in Toggled(Toggled(selected, topic), topic) <==> t in selected
    ensures topic !in selected ==> Toggled(Toggled(selected, topic), topic) == selected
  {
    if topic !in selected {
      var p := (t: string) => t != topic;
      FilterConcat(selected, [topic], p);
      FilterAll(selected, p);
      FilterSingleton(topic, p);
    }
  }

  /** The test handed to the parent (a scheduled test without its id). */
  datatype NewTest = NewTest(
    title: string,
    description: string,
    startDate: int,
    endDate: int,
    duration: JsInt,
    questionCount: JsInt,
    topics: seq<string>,
    isActive: bool,
    createdAt: int)

  /** What pressing "Schedule" leads to. */
  datatype Outcome = MissingFields | NoTopics | EndNotAfterStart | Scheduled(test: NewTest)

  /** `n <= 0` in JavaScript: false for `NaN`. */
  predicate AtMostZero(n: JsInt) {
    n.Int? && n.i <= 0
  }

  /** Every scheduled test is well formed: a title, a window whose end is
      after its start, sizes that are not at most zero (a number above zero,
      or `NaN`), at least one topic, and active. */
  predicate WellFormed(t: NewTest) {
    t.title != "" && t.startDate < t.endDate && !AtMostZero(t.duration) && !AtMostZero(t.questionCount)
    && t.topics != [] && t.isActive
  }

  /** A cleared number field reads as `NaN`, which `<= 0` does not refuse;
      a field reading 0 or a negative number is refused. */
  lemma ClearedSizePassesGuard()
    ensures ParseInt("") == NaN && !AtMostZero(ParseInt(""))
    ensures AtMostZero(ParseInt("0")) && AtMostZero(ParseInt("-5"))
  {
    assert TrimStart("") == "";
    assert TrimStart("0") == "0";
    assert DigitPrefix("0") == "0";
    assert TrimStart("-5") == "-5";
    assert SignStripped("-5") == "5";
    assert DigitPrefix("5") == "5";
  }

  const DefaultDuration := Int(60)
  const DefaultQuestionCount := Int(10)

  class Form {
    var title: string
    var description: string
    var startDate: Option<int>
    var endDate: Option<int>
    var duration: JsInt
    var questionCount: JsInt
    var selectedTopics: seq<string>

    /** An empty form: 60 minutes, 10 questions, no dates and no topics. */
    predicate IsReset()
      reads this
    {
      && title == "" && description == ""
      && startDate.None? && endDate.None?
      && duration == DefaultDuration && questionCount == DefaultQuestionCount
      && selectedTopics == []
    }

    constructor()
      ensures IsReset()
    {
      title := "";
      description := "";
      startDate := None;
      endDate := None;
      duration := DefaultDuration;
      questionCount := DefaultQuestionCount;
      selectedTopics := [];
    }

    method ToggleTopic(topic: string)
      modifies this`selectedTopics
      ensures selectedTopics == Toggled(old(selectedTopics), topic)
    {
      if topic in selectedTopics {
        selectedTopics := Filter(selectedTopics, (t: string) => t != topic);
      } else {
        selectedTopics := selectedTopics + [topic];
      }
    }

    /** The duration field's `onChange`: `setDuration(parseInt(value))`. */
    method SetDuration(value: string)
      modifies this`duration
      ensures duration == ParseInt(value)
    {
      duration := ParseInt(value);
    }

    /** The question-count field's `onChange`: `setQuestionCount(parseInt(value))`. */
    method SetQuestionCount(value: string)
      modifies this`questionCount
      ensures questionCount == ParseInt(value)
    {
      questionCount := ParseInt(value);
    }

    /** `handleSubmit`: a missing title or date, or a duration or question
        count that is at most zero, is refused first; then an empty topic
        selection; then an end that is not after the start. An accepted test
        carries the form's fields and the selection and is active; the form
        is then reset. A refused submission changes nothing. */
    method Submit(now: int) returns (r: Outcome)
      modifies this
      ensures r == MissingFields <==>
        old(title) == "" || old(startDate).None? || old(endDate).None?
          || AtMostZero(old(duration)) || AtMostZero(old(questionCount))
      ensures r == NoTopics <==> !(r == MissingFields) && old(selectedTopics) == []
      ensures r == EndNotAfterStart <==>
        !(r == MissingFields) && old(selectedTopics) != [] && old(startDate).value >= old(endDate).value
      ensures r.Scheduled? ==>
        && r.test == NewTest(old(title), old(description), old(startDate).value, old(endDate).value,
                             old(duration), old(questionCount), old(selectedTopics), true, now)
        && IsReset()
      ensures r.Scheduled? ==> WellFormed(r.test)
      ensures !r.Scheduled? ==> unchanged(this)
    {
      if title == "" || startDate.None? || endDate.None?
         || (duration.Int? && duration.i <= 0) || (questionCount.Int? && questionCount.i <= 0) {
        return MissingFields;
      }
      if |selectedTopics| == 0 {
        return NoTopics;
      }
      if startDate.value >= endDate.value {
        return EndNotAfterStart;
      }
      var test := NewTest(title, description, startDate.value, endDate.value,
                          duration, questionCount, selectedTopics, true, now);
      title := "";
      description := "";
      startDate := None;
      endDate := None;
      duration := DefaultDuration;
      questionCount := DefaultQuestionCount;
      selectedTopics := [];
      return Scheduled(test);
    }
  }
}
