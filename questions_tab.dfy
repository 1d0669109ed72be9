/** The questions tab (`src/components/admin/QuestionsTab.tsx`): the question
    and topic lists, a form whose question is inserted through the backend,
    deletion through the backend, bulk insertion of imported questions and
    the addition of a new topic. The backend is not modelled: each operation
    receives the backend's reply as a parameter. */
module QuestionsTab {
  import opened Js
  import opened Types
  import opened Text
  import opened Seqs

  /** A value stored in the `correctOption` field of the form, which its
      change handler accepts as a number or as text. */
  datatype FieldValue = Num(n: int) | Str(s: string)

  /** The new-question form. */
  datatype QuestionDraft = QuestionDraft(
    text: string,
    options: seq<string>,
    correctOption: FieldValue,
    explanation: string,
    topic: string)

  const EmptyQuestionDraft: QuestionDraft := QuestionDraft("", ["", "", "", ""], Num(0), "", "")

  /** The form may be submitted: a text and no empty option. */
  predicate DraftComplete(d: QuestionDraft) {
    d.text != "" && forall k :: 0 <= k < |d.options| ==> d.options[k] != ""
  }

  /** The row sent to the backend for insertion. */
  datatype NewRow = NewRow(
    text: string,
    options: seq<string>,
    correctOption: JsInt,
    explanation: string,
    topic: string)

  /** `correctOption` as sent: text goes through `parseInt(v, 10)`, a number is kept. */
  function CorrectOptionNumber(v: FieldValue): (r: JsInt)
    ensures v.Num? ==> r == Int(v.n)
    ensures v.Str? ==> r == ParseDecimal(v.s)
  {
    match v
    case Num(n) => Int(n)
    case Str(s) => ParseDecimal(s)
  }

  /** Both forms of an option index give the same number. */
  lemma CorrectOptionEitherForm(n: nat)
    ensures CorrectOptionNumber(Str(NatToString(n))) == CorrectOptionNumber(Num(n))
  {
    ParseNatToString(n, "");
    assert NatToString(n) + "" == NatToString(n);
  }

  function RowOf(d: QuestionDraft): NewRow {
    NewRow(d.text, d.options, CorrectOptionNumber(d.correctOption), d.explanation, d.topic)
  }

  /** A scalar inside a JSON object. */
  datatype Scalar = Text(s: string) | Number(n: int) | Boolean(b: bool)

  /** `String(val)` of a scalar. */
  function ScalarText(v: Scalar): (r: string)
    ensures v.Text? ==> r == v.s
    ensures v.Number? ==> ParseInt(r) == Int(v.n)
  {
    match v
    case Text(s) => s
    case Number(n) =>
      ParseIntToString(n);
      IntToString(n)
    case Boolean(b) => if b then "true" else "false"
  }

  /** The `options` column as the backend returns it: an array, a JSON text
      (whose decoding is not modelled and is carried along), or an object. */
  datatype StoredOptions =
    | List(items: seq<string>)
    | Json(text: string, decoded: seq<string>)
    | Object(values: seq<Scalar>)

  /** The options of a returned row: an array is kept, JSON text is decoded,
      an object gives its values as text in order. */
  function NormaliseOptions(o: StoredOptions): (r: seq<string>)
    ensures o.List? ==> r == o.items
    ensures o.Json? ==> r == o.decoded
    ensures o.Object? ==> |r| == |o.values|
    ensures o.Object? ==> forall k :: 0 <= k < |r| ==> r[k] == ScalarText(o.values[k])
  {
    match o
    case List(items) => items
    case Json(_, decoded) => decoded
    case Object(values) => seq(|values|, k requires 0 <= k < |values| => ScalarText(values[k]))
  }

  /** An object whose values are all text gives exactly those texts, the
      same as the array holding them. */
  lemma ObjectOfTextsAsList(texts: seq<string>)
    ensures NormaliseOptions(Object(seq(|texts|, k requires 0 <= k < |texts| => Text(texts[k]))))
         == NormaliseOptions(List(texts))
  {
  }

  /** A question row returned by the backend; `null` columns are `None`. */
  datatype StoredQuestion = StoredQuestion(
    id: string,
    text: string,
    options: StoredOptions,
    correctOption: JsInt,
    explanation: Option<string>,
    topic: Option<string>)

  /** `x || undefined` of a nullable text column: null and "" are absent. */
  function Truthy(s: Option<string>): (r: Option<string>)
    ensures r.None? <==> !TruthyString(s)
    ensures r.Some? ==> s == r
  {
    if s.Some? && s.value != "" then s else None
  }

  /** The question made from a returned row. */
  function FromStored(row: StoredQuestion): (q: Question)
    ensures q.id == row.id && q.options == NormaliseOptions(row.options)
    ensures q.explanation.None? <==> !TruthyString(row.explanation)
    ensures q.topic.None? <==> !TruthyString(row.topic)
  {
    Question(row.id, row.text, NormaliseOptions(row.options), row.correctOption,
             Truthy(row.explanation), Truthy(row.topic))
  }

  /** The backend's reply to an insert. */
  datatype Reply = Failed | Returned(rows: seq<StoredQuestion>)

  /** What submitting the form leads to. */
  datatype AddOutcome = Incomplete | BackendError | NoData | Added

  /** The topics of newly added questions that the topic list lacks, in
      order: repeats within the batch are kept. */
  function NewTopics(added: seq<Question>, topics: seq<string>): (r: seq<string>)
    ensures forall k :: 0 <= k < |r| ==> r[k] != "" && r[k] !in topics
    ensures |r| <= |added|
  {
    if added == [] then []
    else
      var last := added[|added| - 1];
      NewTopics(added[..|added| - 1], topics)
        + (if last.topic.Some? && last.topic.value != "" && last.topic.value !in topics
           then [last.topic.value] else [])
  }

  /** Every absent, non-empty topic of the batch is among the new topics. */
  lemma {:induction false} NewTopicsComplete(added: seq<Question>, topics: seq<string>)
    ensures forall i :: 0 <= i < |added| && TruthyString(added[i].topic) && added[i].topic.value !in topics ==>
              added[i].topic.value in NewTopics(added, topics)
  {
    if added != [] {
      var init := added[..|added| - 1];
      NewTopicsComplete(init, topics);
      forall i | 0 <= i < |added| && TruthyString(added[i].topic) && added[i].topic.value !in topics
        ensures added[i].topic.value in NewTopics(added, topics)
      {
        if i < |added| - 1 {
          assert added[i] == init[i];
        }
      }
    }
  }

  /** Two new questions on the same absent topic add it twice. */
  lemma NewTopicsKeepRepeats(a: Question, b: Question, topics: seq<string>)
    requires a.topic == Some("Logic") && b.topic == Some("Logic") && "Logic" !in topics
    ensures NewTopics([a, b], topics) == ["Logic", "Logic"]
  {
    assert [a, b][..1] == [a];
    assert [a][..0] == [];
  }

  /** `handleAddNewTopic`: a non-empty topic is appended, an empty one
      ignored. It does not check for repeats. */
  function AddNewTopic(topics: seq<string>, topic: string): (r: seq<string>)
    ensures topic != "" ==> |r| == |topics| + 1 && r[..|topics|] == topics && r[|topics|] == topic
    ensures topic == "" ==> r == topics
  {
    if topic != "" then topics + [topic] else topics
  }

  class Tab {
    var questions: seq<Question>
    var topics: seq<string>
    var draft: QuestionDraft

    constructor(questions: seq<Question>, topics: seq<string>)
      ensures this.questions == questions && this.topics == topics && draft == EmptyQuestionDraft
    {
      this.questions := questions;
      this.topics := topics;
      draft := EmptyQuestionDraft;
    }

    /** `addQuestion`. An incomplete form is refused before anything is sent.
        Otherwise the form's row is sent; on an error or an empty reply
        nothing changes; on success the first returned row is appended, its
        topic joins the list if the form's topic was non-empty and new, and
        the form is reset. */
    method AddQuestion(reply: Reply) returns (outcome: AddOutcome, sent: Option<NewRow>)
      modifies this
      ensures outcome == Incomplete <==> !DraftComplete(old(draft))
      ensures sent == if outcome == Incomplete then None else Some(RowOf(old(draft)))
      ensures outcome == BackendError <==> DraftComplete(old(draft)) && reply.Failed?
      ensures outcome == NoData <==> DraftComplete(old(draft)) && reply.Returned? && reply.rows == []
      ensures outcome == Added ==>
        && reply.Returned? && reply.rows != []
        && questions == old(questions) + [FromStored(reply.rows[0])]
        && topics == (if old(draft).topic != "" && old(draft).topic !in old(topics)
                      then old(topics) + [old(draft).topic] else old(topics))
        && draft == EmptyQuestionDraft
      ensures outcome != Added ==> questions == old(questions) && topics == old(topics) && draft == old(draft)
    {
      if draft.text == "" || exists k :: 0 <= k < |draft.options| && draft.options[k] == "" {
        return Incomplete, None;
      }
      var row := NewRow(draft.text, draft.options, CorrectOptionNumber(draft.correctOption),
                        draft.explanation, draft.topic);
      sent := Some(row);
      match reply
      case Failed =>
        outcome := BackendError;
      case Returned(rows) =>
        if |rows| == 0 {
          outcome := NoData;
        } else {
          questions := questions + [FromStored(rows[0])];
          if draft.topic != "" && draft.topic !in topics {
            topics := topics + [draft.topic];
          }
          draft := EmptyQuestionDraft;
          outcome := Added;
        }
    }

    /** `deleteQuestion`: the local list loses the id only when the backend
        reports no error. */
    method DeleteQuestion(id: string, backendError: bool)
      modifies this`questions
      ensures questions == if backendError then old(questions) else RemoveQuestion(old(questions), id)
    {
      if !backendError {
        questions := Filter(questions, (q: Question) => q.id != id);
      }
    }

    /** `handleBulkUpload`: on a reply the returned questions follow the
        existing ones and the topic list gains their absent topics; on an
        error nothing changes. */
    method BulkUpload(reply: Reply) returns (added: nat)
      modifies this
      ensures reply.Failed? ==> added == 0 && questions == old(questions) && topics == old(topics)
      ensures reply.Returned? ==>
        && added == |reply.rows|
        && |questions| == |old(questions)| + added
        && questions[..|old(questions)|] == old(questions)
        && (forall k :: 0 <= k < added ==> questions[|old(questions)| + k] == FromStored(reply.rows[k]))
        && topics == old(topics) + NewTopics(questions[|old(questions)|..], old(topics))
      ensures draft == old(draft)
    {
      if reply.Failed? {
        return 0;
      }
      var addedQuestions := seq(|reply.rows|, k requires 0 <= k < |reply.rows| => FromStored(reply.rows[k]));
      var old_questions := questions;
      questions := questions + addedQuestions;
      assert questions[|old_questions|..] == addedQuestions;
      var newTopics := NewTopics(addedQuestions, topics);
      if |newTopics| > 0 {
        topics := topics + newTopics;
      }
      return |addedQuestions|;
    }

    /** `handleAddNewTopic`, the callback of the new-topic dialog. */
    method HandleAddNewTopic(topic: string)
      modifies this`topics
      ensures topics == AddNewTopic(old(topics), topic)
    {
      if topic != "" {
        topics := topics + [topic];
      }
    }
  }
}
