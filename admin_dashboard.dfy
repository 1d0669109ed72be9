/** The administrator's dashboard (`src/components/AdminDashboard.tsx`): it
    keeps the question and student lists in local state, adds to them from two
    forms, removes entries by id, imports questions from pasted CSV text, and
    renders each result's time spent as minutes and seconds. */
module AdminDashboard {
  import opened Js
  import opened Types
  import opened Seqs
  import opened Text
  import opened StudentsTab
  import QuestionsTab

  /** The new-question form. */
  datatype QuestionDraft = QuestionDraft(
    text: string,
    options: seq<string>,
    correctOption: int,
    explanation: string)

  const EmptyQuestionDraft: QuestionDraft := QuestionDraft("", ["", "", "", ""], 0, "")

  /** The question form may be submitted: a text and no empty option. */
  predicate QuestionDraftComplete(d: QuestionDraft) {
    d.text != "" && forall k :: 0 <= k < |d.options| ==> d.options[k] != ""
  }

  /** `(list.length + 1).toString()`: the id a new entry receives. */
  function NextId<T>(list: seq<T>): (id: string)
    ensures ParseInt(id) == Int(|list| + 1)
    ensures AllDigits(id) && id[0] != '0'
  {
    ParseNatToString(|list| + 1, "");
    assert NatToString(|list| + 1) + "" == NatToString(|list| + 1);
    NatToString(|list| + 1)
  }

  /** The question a complete draft becomes when `count` questions exist. */
  function DraftQuestion(d: QuestionDraft, count: nat): Question {
    Question(NatToString(count + 1), d.text, d.options, Int(d.correctOption), Some(d.explanation), None)
  }

  /** `handleQuestionChange('correctOption', i.toString())`: as written, the
      radio button of option `i` stores the option's index as text. */
  function RadioValue(i: nat): (v: QuestionsTab.FieldValue)
    ensures v.Str? && AllDigits(v.s) && ParseInt(v.s) == Int(i)
  {
    ParseNatToString(i, "");
    assert NatToString(i) + "" == NatToString(i);
    QuestionsTab.Str(NatToString(i))
  }

  /** `newQuestion.correctOption || 0`: the key `addQuestion` keeps. Only the
      number 0 and the empty text are falsy, so a number or any other text
      is kept as it is. */
  function KeptKey(v: QuestionsTab.FieldValue): (r: QuestionsTab.FieldValue)
    ensures v.Num? ==> r == v
    ensures v.Str? && v.s != "" ==> r == v
    ensures v == QuestionsTab.Str("") ==> r == QuestionsTab.Num(0)
  {
    if v == QuestionsTab.Str("") then QuestionsTab.Num(0) else v
  }

  /** `Option {question.correctOption + 1}` in the questions table: `+`
      adds to a number key but appends the digit 1 to a text key. */
  function KeyLabel(v: QuestionsTab.FieldValue): string {
    match v
    case Num(n) => "Option " + IntToString(n + 1)
    case Str(s) => "Option " + s + "1"
  }

  /** As written, marking the third option correct gives the added question
      the text key "2", which the table labels "Option 21" where the number
      key 2 reads "Option 3". */
  lemma RadioKeyMislabelled()
    ensures KeptKey(RadioValue(2)) == QuestionsTab.Str("2")
    ensures KeyLabel(KeptKey(RadioValue(2))) == "Option 21"
    ensures KeyLabel(QuestionsTab.Num(2)) == "Option 3"
  {
    assert NatToString(2) == "2";
    assert NatToString(3) == "3";
  }

  /** Corrected, as the questions tab's form does it: the radio button stores
      the index as a number, which is kept, and the label's number reads
      back as the index plus one. */
  lemma NumericKeyLabel(i: nat)
    ensures KeptKey(QuestionsTab.Num(i)) == QuestionsTab.Num(i)
    ensures var shown := KeyLabel(KeptKey(QuestionsTab.Num(i)));
      StartsWith(shown, "Option ") && ParseInt(shown[7..]) == Int(i + 1)
  {
    var shown := KeyLabel(QuestionsTab.Num(i));
    ParseNatToString(i + 1, "");
    assert NatToString(i + 1) + "" == NatToString(i + 1);
    assert shown[7..] == NatToString(i + 1);
  }

  /** The students among the users, in order. */
  function Students(users: seq<User>): (r: seq<User>)
    ensures forall u :: u in r <==> u in users && u.role == Student
  {
    Filter(users, (u: User) => u.role == Student)
  }

  /** Ids made from the list length are not fresh once something has been
      deleted: with questions "1" and "2", deleting "1" and adding a question
      gives it id "2" again. */
  lemma AddAfterDeleteReusesId(q1: Question, q2: Question, d: QuestionDraft)
    requires q1.id == "1" && q2.id == "2"
    ensures var left := RemoveQuestion([q1, q2], "1");
      left == [q2] && DraftQuestion(d, |left|).id == q2.id
  {
    FilterConcat([q1], [q2], (q: Question) => q.id != "1");
    assert [q1, q2] == [q1] + [q2];
    assert NatToString(2) == ['2'];
  }

  /** The question read from line `i` of pasted CSV text when `base`
      questions exist: present when the line has at least six
      comma-separated columns, with id `base + i`. The line is not trimmed
      and the option index is not checked. */
  function CsvRow(line: string, base: nat, i: nat): (r: Option<Question>)
    ensures r.Some? <==> |Split(line, ',')| >= 6
    ensures r.Some? ==> r.value.id == NatToString(base + i) && |r.value.options| == 4 && r.value.topic.None?
  {
    var cols := Split(line, ',');
    if |cols| >= 6 then
      Some(Question(NatToString(base + i), cols[0], cols[1..5], ParseInt(cols[5]),
                    Some(if |cols| > 6 then cols[6] else ""), None))
    else None
  }

  /** What every line would give. */
  function CsvRows(lines: seq<string>, base: nat): (rows: seq<Option<Question>>)
    ensures |rows| == |lines|
    ensures forall i :: 0 <= i < |lines| ==> rows[i] == CsvRow(lines[i], base, i)
  {
    seq(|lines|, i requires 0 <= i < |lines| => CsvRow(lines[i], base, i))
  }

  /** The present questions among rows 1 to `end - 1`, in order. */
  function Present(rows: seq<Option<Question>>, end: nat): seq<Question>
    requires 1 <= end <= |rows|
    decreases end
  {
    if end == 1 then []
    else Present(rows, end - 1) + (if rows[end - 1].Some? then [rows[end - 1].value] else [])
  }

  /** One more row adds its question when it holds one. */
  lemma PresentStep(rows: seq<Option<Question>>, i: nat)
    requires 1 <= i < |rows|
    ensures Present(rows, i + 1) == Present(rows, i) + (if rows[i].Some? then [rows[i].value] else [])
  {
  }

  /** The questions read from lines 1 to `end - 1` (line 0 is always taken
      for a header) when `base` questions exist. */
  function CsvQuestions(lines: seq<string>, base: nat, end: nat): seq<Question>
    requires 1 <= end <= |lines|
  {
    Present(CsvRows(lines, base), end)
  }

  /** The indices among 1 to `end - 1` of the rows holding a question. */
  function PresentIndices(rows: seq<Option<Question>>, end: nat): (idx: seq<nat>)
    requires 1 <= end <= |rows|
    ensures forall k :: 0 <= k < |idx| ==> 1 <= idx[k] < end && rows[idx[k]].Some?
    ensures forall j, k :: 0 <= j < k < |idx| ==> idx[j] < idx[k]
    decreases end
  {
    if end == 1 then []
    else PresentIndices(rows, end - 1) + (if rows[end - 1].Some? then [end - 1] else [])
  }

  /** The present questions are those of the present rows, in row order. */
  lemma {:induction false} PresentFromRows(rows: seq<Option<Question>>, end: nat)
    requires 1 <= end <= |rows|
    ensures var qs := Present(rows, end);
      var idx := PresentIndices(rows, end);
      && |qs| == |idx|
      && forall k :: 0 <= k < |qs| ==> rows[idx[k]] == Some(qs[k])
    decreases end
  {
    if end > 1 {
      PresentFromRows(rows, end - 1);
    }
  }

  /** The imported questions are those of the lines with at least six
      columns, in line order, the one from line `i` with id `base + i`. */
  lemma CsvQuestionsFromLines(lines: seq<string>, base: nat, end: nat)
    requires 1 <= end <= |lines|
    ensures var qs := CsvQuestions(lines, base, end);
      var idx := PresentIndices(CsvRows(lines, base), end);
      && |qs| == |idx|
      && forall k :: 0 <= k < |qs| ==>
           1 <= idx[k] < end && |Split(lines[idx[k]], ',')| >= 6
           && CsvRow(lines[idx[k]], base, idx[k]) == Some(qs[k])
           && qs[k].id == NatToString(base + idx[k])
  {
    PresentFromRows(CsvRows(lines, base), end);
  }

  /** Questions numbered `base + i` from distinct line indices `i >= 1`
      have distinct ids, none of them from 1 to `base`. */
  lemma NumberedIdsFresh(qs: seq<Question>, idx: seq<nat>, base: nat)
    requires |qs| == |idx|
    requires forall k :: 0 <= k < |idx| ==> 1 <= idx[k] && qs[k].id == NatToString(base + idx[k])
    requires forall j, k :: 0 <= j < k < |idx| ==> idx[j] < idx[k]
    ensures forall j, k :: 0 <= j < k < |qs| ==> qs[j].id != qs[k].id
    ensures forall k, n :: 0 <= k < |qs| && 1 <= n <= base ==> qs[k].id != NatToString(n)
  {
    forall j, k | 0 <= j < k < |qs|
      ensures qs[j].id != qs[k].id
    {
      NatToStringInjective(base + idx[j], base + idx[k]);
    }
    forall k, n | 0 <= k < |qs| && 1 <= n <= base
      ensures qs[k].id != NatToString(n)
    {
      NatToStringInjective(base + idx[k], n);
    }
  }

  /** No two imported questions share an id, and none has an id from 1 to `base`. */
  lemma CsvIdsFresh(lines: seq<string>, base: nat, end: nat)
    requires 1 <= end <= |lines|
    ensures var qs := CsvQuestions(lines, base, end);
      && (forall j, k :: 0 <= j < k < |qs| ==> qs[j].id != qs[k].id)
      && (forall k, n :: 0 <= k < |qs| && 1 <= n <= base ==> qs[k].id != NatToString(n))
  {
    CsvQuestionsFromLines(lines, base, end);
    NumberedIdsFresh(CsvQuestions(lines, base, end), PresentIndices(CsvRows(lines, base), end), base);
  }

  /** The body of the CSV loop for the line at index `i`: the same
      computation as `CsvRow`, written as the loop's statements, so that the
      loop can be proved against `CsvRow` one line at a time. */
  method ReadCsvLine(line: string, base: nat, i: nat) returns (r: Option<Question>)
    ensures r == CsvRow(line, base, i)
  {
    var id := base + i;
    var cols := Split(line, ',');
    if |cols| >= 6 {
      var explanation := if |cols| > 6 then cols[6] else "";
      return Some(Question(NatToString(id), cols[0], cols[1..5], ParseInt(cols[5]),
                           Some(explanation), None));
    }
    return None;
  }

  /** The CSV loop of `processCsvData`, proved to compute `CsvQuestions`. */
  method ReadCsvLines(lines: seq<string>, base: nat) returns (qs: seq<Question>)
    requires |lines| >= 1
    ensures qs == CsvQuestions(lines, base, |lines|)
  {
    ghost var rows := CsvRows(lines, base);
    qs := [];
    for i := 1 to |lines|
      invariant qs == Present(rows, i)
    {
      var row := ReadCsvLine(lines[i], base, i);
      PresentStep(rows, i);
      if row.Some? {
        qs := qs + [row.value];
      }
    }
  }

  /** The time-spent text of the results table and of the export:
      `${Math.floor(t / 60)}m ${t % 60}s`. */
  function TimeText(t: int): string {
    IntToString(FloorDiv(t, 60)) + "m " + IntToString(Rem(t, 60)) + "s"
  }

  /** For a non-negative time the text shows whole minutes and the remaining
      seconds below 60, which add back up to `t`; reading the text with
      `parseInt` gives the minutes, and reading after the "m " gives the
      seconds. */
  lemma TimeTextReadsBack(t: int)
    requires t >= 0
    ensures var m := FloorDiv(t, 60); var s := Rem(t, 60);
      && 0 <= s < 60 && m >= 0 && m * 60 + s == t
      && TimeText(t) == NatToString(m) + "m " + NatToString(s) + "s"
      && ParseInt(TimeText(t)) == Int(m)
      && ParseInt(TimeText(t)[|NatToString(m)| + 2..]) == Int(s)
  {
    var m := FloorDiv(t, 60);
    var s := Rem(t, 60);
    assert 0 <= s < 60 && m >= 0 && m * 60 + s == t;
    MinutesSecondsReadBack(m, s);
  }

  /** The text "<m>m <s>s" reads back as `m`, and as `s` after the "m ". */
  lemma MinutesSecondsReadBack(m: nat, s: nat)
    ensures var text := NatToString(m) + "m " + NatToString(s) + "s";
      && ParseInt(text) == Int(m)
      && ParseInt(text[|NatToString(m)| + 2..]) == Int(s)
  {
    var mm := NatToString(m);
    var ss := NatToString(s);
    RegroupTimeText(mm, ss);
    ParseNatToString(m, "m " + ss + "s");
    ParseNatToString(s, "s");
  }

  lemma RegroupTimeText(mm: string, ss: string)
    ensures mm + "m " + ss + "s" == mm + ("m " + ss + "s")
    ensures (mm + "m " + ss + "s")[|mm| + 2..] == ss + "s"
  {
  }

  /** For a negative time (which the application never stores) the two parts
      no longer add up: -5 seconds shows as "-1m -5s". */
  lemma NegativeTimeText()
    ensures FloorDiv(-5, 60) * 60 + Rem(-5, 60) != -5
    ensures TimeText(-5) == "-1m -5s"
  {
  }

  class Dashboard {
    var questions: seq<Question>
    var users: seq<User>
    var newQuestion: QuestionDraft
    var newUser: UserDraft
    var csvData: string

    /** The dashboard starts from the stored questions and the students
        among the stored users. */
    constructor(questions: seq<Question>, allUsers: seq<User>)
      ensures this.questions == questions && users == Students(allUsers)
      ensures newQuestion == EmptyQuestionDraft && newUser == EmptyUserDraft && csvData == ""
    {
      this.questions := questions;
      users := Filter(allUsers, (u: User) => u.role == Student);
      newQuestion := EmptyQuestionDraft;
      newUser := EmptyUserDraft;
      csvData := "";
    }

    /** The correct-option radio button of option `i`, corrected to store
        the index as a number (`RadioValue` is the text it stores as
        written); the rest of the form is kept. */
    method SelectCorrectOption(i: nat)
      modifies this`newQuestion
      ensures newQuestion == old(newQuestion).(correctOption := i)
    {
      newQuestion := newQuestion.(correctOption := i);
    }

    /** `addQuestion`: an incomplete form changes nothing; a complete one
        appends its question with id `length + 1` and clears the form. The
        key is the number the corrected radio button stores. */
    method AddQuestion() returns (added: bool)
      modifies this
      ensures added <==> QuestionDraftComplete(old(newQuestion))
      ensures added ==> questions == old(questions) + [DraftQuestion(old(newQuestion), |old(questions)|)]
      ensures added ==> newQuestion == EmptyQuestionDraft
      ensures !added ==> questions == old(questions) && newQuestion == old(newQuestion)
      ensures users == old(users) && newUser == old(newUser) && csvData == old(csvData)
    {
      if newQuestion.text == "" || exists k :: 0 <= k < |newQuestion.options| && newQuestion.options[k] == "" {
        return false;
      }
      var question := Question(NextId(questions), newQuestion.text, newQuestion.options,
                               Int(newQuestion.correctOption), Some(newQuestion.explanation), None);
      questions := questions + [question];
      newQuestion := EmptyQuestionDraft;
      return true;
    }

    /** `deleteQuestion`: removes every question with that id, keeping the
        others in order. */
    method DeleteQuestion(id: string)
      modifies this`questions
      ensures questions == RemoveQuestion(old(questions), id)
    {
      questions := Filter(questions, (q: Question) => q.id != id);
    }

    /** `addUser`, the same as the students tab's: a complete form appends
        a student and is cleared, an incomplete one changes nothing. */
    method AddUser() returns (added: bool)
      modifies this
      ensures added <==> UserDraftComplete(old(newUser))
      ensures Roster(users, newUser) == StudentsTab.AddUser(old(users), old(newUser))
      ensures questions == old(questions) && newQuestion == old(newQuestion) && csvData == old(csvData)
    {
      if newUser.username == "" || newUser.password == "" || newUser.name == "" {
        return false;
      }
      var user := User(NextId(users), newUser.username, newUser.password, Student,
                       Some(newUser.name), Some(newUser.email));
      users := users + [user];
      newUser := EmptyUserDraft;
      return true;
    }

    /** `deleteUser`, the same as the students tab's. */
    method DeleteUser(id: string)
      modifies this`users
      ensures users == StudentsTab.DeleteUser(old(users), id)
    {
      users := Filter(users, (u: User) => u.id != id);
    }

    /** `processCsvData`: blank text, or text with no qualifying line,
        changes nothing; otherwise the imported questions follow the existing
        ones and the text box is cleared. Returns how many were imported. */
    method ProcessCsvData() returns (imported: nat)
      modifies this`questions, this`csvData
      ensures Trim(old(csvData)) == "" ==> imported == 0
      ensures Trim(old(csvData)) != "" ==>
        imported == |CsvQuestions(Lines(old(csvData)), |old(questions)|, |Lines(old(csvData))|)|
      ensures imported == 0 ==> questions == old(questions) && csvData == old(csvData)
      ensures imported > 0 ==>
        && questions == old(questions) + CsvQuestions(Lines(old(csvData)), |old(questions)|, |Lines(old(csvData))|)
        && csvData == ""
    {
      if Trim(csvData) == "" {
        return 0;
      }
      var lines := Lines(csvData);
      var newQuestions := ReadCsvLines(lines, |questions|);
      if |newQuestions| == 0 {
        return 0;
      }
      questions := questions + newQuestions;
      csvData := "";
      return |newQuestions|;
    }
  }
}
