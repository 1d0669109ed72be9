/** The lenient importer of pasted CSV text (`handleProcess` of
    `src/components/admin/QuestionUploader.tsx`). Each non-blank line after an
    optional header either becomes a question or is reported by its 1-based
    line number; the questions are handed on when at least one line was
    valid. */
module QuestionUploader {
  import opened Js
  import opened Types
  import opened Text

  /** A first line containing this text is taken for a header and skipped. */
  const HeaderMarker: string := "Question,Option"

  /** What one line of the pasted text becomes. */
  datatype Row = Blank | Invalid(lineNumber: nat) | Valid(question: Question)

  /** What a press of the process button leads to. */
  datatype Outcome =
    | NoData
    | NoValidQuestions(errorLines: seq<nat>)
    | Uploaded(questions: seq<Question>, errorLines: seq<nat>)

  /** An option index the importer accepts: an integer from 0 to 3. */
  predicate InRange(c: JsInt) {
    c.Int? && 0 <= c.i <= 3
  }

  /** The columns of a line: its trimmed text split at every comma. */
  function Columns(line: string): seq<string> {
    Split(Trim(line), ',')
  }

  /** The line at index `i`: blank; invalid when it has fewer than six
      columns or its sixth column is not an integer from 0 to 3; otherwise a
      question with four options and an option index from 0 to 3. */
  function ClassifyRow(line: string, i: nat): (r: Row)
    ensures r.Invalid? ==> r.lineNumber == i + 1
    ensures r.Valid? ==> |r.question.options| == 4 && InRange(r.question.correctOption)
  {
    var cols := Columns(line);
    if Trim(line) == "" then Blank
    else if |cols| < 6 || !InRange(ParseInt(cols[5])) then Invalid(i + 1)
    else Valid(Question(TempId(i), cols[0], [cols[1], cols[2], cols[3], cols[4]],
                        ParseInt(cols[5]), ColumnOrAbsent(cols, 6), ColumnOrAbsent(cols, 7)))
  }

  /** A line is blank exactly when it is all white space, and invalid exactly
      when it is not blank but has fewer than six columns or a sixth column
      that is not an integer from 0 to 3. */
  lemma ClassifyRowKinds(line: string, i: nat)
    ensures ClassifyRow(line, i).Blank? <==> Trim(line) == ""
    ensures ClassifyRow(line, i).Invalid? <==>
      Trim(line) != "" && (|Columns(line)| < 6 || !InRange(ParseInt(Columns(line)[5])))
  {
  }

  /** The question a valid line becomes: the text of column one, the options
      of columns two to five, the parsed sixth column, and the seventh and
      eighth columns unless they are missing or empty. */
  lemma ClassifyRowFields(line: string, i: nat)
    requires ClassifyRow(line, i).Valid?
    ensures var cols := Columns(line);
      var q := ClassifyRow(line, i).question;
      && |cols| >= 6
      && q.id == TempId(i)
      && q.text == cols[0]
      && q.options == cols[1..5]
      && q.correctOption == ParseInt(cols[5])
      && q.explanation == ColumnOrAbsent(cols, 6)
      && q.topic == ColumnOrAbsent(cols, 7)
  {
    var cols := Columns(line);
    assert cols[1..5] == [cols[1], cols[2], cols[3], cols[4]];
  }

  /** The classification of every line. */
  function Rows(lines: seq<string>): (rows: seq<Row>)
    ensures |rows| == |lines|
    ensures forall i :: 0 <= i < |lines| ==> rows[i] == ClassifyRow(lines[i], i)
    ensures forall i :: 0 <= i < |rows| ==>
      WellFormedRow(rows[i]) && (rows[i].Invalid? ==> rows[i].lineNumber == i + 1)
  {
    seq(|lines|, i requires 0 <= i < |lines| => ClassifyRow(lines[i], i))
  }

  /** A valid row's question has four options and an option index from 0 to 3. */
  predicate WellFormedRow(row: Row) {
    row.Valid? ==> |row.question.options| == 4 && InRange(row.question.correctOption)
  }

  /** The questions of rows `start` to `end - 1`, in row order; each comes
      from a well-formed row. */
  function QuestionsIn(rows: seq<Row>, start: nat, end: nat): (qs: seq<Question>)
    requires start <= end <= |rows|
    requires forall i :: start <= i < end ==> WellFormedRow(rows[i])
    ensures forall k :: 0 <= k < |qs| ==> |qs[k].options| == 4 && InRange(qs[k].correctOption)
    decreases end
  {
    if end == start then []
    else
      var row := rows[end - 1];
      assert WellFormedRow(row);
      QuestionsIn(rows, start, end - 1) + (if row.Valid? then [row.question] else [])
  }

  /** The line numbers of the invalid rows among `start` to `end - 1`:
      increasing, and each greater than `start` and at most `end`. */
  function ErrorsIn(rows: seq<Row>, start: nat, end: nat): (errs: seq<nat>)
    requires start <= end <= |rows|
    requires forall i :: start <= i < end && rows[i].Invalid? ==> rows[i].lineNumber == i + 1
    ensures forall k :: 0 <= k < |errs| ==> start < errs[k] <= end
    ensures forall j, k :: 0 <= j < k < |errs| ==> errs[j] < errs[k]
    decreases end
  {
    if end == start then []
    else
      var row := rows[end - 1];
      ErrorsIn(rows, start, end - 1) + (if row.Invalid? then [row.lineNumber] else [])
  }

  /** The number of non-blank rows among `start` to `end - 1`. */
  function NonBlankIn(rows: seq<Row>, start: nat, end: nat): nat
    requires start <= end <= |rows|
    decreases end
  {
    if end == start then 0
    else NonBlankIn(rows, start, end - 1) + (if rows[end - 1].Blank? then 0 else 1)
  }

  /** The index of the first line read as data. */
  function StartIndex(lines: seq<string>): nat
    requires |lines| >= 1
  {
    if Contains(lines[0], HeaderMarker) then 1 else 0
  }

  /** The outcome for non-blank text split into `lines`: the valid questions
      and invalid line numbers, handed on only when some line is valid. */
  function UploadLines(lines: seq<string>): (r: Outcome)
    requires |lines| >= 1
    ensures !r.NoData?
    ensures r.Uploaded? <==> exists i :: StartIndex(lines) <= i < |lines| && Rows(lines)[i].Valid?
    ensures r.Uploaded? ==>
      |r.questions| >= 1 &&
      forall k :: 0 <= k < |r.questions| ==>
        |r.questions[k].options| == 4 && InRange(r.questions[k].correctOption)
  {
    var rows := Rows(lines);
    var start := StartIndex(lines);
    var questions := QuestionsIn(rows, start, |rows|);
    QuestionsInExactly(rows, start, |rows|);
    if questions == [] then NoValidQuestions(ErrorsIn(rows, start, |rows|))
    else Uploaded(questions, ErrorsIn(rows, start, |rows|))
  }

  /** The outcome of processing `csvData`: nothing exactly for blank input. */
  function Upload(csvData: string): (r: Outcome)
    ensures r.NoData? <==> Trim(csvData) == ""
  {
    if Trim(csvData) == "" then NoData else UploadLines(Lines(csvData))
  }

  /** A question is produced exactly by the valid rows of the range. */
  lemma {:induction false} QuestionsInExactly(rows: seq<Row>, start: nat, end: nat)
    requires start <= end <= |rows|
    requires forall i :: start <= i < end ==> WellFormedRow(rows[i])
    ensures forall i :: start <= i < end && rows[i].Valid? ==>
      rows[i].question in QuestionsIn(rows, start, end)
    ensures forall q :: q in QuestionsIn(rows, start, end) ==>
      exists i :: start <= i < end && rows[i] == Valid(q)
    ensures QuestionsIn(rows, start, end) == [] <==>
      forall i :: start <= i < end ==> !rows[i].Valid?
    decreases end
  {
    if end > start {
      QuestionsInExactly(rows, start, end - 1);
      var prev := QuestionsIn(rows, start, end - 1);
      var row := rows[end - 1];
      var cur := QuestionsIn(rows, start, end);
      assert cur == prev + (if row.Valid? then [row.question] else []);
      forall i | start <= i < end && rows[i].Valid?
        ensures rows[i].question in cur
      {
        if i == end - 1 {
          assert cur[|cur| - 1] == row.question;
        }
      }
      forall q | q in cur
        ensures exists i :: start <= i < end && rows[i] == Valid(q)
      {
        if q in prev {
          var i :| start <= i < end - 1 && rows[i] == Valid(q);
        } else {
          assert rows[end - 1] == Valid(q);
        }
      }
    }
  }

  /** A line number is reported exactly when its row is invalid. */
  lemma {:induction false} ErrorsInExactly(rows: seq<Row>, start: nat, end: nat)
    requires start <= end <= |rows|
    requires forall i :: start <= i < end && rows[i].Invalid? ==> rows[i].lineNumber == i + 1
    ensures forall i :: start <= i < end ==>
      (i + 1 in ErrorsIn(rows, start, end) <==> rows[i].Invalid?)
    decreases end
  {
    if end > start {
      ErrorsInExactly(rows, start, end - 1);
    }
  }

  /** Every non-blank row lands in exactly one of the two lists. */
  lemma {:induction false} RowsPartition(rows: seq<Row>, start: nat, end: nat)
    requires start <= end <= |rows|
    requires forall i :: start <= i < end ==> WellFormedRow(rows[i])
    requires forall i :: start <= i < end && rows[i].Invalid? ==> rows[i].lineNumber == i + 1
    ensures |QuestionsIn(rows, start, end)| + |ErrorsIn(rows, start, end)| == NonBlankIn(rows, start, end)
    decreases end
  {
    if end > start {
      RowsPartition(rows, start, end - 1);
    }
  }

  /** Lines before the first data line are neither reported nor delivered:
      with a header (`StartIndex` is 1) the first line is skipped, and
      without one it is read as data like any other. */
  lemma SkippedLinesIgnored(lines: seq<string>, start: nat)
    requires start <= |lines|
    ensures forall e :: e in ErrorsIn(Rows(lines), start, |lines|) ==> e > start
    ensures forall q, i :: q in QuestionsIn(Rows(lines), start, |lines|) && 0 <= i < start ==>
      q.id != TempId(i)
  {
    var rows := Rows(lines);
    QuestionsInExactly(rows, start, |rows|);
    forall q, i | q in QuestionsIn(rows, start, |rows|) && 0 <= i < start
      ensures q.id != TempId(i)
    {
      var j :| start <= j < |rows| && rows[j] == Valid(q);
      ValidRowId(lines[j], j);
      TempIdInjective(j, i);
    }
  }

  /** The question of the line at index `i` has id `temp-i`. */
  lemma ValidRowId(line: string, i: nat)
    requires ClassifyRow(line, i).Valid?
    ensures ClassifyRow(line, i).question.id == TempId(i)
  {
  }

  /** The body of the parsing loop for the line at index `i`: the same
      computation as `ClassifyRow`, written as the loop's statements, so
      that the loop can be proved against `ClassifyRow` one line at a time. */
  method ReadLine(text: string, i: nat) returns (row: Row)
    ensures row == ClassifyRow(text, i)
  {
    var line := Trim(text);
    if line == "" {
      return Blank;
    }
    var cols := Split(line, ',');
    if |cols| < 6 {
      return Invalid(i + 1);
    }
    var correctOption := ParseInt(cols[5]);
    if correctOption.NaN? || correctOption.i < 0 || correctOption.i > 3 {
      return Invalid(i + 1);
    }
    var question := Question(TempId(i), cols[0], [cols[1], cols[2], cols[3], cols[4]],
                             correctOption, ColumnOrAbsent(cols, 6), ColumnOrAbsent(cols, 7));
    return Valid(question);
  }

  /** One more row extends the questions or the line numbers, or neither. */
  lemma UploadStep(rows: seq<Row>, start: nat, i: nat)
    requires start <= i < |rows|
    requires forall k :: start <= k < |rows| ==> WellFormedRow(rows[k])
    requires forall k :: start <= k < |rows| && rows[k].Invalid? ==> rows[k].lineNumber == k + 1
    ensures QuestionsIn(rows, start, i + 1)
         == QuestionsIn(rows, start, i) + (if rows[i].Valid? then [rows[i].question] else [])
    ensures ErrorsIn(rows, start, i + 1)
         == ErrorsIn(rows, start, i) + (if rows[i].Invalid? then [rows[i].lineNumber] else [])
  {
  }

  /** The parsing loop of `handleProcess`, proved to compute `Upload`. */
  method ProcessCsv(csvData: string) returns (r: Outcome)
    ensures r == Upload(csvData)
  {
    var data := Trim(csvData);
    if data == "" {
      return NoData;
    }
    var lines := Split(data, '\n');
    var start := StartIndex(lines);
    var questions: seq<Question> := [];
    var errorLines: seq<nat> := [];
    ghost var rows := Rows(lines);
    for i := start to |lines|
      invariant questions == QuestionsIn(rows, start, i)
      invariant errorLines == ErrorsIn(rows, start, i)
    {
      var row := ReadLine(lines[i], i);
      UploadStep(rows, start, i);
      match row
      case Blank =>
      case Invalid(lineNumber) =>
        errorLines := errorLines + [lineNumber];
      case Valid(question) =>
        questions := questions + [question];
    }
    assert lines == Lines(csvData);
    if questions == [] {
      return NoValidQuestions(errorLines);
    }
    return Uploaded(questions, errorLines);
  }

  /** The uploader's text box. Processing hands the questions on and clears
      the box when some line was valid; otherwise the text stays. */
  class Uploader {
    var csvData: string

    constructor()
      ensures csvData == ""
    {
      csvData := "";
    }

    method HandleProcess() returns (r: Outcome)
      modifies this
      ensures r == Upload(old(csvData))
      ensures csvData == if r.Uploaded? then "" else old(csvData)
    {
      r := ProcessCsv(csvData);
      if r.Uploaded? {
        csvData := "";
      }
    }
  }
}
