/** The strict importer of a CSV file (the `reader.onload` body of
    `handleUpload` in `src/components/admin/questions/CSVFileUploaderDialog.tsx`).
    The first line must hold the full column list; any later non-blank line
    with fewer than eight columns aborts the whole import; every other
    non-blank line becomes a question with trimmed fields. Reading the file
    itself is I/O and is not modelled: the importer gets its text. */
module CsvFileUploader {
  import opened Js
  import opened Types
  import opened Text

  /** The column list the lower-cased first line must contain. */
  const ExpectedHeader: string :=
    "question,option1,option2,option3,option4,correctoptionindex,explanation,topic"

  /** What one line after the header becomes. */
  datatype Row = Blank | Short(lineNumber: nat) | Parsed(question: Question)

  /** What pressing upload leads to. */
  datatype Outcome =
    | NoFile
    | BadHeader
    | BadRow(lineNumber: nat)
    | Imported(questions: seq<Question>)

  /** The header test on the first line, after trimming and lower-casing. */
  predicate HeaderOk(first: string) {
    Contains(ToLower(Trim(first)), ExpectedHeader)
  }

  /** The columns of a line, each trimmed: `line.split(',')` of the trimmed
      line, with every column then trimmed as it is read. */
  function Fields(text: string): seq<string> {
    TrimEach(Split(Trim(text), ','))
  }

  /** The line at index `i`: blank, short (fewer than eight columns), or a
      question. The option index is parsed but not range-checked. */
  function ClassifyRow(text: string, i: nat): (r: Row)
    ensures r.Short? ==> r.lineNumber == i + 1
    ensures r.Parsed? ==> |r.question.options| == 4
  {
    var line := Trim(text);
    var cols := Fields(text);
    if line == "" then Blank
    else if |cols| < 8 then Short(i + 1)
    else Parsed(Question(TempId(i), cols[0], cols[1..5],
                         ParseInt(cols[5]), NonEmpty(cols[6]), NonEmpty(cols[7])))
  }

  /** A line is blank exactly when it is all white space, and short exactly
      when it is not blank and has fewer than eight columns; the value of the
      sixth column plays no part. */
  lemma ClassifyRowKinds(text: string, i: nat)
    ensures ClassifyRow(text, i).Blank? <==> Trim(text) == ""
    ensures ClassifyRow(text, i).Short? <==> Trim(text) != "" && |Fields(text)| < 8
    ensures ClassifyRow(text, i).Parsed? <==> Trim(text) != "" && |Fields(text)| >= 8
  {
  }

  /** The question a full line becomes: id `temp-i`, the trimmed first
      column as text, the trimmed columns two to five as options, whatever
      `parseInt` makes of the trimmed sixth column (no range check), and the
      seventh and eighth columns unless they trim to nothing. */
  lemma ClassifyRowFields(text: string, i: nat)
    requires ClassifyRow(text, i).Parsed?
    ensures var cols := Fields(text);
      var q := ClassifyRow(text, i).question;
      && |cols| >= 8
      && q.id == TempId(i)
      && q.text == cols[0]
      && q.options == cols[1..5]
      && q.correctOption == ParseInt(cols[5])
      && (q.explanation.None? <==> cols[6] == "")
      && (q.explanation.Some? ==> q.explanation.value == cols[6])
      && (q.topic.None? <==> cols[7] == "")
      && (q.topic.Some? ==> q.topic.value == cols[7])
  {
  }

  function Rows(lines: seq<string>): (rows: seq<Row>)
    ensures |rows| == |lines|
    ensures forall i :: 0 <= i < |lines| ==> rows[i] == ClassifyRow(lines[i], i)
    ensures forall i :: 0 <= i < |rows| && rows[i].Short? ==> rows[i].lineNumber == i + 1
  {
    seq(|lines|, i requires 0 <= i < |lines| => ClassifyRow(lines[i], i))
  }

  /** The import of rows 1 to `end - 1`: aborted at the first short row, or
      the questions of the full rows in order. */
  function ImportRows(rows: seq<Row>, end: nat): (r: Outcome)
    requires 1 <= end <= |rows|
    ensures r.BadRow? || r.Imported?
    decreases end
  {
    if end == 1 then Imported([])
    else
      var sofar := ImportRows(rows, end - 1);
      if sofar.BadRow? then sofar
      else match rows[end - 1]
        case Blank => sofar
        case Short(n) => BadRow(n)
        case Parsed(q) => Imported(sofar.questions + [q])
  }

  /** All or nothing: the import succeeds exactly when no row is short, and
      then it holds one question per non-blank row. */
  lemma {:induction false} ImportAllOrNothing(rows: seq<Row>, end: nat)
    requires 1 <= end <= |rows|
    ensures ImportRows(rows, end).Imported? <==> forall i :: 1 <= i < end ==> !rows[i].Short?
    ensures ImportRows(rows, end).Imported? ==>
      |ImportRows(rows, end).questions| == CountParsed(rows, end)
    decreases end
  {
    if end > 1 {
      ImportAllOrNothing(rows, end - 1);
    }
  }

  /** The number of full rows among rows 1 to `end - 1`. */
  function CountParsed(rows: seq<Row>, end: nat): nat
    requires 1 <= end <= |rows|
    decreases end
  {
    if end == 1 then 0 else CountParsed(rows, end - 1) + (if rows[end - 1].Parsed? then 1 else 0)
  }

  /** An aborted import names the first short row, by its 1-based number. */
  lemma {:induction false} ImportAbortsAtFirstShortRow(rows: seq<Row>, end: nat)
    requires 1 <= end <= |rows|
    requires forall i :: 0 <= i < |rows| && rows[i].Short? ==> rows[i].lineNumber == i + 1
    ensures ImportRows(rows, end).BadRow? ==>
      var k := ImportRows(rows, end).lineNumber - 1;
      && 1 <= k < end
      && rows[k].Short?
      && forall i :: 1 <= i < k ==> !rows[i].Short?
    decreases end
  {
    if end > 1 {
      ImportAbortsAtFirstShortRow(rows, end - 1);
      ImportAllOrNothing(rows, end - 1);
    }
  }

  /** Every delivered question comes from a full row. */
  lemma {:induction false} ImportedFromParsedRows(rows: seq<Row>, end: nat)
    requires 1 <= end <= |rows|
    ensures ImportRows(rows, end).Imported? ==>
      forall q :: q in ImportRows(rows, end).questions ==>
        exists i :: 1 <= i < end && rows[i] == Parsed(q)
    decreases end
  {
    if end > 1 {
      ImportedFromParsedRows(rows, end - 1);
    }
  }

  /** The import of a file already split into lines. */
  function ImportLines(lines: seq<string>): (r: Outcome)
    requires |lines| >= 1
    ensures r.BadHeader? <==> !HeaderOk(lines[0])
    ensures r.Imported? <==>
      HeaderOk(lines[0]) && forall i :: 1 <= i < |lines| ==> !Rows(lines)[i].Short?
    ensures !r.NoFile?
  {
    ImportAllOrNothing(Rows(lines), |lines|);
    if !HeaderOk(lines[0]) then BadHeader else ImportRows(Rows(lines), |lines|)
  }

  /** The import of the text of a file. */
  function Import(content: string): Outcome {
    ImportLines(Lines(content))
  }

  /** A file holding only the header imports successfully with no questions:
      the questions are handed on even when there are none. */
  lemma HeaderOnly(lines: seq<string>)
    requires |lines| == 1 && HeaderOk(lines[0])
    ensures ImportLines(lines) == Imported([])
  {
  }

  /** The body of the loop for the line at index `i`: the same computation
      as `ClassifyRow`, written as the loop's statements, so that the loop
      can be proved against `ClassifyRow` one line at a time. */
  method ReadLine(text: string, i: nat) returns (row: Row)
    ensures row == ClassifyRow(text, i)
  {
    var line := Trim(text);
    if line == "" {
      return Blank;
    }
    var cols := TrimEach(Split(line, ','));
    if |cols| < 8 {
      return Short(i + 1);
    }
    var question := Question(TempId(i), cols[0], cols[1..5],
                             ParseInt(cols[5]), NonEmpty(cols[6]), NonEmpty(cols[7]));
    return Parsed(question);
  }

  /** The `onload` body: the header check, then the row loop. */
  method ParseFile(content: string) returns (r: Outcome)
    ensures r == Import(content)
  {
    var lines := Lines(content);
    if !HeaderOk(lines[0]) {
      return BadHeader;
    }
    r := ReadRows(lines);
  }

  /** The loop over the lines after the header, returning early at the
      first short row. */
  method ReadRows(lines: seq<string>) returns (r: Outcome)
    requires |lines| >= 1
    ensures r == ImportRows(Rows(lines), |lines|)
  {
    var questions: seq<Question> := [];
    ghost var rows := Rows(lines);
    for i := 1 to |lines|
      invariant ImportRows(rows, i) == Imported(questions)
    {
      var row := ReadLine(lines[i], i);
      ImportStep(rows, i, questions);
      match row
      case Blank =>
      case Short(lineNumber) =>
        return BadRow(lineNumber);
      case Parsed(question) =>
        questions := questions + [question];
    }
    return Imported(questions);
  }

  /** One row of the loop after a clean prefix: a blank row changes
      nothing, a full row adds its question, and a short row aborts the
      whole import. */
  lemma ImportStep(rows: seq<Row>, i: nat, questions: seq<Question>)
    requires 1 <= i < |rows|
    requires ImportRows(rows, i) == Imported(questions)
    ensures rows[i].Blank? ==> ImportRows(rows, i + 1) == Imported(questions)
    ensures rows[i].Parsed? ==> ImportRows(rows, i + 1) == Imported(questions + [rows[i].question])
    ensures rows[i].Short? ==> ImportRows(rows, |rows|) == BadRow(rows[i].lineNumber)
  {
    if rows[i].Short? {
      AbortIsFinal(rows, i + 1, |rows|);
    }
  }

  /** An abort at some row is final: later rows do not change it. */
  lemma {:induction false} AbortIsFinal(rows: seq<Row>, k: nat, end: nat)
    requires 1 <= k <= end <= |rows|
    requires ImportRows(rows, k).BadRow?
    ensures ImportRows(rows, end) == ImportRows(rows, k)
    decreases end
  {
    if end > k {
      AbortIsFinal(rows, k, end - 1);
    }
  }

  /** The dialog's chosen file. A successful import hands the questions on
      and clears the choice; every failure keeps it. */
  class Dialog {
    var file: Option<string>

    constructor()
      ensures file == None
    {
      file := None;
    }

    method HandleUpload() returns (r: Outcome)
      modifies this
      ensures old(file).None? ==> r == NoFile
      ensures old(file).Some? ==> r == Import(old(file).value)
      ensures file == if r.Imported? then None else old(file)
    {
      if file.None? {
        return NoFile;
      }
      r := ParseFile(file.value);
      if r.Imported? {
        file := None;
      }
    }
  }
}
