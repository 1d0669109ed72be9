/** The query construction of the server-side database service
    (`lib/database-service.ts`): the `UPDATE ... SET ... WHERE id = $k`
    statements built from partial records, and the query texts of
    `getTestResults` and `getQuestionsByTopics`. Running a statement is not
    part of the model: each operation returns the text and parameters it
    would send. */
module SqlBuilder {
  import opened Js
  import opened Text

  /** A query parameter. `Json(xs)` stands for `JSON.stringify(xs)`. */
  datatype SqlValue = Str(s: string) | Num(n: int) | Bool(b: bool) | StrList(xs: seq<string>) | Json(items: seq<string>)

  datatype Statement = Statement(text: string, params: seq<SqlValue>)

  /** One `column = $k` assignment waiting for its number. */
  datatype Field = Field(column: string, value: SqlValue)

  /** The `$k` placeholder of the k-th parameter. */
  function Placeholder(k: nat): string {
    "$" + NatToString(k)
  }

  /** Different numbers give different placeholders. */
  lemma PlaceholderInjective(j: nat, k: nat)
    requires Placeholder(j) == Placeholder(k)
    ensures j == k
  {
    assert NatToString(j) == Placeholder(j)[1..] == Placeholder(k)[1..] == NatToString(k);
    ParseNatToString(j, "");
    ParseNatToString(k, "");
    assert NatToString(j) + "" == NatToString(j) && NatToString(k) + "" == NatToString(k);
  }

  /** The assignments, numbered from `$1`. */
  function Assignments(fields: seq<Field>): (r: seq<string>)
    ensures |r| == |fields|
  {
    if fields == [] then []
    else
      var n := |fields| - 1;
      Assignments(fields[..n]) + [fields[n].column + " = " + Placeholder(n + 1)]
  }

  /** The values, in the order of their fields. */
  function Values(fields: seq<Field>): (r: seq<SqlValue>)
    ensures |r| == |fields|
  {
    if fields == [] then [] else Values(fields[..|fields| - 1]) + [fields[|fields| - 1].value]
  }

  /** The i-th assignment uses `$(i+1)` for the i-th field's column. */
  lemma {:induction false} NumberedAssignments(fields: seq<Field>)
    ensures forall i :: 0 <= i < |fields| ==>
      Assignments(fields)[i] == fields[i].column + " = " + Placeholder(i + 1)
  {
    if fields != [] {
      var n := |fields| - 1;
      var init := fields[..n];
      NumberedAssignments(init);
      assert Assignments(fields) == Assignments(init) + [fields[n].column + " = " + Placeholder(n + 1)];
    }
  }

  /** The i-th value is the i-th field's value. */
  lemma {:induction false} OrderedValues(fields: seq<Field>)
    ensures forall i :: 0 <= i < |fields| ==> Values(fields)[i] == fields[i].value
  {
    if fields != [] {
      var n := |fields| - 1;
      var init := fields[..n];
      OrderedValues(init);
      assert Values(fields) == Values(init) + [fields[n].value];
    }
  }

  /** The template `UPDATE table SET a1, a2, ... WHERE id = $k`. */
  function UpdateText(table: string, assignments: seq<string>, idPlaceholder: nat): string {
    "UPDATE " + table + " SET " + Join(assignments, ", ") + " WHERE id = " + Placeholder(idPlaceholder)
  }

  /** The statement an update sends: `None` when no field is defined;
      otherwise the numbered assignments followed by `extra`, and the id as
      the last parameter. */
  function UpdateStatement(table: string, fields: seq<Field>, extra: seq<string>, id: string): Option<Statement> {
    if fields == [] then None
    else Some(Statement(UpdateText(table, Assignments(fields) + extra, |fields| + 1), Values(fields) + [Str(id)]))
  }

  /** Every placeholder of an update refers to the value meant for it: the
      i-th assignment uses `$(i+1)`, whose parameter is that field's value;
      the `WHERE` clause uses the last parameter, which is the id; and no two
      placeholders are the same. */
  lemma UpdatePlaceholdersBind(table: string, fields: seq<Field>, extra: seq<string>, id: string)
    requires fields != []
    ensures var st := UpdateStatement(table, fields, extra, id).value;
      && |st.params| == |fields| + 1
      && (forall i :: 0 <= i < |fields| ==>
            Assignments(fields)[i] == fields[i].column + " = " + Placeholder(i + 1)
            && st.params[(i + 1) - 1] == fields[i].value)
      && st.params[|st.params| - 1] == Str(id)
      && st.text == UpdateText(table, Assignments(fields) + extra, |st.params|)
      && (forall j, k :: 1 <= j < k <= |st.params| ==> Placeholder(j) != Placeholder(k))
  {
    NumberedAssignments(fields);
    OrderedValues(fields);
    forall j, k | 1 <= j < k <= |fields| + 1
      ensures Placeholder(j) != Placeholder(k)
    {
      if Placeholder(j) == Placeholder(k) {
        PlaceholderInjective(j, k);
      }
    }
  }

  /** The field a column contributes: one when its value is defined, none otherwise. */
  function OptField(column: string, slot: Option<SqlValue>): seq<Field> {
    if slot.Some? then [Field(column, slot.value)] else []
  }

  /** The builder state of one update: `updates`, `values` and `paramCount`
      as the source keeps them, for the fields pushed so far. */
  class UpdateBuilder {
    var updates: seq<string>
    var values: seq<SqlValue>
    var paramCount: nat
    ghost var fields: seq<Field>

    ghost predicate Valid()
      reads this
    {
      updates == Assignments(fields) && values == Values(fields) && paramCount == |fields| + 1
    }

    constructor ()
      ensures Valid() && fields == []
    {
      updates, values, paramCount := [], [], 1;
      fields := [];
    }

    /** `if (value !== undefined)`: push `column = $paramCount` and the value,
        then count on. */
    method AddIfDefined(column: string, slot: Option<SqlValue>)
      requires Valid()
      modifies this
      ensures Valid() && fields == old(fields) + OptField(column, slot)
    {
      if slot.Some? {
        assert (fields + [Field(column, slot.value)])[..|fields|] == fields;
        updates := updates + [column + " = " + Placeholder(paramCount)];
        values := values + [slot.value];
        paramCount := paramCount + 1;
        fields := fields + [Field(column, slot.value)];
      }
    }

    /** `if (updates.length > 0)`: push the parameterless `extra`
        assignments and the id, and number the `WHERE` placeholder with
        `paramCount`; nothing is sent when no field was defined. */
    method Finish(table: string, extra: seq<string>, id: string) returns (st: Option<Statement>)
      requires Valid()
      ensures st == UpdateStatement(table, fields, extra, id)
    {
      if |updates| > 0 {
        st := Some(Statement(UpdateText(table, updates + extra, paramCount), values + [Str(id)]));
      } else {
        st := None;
      }
    }
  }

  function OptStr(s: Option<string>): Option<SqlValue> {
    if s.Some? then Some(Str(s.value)) else None
  }

  function OptNum(n: Option<int>): Option<SqlValue> {
    if n.Some? then Some(Num(n.value)) else None
  }

  /** A partial question, as `updateQuestion` receives it. */
  datatype QuestionPatch = QuestionPatch(
    text: Option<string>,
    options: Option<seq<string>>,
    correctOption: Option<int>,
    explanation: Option<string>,
    topic: Option<string>)

  function QuestionSlots(p: QuestionPatch): seq<Option<SqlValue>> {
    [OptStr(p.text), if p.options.Some? then Some(Json(p.options.value)) else None,
     OptNum(p.correctOption), OptStr(p.explanation), OptStr(p.topic)]
  }

  /** The fields `updateQuestion` visits, in its order. */
  function QuestionFields(p: QuestionPatch): seq<Field> {
    var slots := QuestionSlots(p);
    OptField("text", slots[0]) + OptField("options", slots[1]) + OptField("correct_option", slots[2])
      + OptField("explanation", slots[3]) + OptField("topic", slots[4])
  }

  /** `updateQuestion(id, question)`: one numbered assignment per defined
      field in column order, then `updated_at = NOW()` with no parameter; no
      statement when nothing is defined. */
  method UpdateQuestion(id: string, p: QuestionPatch) returns (st: Option<Statement>)
    ensures st == UpdateStatement("questions", QuestionFields(p), ["updated_at = NOW()"], id)
  {
    var slots := QuestionSlots(p);
    var b := new UpdateBuilder();
    b.AddIfDefined("text", slots[0]);
    b.AddIfDefined("options", slots[1]);
    b.AddIfDefined("correct_option", slots[2]);
    b.AddIfDefined("explanation", slots[3]);
    b.AddIfDefined("topic", slots[4]);
    assert b.fields == QuestionFields(p);
    st := b.Finish("questions", ["updated_at = NOW()"], id);
  }

  /** A partial scheduled test, as `updateScheduledTest` receives it. */
  datatype ScheduledTestPatch = ScheduledTestPatch(
    title: Option<string>,
    description: Option<string>,
    startDate: Option<string>,
    endDate: Option<string>,
    duration: Option<int>,
    questionCount: Option<int>,
    topics: Option<seq<string>>,
    isActive: Option<bool>)

  function ScheduledTestSlots(p: ScheduledTestPatch): seq<Option<SqlValue>> {
    [OptStr(p.title), OptStr(p.description), OptStr(p.startDate), OptStr(p.endDate),
     OptNum(p.duration), OptNum(p.questionCount),
     if p.topics.Some? then Some(StrList(p.topics.value)) else None,
     if p.isActive.Some? then Some(Bool(p.isActive.value)) else None]
  }

  /** The fields `updateScheduledTest` visits, in its order. */
  function ScheduledTestFields(p: ScheduledTestPatch): seq<Field> {
    var slots := ScheduledTestSlots(p);
    OptField("title", slots[0]) + OptField("description", slots[1]) + OptField("start_date", slots[2])
      + OptField("end_date", slots[3]) + OptField("duration", slots[4]) + OptField("question_count", slots[5])
      + OptField("topics", slots[6]) + OptField("is_active", slots[7])
  }

  /** `updateScheduledTest(id, test)`: numbered like `updateQuestion`, with no
      `updated_at` assignment. */
  method UpdateScheduledTest(id: string, p: ScheduledTestPatch) returns (st: Option<Statement>)
    ensures st == UpdateStatement("scheduled_tests", ScheduledTestFields(p), [], id)
  {
    var slots := ScheduledTestSlots(p);
    var b := new UpdateBuilder();
    b.AddIfDefined("title", slots[0]);
    b.AddIfDefined("description", slots[1]);
    b.AddIfDefined("start_date", slots[2]);
    b.AddIfDefined("end_date", slots[3]);
    b.AddIfDefined("duration", slots[4]);
    b.AddIfDefined("question_count", slots[5]);
    b.AddIfDefined("topics", slots[6]);
    b.AddIfDefined("is_active", slots[7]);
    assert b.fields == ScheduledTestFields(p);
    st := b.Finish("scheduled_tests", [], id);
  }

  /** `updateQuestion` sends nothing exactly when the patch is empty;
      otherwise one parameter per defined field plus the id. */
  lemma QuestionUpdateShape(p: QuestionPatch, id: string)
    ensures var st := UpdateStatement("questions", QuestionFields(p), ["updated_at = NOW()"], id);
      && (st.None? <==> p == QuestionPatch(None, None, None, None, None))
      && (st.Some? ==> 2 <= |st.value.params| == |QuestionFields(p)| + 1 <= 6)
  {
  }

  /** `updateScheduledTest` sends nothing exactly when the patch is empty;
      otherwise one parameter per defined field plus the id. */
  lemma ScheduledTestUpdateShape(p: ScheduledTestPatch, id: string)
    ensures var st := UpdateStatement("scheduled_tests", ScheduledTestFields(p), [], id);
      && (st.None? <==> p == ScheduledTestPatch(None, None, None, None, None, None, None, None))
      && (st.Some? ==> 2 <= |st.value.params| == |ScheduledTestFields(p)| + 1 <= 9)
  {
  }

  const TestResultsBase := "SELECT * FROM test_results"
  const TestResultsFilter := " WHERE user_id = $1"
  const TestResultsOrder := " ORDER BY created_at DESC"

  /** The query `getTestResults(userId)` sends: filtered by user, with the
      user as its only parameter, exactly when a non-empty user id is given;
      always newest first. */
  method TestResultsQuery(userId: Option<string>) returns (st: Statement)
    ensures TruthyString(userId) ==>
      st == Statement(TestResultsBase + TestResultsFilter + TestResultsOrder, [Str(userId.value)])
    ensures !TruthyString(userId) ==> st == Statement(TestResultsBase + TestResultsOrder, [])
    ensures StartsWith(st.text, TestResultsBase)
    ensures st.text[|st.text| - |TestResultsOrder|..] == TestResultsOrder
  {
    var queryText := TestResultsBase;
    var params: seq<SqlValue> := [];
    if TruthyString(userId) {
      queryText := queryText + TestResultsFilter;
      params := [Str(userId.value)];
    }
    queryText := queryText + TestResultsOrder;
    st := Statement(queryText, params);
  }

  const QuestionsByTopicsBase := "SELECT * FROM questions WHERE topic = ANY($1)"
  const QuestionsByTopicsLimit := " LIMIT $2"

  /** The query `getQuestionsByTopics(topics, limit)` sends: the topics are
      the first parameter; a truthy limit adds ` LIMIT $2` and is the second. */
  method QuestionsByTopicsQuery(topics: seq<string>, limit: Option<int>) returns (st: Statement)
    ensures limit.Some? && limit.value != 0 ==>
      st == Statement(QuestionsByTopicsBase + QuestionsByTopicsLimit, [StrList(topics), Num(limit.value)])
    ensures limit.None? || limit.value == 0 ==> st == Statement(QuestionsByTopicsBase, [StrList(topics)])
  {
    var queryText := QuestionsByTopicsBase;
    var params := [StrList(topics)];
    if limit.Some? && limit.value != 0 {
      queryText := queryText + QuestionsByTopicsLimit;
      params := params + [Num(limit.value)];
    }
    st := Statement(queryText, params);
  }
}
