/** The records of the application (`src/types/index.ts`). Dates are
    timestamps in milliseconds; `options` and `answers` are the decoded
    values of their JSON columns. */
module Types {
  import opened Js
  import opened Text
  import opened Seqs

  /** A multiple-choice question. `correctOption` is `NaN` when an importer
      stored the result of a failed `parseInt`. */
  datatype Question = Question(
    id: string,
    text: string,
    options: seq<string>,
    correctOption: JsInt,
    explanation: Option<string>,
    topic: Option<string>)

  datatype Role = Student | Admin

  datatype User = User(
    id: string,
    username: string,
    password: string,
    role: Role,
    name: Option<string>,
    email: Option<string>)

  /** A user as handed out to callers: everything but the password. */
  datatype PublicUser = PublicUser(
    id: string,
    username: string,
    role: Role,
    name: Option<string>,
    email: Option<string>)

  function WithoutPassword(u: User): PublicUser {
    PublicUser(u.id, u.username, u.role, u.name, u.email)
  }

  datatype ScheduledTest = ScheduledTest(
    id: string,
    title: string,
    description: Option<string>,
    startDate: int,
    endDate: int,
    duration: int,
    topics: seq<string>,
    questionCount: int,
    isActive: bool,
    createdAt: int)

  /** One entry of a result's `answers`: the option chosen (-1 when none). */
  datatype Answer = Answer(
    questionId: string,
    selectedOption: int,
    isCorrect: bool,
    timeSpent: int)

  datatype TestResult = TestResult(
    id: string,
    userId: string,
    userName: string,
    testDate: int,
    score: int,
    totalQuestions: int,
    timeSpent: int,
    answers: seq<Answer>,
    testId: Option<string>)

  /** The temporary id `temp-i` an importer gives the question read from
      the line at index `i`. */
  function TempId(i: nat): string {
    "temp-" + NatToString(i)
  }

  /** Different line indices give different temporary ids. */
  lemma TempIdInjective(i: nat, j: nat)
    requires i != j
    ensures TempId(i) != TempId(j)
  {
    ParseNatToString(i, "");
    ParseNatToString(j, "");
    assert NatToString(i) + "" == NatToString(i);
    assert NatToString(j) + "" == NatToString(j);
    assert TempId(i)[5..] == NatToString(i);
    assert TempId(j)[5..] == NatToString(j);
  }

  /** `questions.filter(q => q.id !== id)`: exactly the other questions. */
  function RemoveQuestion(questions: seq<Question>, id: string): (r: seq<Question>)
    ensures forall q :: q in r <==> q in questions && q.id != id
  {
    Filter(questions, (q: Question) => q.id != id)
  }

  /** Removing an id keeps the order of the remaining questions: it
      distributes over concatenation. */
  lemma RemoveQuestionKeepsOrder(a: seq<Question>, b: seq<Question>, id: string)
    ensures RemoveQuestion(a + b, id) == RemoveQuestion(a, id) + RemoveQuestion(b, id)
  {
    FilterConcat(a, b, (q: Question) => q.id != id);
  }

  /** `users.filter(u => u.id !== id)`: exactly the other users. */
  function RemoveUser(users: seq<User>, id: string): (r: seq<User>)
    ensures forall u :: u in r <==> u in users && u.id != id
  {
    Filter(users, (u: User) => u.id != id)
  }

  /** Removing an id keeps the order of the remaining users. */
  lemma RemoveUserKeepsOrder(a: seq<User>, b: seq<User>, id: string)
    ensures RemoveUser(a + b, id) == RemoveUser(a, id) + RemoveUser(b, id)
  {
    FilterConcat(a, b, (u: User) => u.id != id);
  }

  /** Removing an id nobody has changes nothing. */
  lemma RemoveAbsentUser(users: seq<User>, id: string)
    requires forall k :: 0 <= k < |users| ==> users[k].id != id
    ensures RemoveUser(users, id) == users
  {
    FilterAll(users, (u: User) => u.id != id);
  }

  /** Removing the id of a user appended to a list without that id gives
      the list back. */
  lemma RemoveAppendedUser(users: seq<User>, added: User, id: string)
    requires forall k :: 0 <= k < |users| ==> users[k].id != id
    requires added.id == id
    ensures RemoveUser(users + [added], id) == users
  {
    RemoveUserKeepsOrder(users, [added], id);
    RemoveAbsentUser(users, id);
    assert RemoveUser([added], id) == [];
    assert users + [] == users;
  }
}
