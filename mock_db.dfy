/** The client-side mock store (`src/lib/db.ts`): users, questions and
    scheduled tests held in module-level lists, and a result log kept in
    local storage. The queries are functions of the lists they read; the two
    operations that append are methods of `Store`. Dates are millisecond
    timestamps and the clock is a parameter. */
module MockDb {
  import opened Js
  import opened Types
  import opened Seqs
  import opened Text

  datatype Error = InvalidCredentials | UserAlreadyExists

  datatype Result<T> = Ok(value: T) | Err(error: Error)

  /** A user whose email and password are both the ones given. */
  predicate Matches(u: User, email: string, password: string) {
    u.email == Some(email) && u.password == password
  }

  /** `loginUser`: the first user with this email and password, without its
      password, or the 'Invalid credentials' error when there is none. */
  function LoginUser(users: seq<User>, email: string, password: string): (r: Result<PublicUser>)
    ensures r.Ok? <==> exists i :: 0 <= i < |users| && Matches(users[i], email, password)
    ensures r.Ok? ==>
      exists i :: 0 <= i < |users| && Matches(users[i], email, password)
        && r.value == WithoutPassword(users[i])
        && forall j :: 0 <= j < i ==> !Matches(users[j], email, password)
    ensures r.Err? ==> r.error == InvalidCredentials
  {
    var k := FindIndex(users, u => Matches(u, email, password));
    if k == |users| then Err(InvalidCredentials) else Ok(WithoutPassword(users[k]))
  }

  /** The role `signupUser` gives a new account: admin exactly when the email
      contains "admin". */
  function RoleForEmail(email: string): Role {
    if Contains(email, "admin") then Admin else Student
  }

  /** A test is open at `now` when it is active and `now` lies in its window. */
  predicate IsOpen(t: ScheduledTest, now: int) {
    t.isActive && t.startDate <= now <= t.endDate
  }

  /** `getActiveScheduledTests`: exactly the tests open at `now`. */
  function ActiveScheduledTests(tests: seq<ScheduledTest>, now: int): (r: seq<ScheduledTest>)
    ensures forall i :: 0 <= i < |r| ==> r[i] in tests && IsOpen(r[i], now)
    ensures forall i :: 0 <= i < |tests| && IsOpen(tests[i], now) ==> tests[i] in r
  {
    Filter(tests, t => IsOpen(t, now))
  }

  /** The open tests keep the stored order: those of a longer list are those of
      its first part followed by those of the rest. */
  lemma ActiveScheduledTestsInOrder(a: seq<ScheduledTest>, b: seq<ScheduledTest>, now: int)
    ensures ActiveScheduledTests(a + b, now) == ActiveScheduledTests(a, now) + ActiveScheduledTests(b, now)
  {
    FilterConcat(a, b, t => IsOpen(t, now));
  }

  /** `getScheduledTestById`: the first test with this id, or `null`. */
  function ScheduledTestById(tests: seq<ScheduledTest>, id: string): (r: Option<ScheduledTest>)
    ensures r.None? <==> forall i :: 0 <= i < |tests| ==> tests[i].id != id
    ensures r.Some? ==>
      exists i :: 0 <= i < |tests| && tests[i] == r.value
        && r.value.id == id && forall j :: 0 <= j < i ==> tests[j].id != id
  {
    var k := FindIndex(tests, (t: ScheduledTest) => t.id == id);
    if k == |tests| then None else Some(tests[k])
  }

  /** A question whose topic (`''` when it has none) is one of `topics`. */
  predicate HasTopicIn(q: Question, topics: seq<string>) {
    q.topic.GetOr("") in topics
  }

  /** `xs.slice(0, end)` on a whole number `end`: a negative end counts from
      the back of the list. */
  function SliceTo<T>(xs: seq<T>, end: int): (r: seq<T>)
    ensures 0 <= end ==> r == xs[..if end < |xs| then end else |xs|]
    ensures end < 0 ==> r == xs[..if |xs| + end < 0 then 0 else |xs| + end]
  {
    if end >= 0 then xs[..if end < |xs| then end else |xs|]
    else xs[..if |xs| + end < 0 then 0 else |xs| + end]
  }

  /** The questions of the pool on the given topics, in pool order. */
  function QuestionsOnTopics(pool: seq<Question>, topics: seq<string>): seq<Question> {
    Filter(pool, q => HasTopicIn(q, topics))
  }

  /** `getQuestionsByTopics(topics, limit)`. `shuffled` is the order the random
      sort left the filtered questions in; it is used only when a truthy limit
      is below the number of matching questions. */
  function QuestionsByTopics(pool: seq<Question>, topics: seq<string>, limit: Option<int>,
                             shuffled: seq<Question>): (r: seq<Question>)
    requires multiset(shuffled) == multiset(QuestionsOnTopics(pool, topics))
    ensures forall i :: 0 <= i < |r| ==> r[i] in pool && HasTopicIn(r[i], topics)
    ensures multiset(r) <= multiset(QuestionsOnTopics(pool, topics))
    ensures limit.Some? && 0 < limit.value < |QuestionsOnTopics(pool, topics)| ==> |r| == limit.value
    ensures (limit.None? || limit.value == 0 || |QuestionsOnTopics(pool, topics)| <= limit.value) ==>
      r == QuestionsOnTopics(pool, topics)
  {
    var filtered := QuestionsOnTopics(pool, topics);
    if limit.Some? && limit.value != 0 && |filtered| > limit.value then
      var r := SliceTo(shuffled, limit.value);
      assert |shuffled| == |filtered| by {
        assert |multiset(shuffled)| == |multiset(filtered)|;
      }
      PrefixSubMultiset(shuffled, |r|);
      assert forall i :: 0 <= i < |r| ==> r[i] in multiset(filtered);
      r
    else
      filtered
  }

  /** A prefix holds no element more often than the whole list. */
  lemma PrefixSubMultiset<T>(xs: seq<T>, k: nat)
    requires k <= |xs|
    ensures multiset(xs[..k]) <= multiset(xs)
  {
    assert xs == xs[..k] + xs[k..];
  }

  /** `getTestResults(userId)`: the results of that user, in stored order, or
      all results when no user (or `''`) is given. */
  function TestResults(results: seq<TestResult>, userId: Option<string>): (r: seq<TestResult>)
    ensures !TruthyString(userId) ==> r == results
    ensures TruthyString(userId) ==>
      && (forall i :: 0 <= i < |r| ==> r[i] in results && r[i].userId == userId.value)
      && (forall i :: 0 <= i < |results| && results[i].userId == userId.value ==> results[i] in r)
  {
    if TruthyString(userId) then Filter(results, (t: TestResult) => t.userId == userId.value) else results
  }

  /** `getUsers`: every user, in order, with the password removed. */
  function GetUsers(users: seq<User>): (r: seq<PublicUser>)
    ensures |r| == |users|
    ensures forall i :: 0 <= i < |users| ==> r[i] == WithoutPassword(users[i])
  {
    seq(|users|, i requires 0 <= i < |users| => WithoutPassword(users[i]))
  }

  /** A user who can log in is one of the users `getUsers` lists. */
  lemma LoginUserIsListed(users: seq<User>, email: string, password: string)
    requires LoginUser(users, email, password).Ok?
    ensures LoginUser(users, email, password).value in GetUsers(users)
  {
    var i :| 0 <= i < |users| && Matches(users[i], email, password)
      && LoginUser(users, email, password).value == WithoutPassword(users[i]);
    assert GetUsers(users)[i] == WithoutPassword(users[i]);
  }

  /** The non-empty topics of the questions, in question order, repeats kept. */
  function TruthyTopics(questions: seq<Question>): (r: seq<string>)
    ensures forall i :: 0 <= i < |r| ==> r[i] != "" && exists j :: 0 <= j < |questions| && questions[j].topic == Some(r[i])
    ensures forall j :: 0 <= j < |questions| && TruthyString(questions[j].topic) ==> questions[j].topic.value in r
  {
    if questions == [] then []
    else
      var rest := TruthyTopics(questions[1..]);
      assert forall j :: 1 <= j < |questions| ==> questions[j] == questions[1..][j - 1];
      (if TruthyString(questions[0].topic) then [questions[0].topic.value] else []) + rest
  }

  /** `getTopics`: each non-empty topic once, in order of first occurrence. */
  function GetTopics(questions: seq<Question>): (r: seq<string>)
    ensures NoDuplicates(r)
    ensures forall i :: 0 <= i < |r| ==> r[i] != "" && exists j :: 0 <= j < |questions| && questions[j].topic == Some(r[i])
    ensures forall j :: 0 <= j < |questions| && TruthyString(questions[j].topic) ==> questions[j].topic.value in r
  {
    var topics := TruthyTopics(questions);
    assert forall x :: x in topics ==> exists i :: 0 <= i < |topics| && topics[i] == x;
    Distinct(topics)
  }

  /** Topics are listed in the order in which they first appear. */
  lemma GetTopicsInFirstOccurrenceOrder(questions: seq<Question>)
    ensures forall i, j :: 0 <= i < j < |GetTopics(questions)| ==>
      FirstIndex(TruthyTopics(questions), GetTopics(questions)[i]) < FirstIndex(TruthyTopics(questions), GetTopics(questions)[j])
  {
    DistinctFirstOccurrenceOrder(TruthyTopics(questions));
  }

  /** The lists `signupUser` and `createTestResult` append to. */
  class Store {
    var users: seq<User>
    var testResults: seq<TestResult>

    constructor (users: seq<User>, testResults: seq<TestResult>)
      ensures this.users == users && this.testResults == testResults
    {
      this.users := users;
      this.testResults := testResults;
    }

    /** `signupUser` at clock reading `now`: an email already present is
        refused and nothing changes; otherwise exactly one user is appended,
        with `now` as its id and the role its email calls for. */
    method SignupUser(email: string, password: string, username: string, name: string, now: nat)
      returns (r: Result<PublicUser>)
      modifies this
      ensures testResults == old(testResults)
      ensures (exists i :: 0 <= i < |old(users)| && old(users)[i].email == Some(email)) ==>
        r == Err(UserAlreadyExists) && users == old(users)
      ensures (forall i :: 0 <= i < |old(users)| ==> old(users)[i].email != Some(email)) ==>
        var u := User(NatToString(now), username, password, RoleForEmail(email), Some(name), Some(email));
        users == old(users) + [u] && r == Ok(WithoutPassword(u))
    {
      var k := FindIndex(users, (u: User) => u.email == Some(email));
      if k < |users| {
        return Err(UserAlreadyExists);
      }
      var role := if Contains(email, "admin") then Admin else Student;
      var newUser := User(NatToString(now), username, password, role, Some(name), Some(email));
      users := users + [newUser];
      r := Ok(WithoutPassword(newUser));
    }

    /** `createTestResult` at clock reading `now`: appends the result with
        `now` as its id and returns that id; earlier results are kept. */
    method CreateTestResult(result: TestResult, now: nat) returns (id: string)
      modifies this
      ensures users == old(users)
      ensures testResults == old(testResults) + [result.(id := NatToString(now))]
      ensures id == NatToString(now)
    {
      id := NatToString(now);
      testResults := testResults + [result.(id := id)];
    }
  }

  /** After a successful signup, logging in with the same email and password
      yields the new account. */
  lemma SignupThenLogin(users: seq<User>, u: User, email: string, password: string)
    requires forall i :: 0 <= i < |users| ==> users[i].email != Some(email)
    requires u.email == Some(email) && u.password == password
    ensures LoginUser(users + [u], email, password) == Ok(WithoutPassword(u))
  {
    var all := users + [u];
    assert Matches(all[|users|], email, password);
    var r := LoginUser(all, email, password);
    var i :| 0 <= i < |all| && Matches(all[i], email, password) && r.value == WithoutPassword(all[i]);
    assert i == |users|;
  }

  /** A result appended for a user is the last of that user's results, after
      the ones already stored; other users' lists are unchanged. */
  lemma CreatedResultIsListed(results: seq<TestResult>, r: TestResult, userId: string)
    requires userId != ""
    ensures r.userId == userId ==> TestResults(results + [r], Some(userId)) == TestResults(results, Some(userId)) + [r]
    ensures r.userId != userId ==> TestResults(results + [r], Some(userId)) == TestResults(results, Some(userId))
  {
    var p := (t: TestResult) => t.userId == userId;
    FilterConcat(results, [r], p);
    FilterSingleton(r, p);
  }
}
