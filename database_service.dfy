/** The client-side `DatabaseService` (`src/lib/database-service.ts`). Most of
    its methods hand back what the mock store returns unchanged, and are the
    `MockDb` functions themselves; what it adds is a single-topic filter, a
    role lookup, identifiers made up from a count or the clock, and update
    and delete methods that change nothing. */
module DatabaseService {
  import opened Js
  import opened Types
  import opened Seqs
  import opened Text
  import opened MockDb

  /** `getQuestionsByTopic(topic)`: exactly the questions whose topic is
      `topic`, in stored order; a question without a topic never matches. */
  function GetQuestionsByTopic(questions: seq<Question>, topic: string): (r: seq<Question>)
    ensures forall i :: 0 <= i < |r| ==> r[i] in questions && r[i].topic == Some(topic)
    ensures forall i :: 0 <= i < |questions| && questions[i].topic == Some(topic) ==> questions[i] in r
  {
    Filter(questions, (q: Question) => q.topic == Some(topic))
  }

  /** For a non-empty topic, the single-topic filter agrees with the store's
      several-topic filter given that one topic. */
  lemma GetQuestionsByTopicAgrees(questions: seq<Question>, topic: string)
    requires topic != ""
    ensures GetQuestionsByTopic(questions, topic) == QuestionsOnTopics(questions, [topic])
  {
    var p := (q: Question) => q.topic == Some(topic);
    var p' := (q: Question) => HasTopicIn(q, [topic]);
    assert forall q :: p(q) == p'(q);
    FilterSameTest(questions, p, p');
  }

  /** Two tests that agree on every element select the same elements. */
  lemma {:induction false} FilterSameTest<T>(s: seq<T>, p: T -> bool, p': T -> bool)
    requires forall x :: p(x) == p'(x)
    ensures Filter(s, p) == Filter(s, p')
  {
    if s != [] {
      FilterSameTest(s[1..], p, p');
    }
  }

  /** `createQuestion`: the decimal text of one more than the number of
      questions; nothing is stored. */
  function CreateQuestion(questions: seq<Question>): (id: string)
    ensures ParseInt(id) == Int(|questions| + 1)
    ensures AllDigits(id) && id[0] != '0'
  {
    var id := NatToString(|questions| + 1);
    ParseNatToString(|questions| + 1, "");
    assert id + "" == id;
    id
  }

  /** `createScheduledTest`: the decimal text of the clock reading `now`;
      nothing is stored. */
  function CreateScheduledTest(now: nat): (id: string)
    ensures ParseInt(id) == Int(now)
    ensures AllDigits(id)
  {
    var id := NatToString(now);
    ParseNatToString(now, "");
    assert id + "" == id;
    id
  }

  /** `getUserRole(userId)`: the role of the first listed user with that id,
      or `null` when there is none. */
  function GetUserRole(users: seq<User>, userId: string): (r: Option<Role>)
    ensures r.None? <==> forall i :: 0 <= i < |users| ==> users[i].id != userId
    ensures r.Some? ==>
      exists i :: 0 <= i < |users| && users[i].id == userId && r.value == users[i].role
        && forall j :: 0 <= j < i ==> users[j].id != userId
  {
    var listed := GetUsers(users);
    var k := FindIndex(listed, (u: PublicUser) => u.id == userId);
    if k == |listed| then None else Some(listed[k].role)
  }

  /** `updateQuestion`, `deleteQuestion`, `updateScheduledTest` and
      `deleteScheduledTest` only log their arguments: the store is unchanged. */
  method UpdateQuestion(store: Store, id: string, question: Question)
    ensures store.users == old(store.users) && store.testResults == old(store.testResults)
  {
  }

  method DeleteQuestion(store: Store, id: string)
    ensures store.users == old(store.users) && store.testResults == old(store.testResults)
  {
  }

  method UpdateScheduledTest(store: Store, id: string, test: ScheduledTest)
    ensures store.users == old(store.users) && store.testResults == old(store.testResults)
  {
  }

  method DeleteScheduledTest(store: Store, id: string)
    ensures store.users == old(store.users) && store.testResults == old(store.testResults)
  {
  }
}
