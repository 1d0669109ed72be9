/** The new-topic dialog (`src/components/admin/questions/AddTopicDialog.tsx`):
    the typed name is trimmed, refused when nothing is left or when the
    topic list already holds it, and otherwise handed to the tab's callback
    once, after which the input is cleared and the dialog closed. */
module AddTopicDialog {
  import opened Js
  import opened Text
  import QuestionsTab

  /** The dialog's own state: the typed name and whether it is open. */
  datatype DialogState = DialogState(name: string, open: bool)

  /** What pressing "Add" leads to. */
  datatype Decision = Blank | Duplicate | Accept(topic: string)

  /** The checks of `handleAddNewTopic`, in order. */
  function Decide(name: string, topics: seq<string>): (r: Decision)
    ensures r.Blank? <==> Trim(name) == ""
    ensures r.Duplicate? <==> Trim(name) != "" && Trim(name) in topics
    ensures r.Accept? ==> r.topic == Trim(name)
  {
    var topic := Trim(name);
    if topic == "" then Blank
    else if topic in topics then Duplicate
    else Accept(topic)
  }

  /** A name made only of white space is refused. */
  lemma WhitespaceNameRefused(name: string, topics: seq<string>)
    requires forall i :: 0 <= i < |name| ==> IsWhitespace(name[i])
    ensures Decide(name, topics) == Blank
  {
    TrimFacts(name);
  }

  /** An accepted topic is non-empty, new, and neither starts nor ends
      with white space. */
  lemma AcceptedTopicClean(name: string, topics: seq<string>)
    requires Decide(name, topics).Accept?
    ensures var t := Decide(name, topics).topic;
      && t != "" && t !in topics
      && !IsWhitespace(t[0]) && !IsWhitespace(t[|t| - 1])
  {
    TrimFacts(name);
  }

  /** The state after pressing "Add", with the topic passed to the callback
      (if any): accepted names clear the input and close the dialog, refused
      ones leave the dialog as it was. */
  datatype Submission = Submission(state: DialogState, passed: Option<string>)

  function Submit(state: DialogState, topics: seq<string>): (r: Submission)
    ensures r.passed.None? ==> r.state == state
    ensures r.passed.Some? ==> r.state == DialogState("", false)
    ensures r.passed.Some? <==> Decide(state.name, topics).Accept?
    ensures r.passed.Some? ==> r.passed.value == Trim(state.name)
  {
    match Decide(state.name, topics)
    case Accept(topic) => Submission(DialogState("", false), Some(topic))
    case _ => Submission(state, None)
  }

  /** The dialog together with the questions tab's callback: an accepted
      name grows the topic list by exactly one element, which is non-empty
      and was absent before; a refused one leaves the list unchanged. */
  lemma DialogGrowsTopicsByOne(state: DialogState, topics: seq<string>)
    ensures var s := Submit(state, topics);
      var after := if s.passed.Some? then QuestionsTab.AddNewTopic(topics, s.passed.value) else topics;
      && (s.passed.Some? ==>
            |after| == |topics| + 1 && after[..|topics|] == topics
            && after[|topics|] != "" && after[|topics|] !in topics)
      && (s.passed.None? ==> after == topics)
  {
    if Submit(state, topics).passed.Some? {
      AcceptedTopicClean(state.name, topics);
    }
  }
}
