/** The students tab (`src/components/admin/StudentsTab.tsx`): a form that
    appends a student to the user list, and deletion by id. The
    administrator's dashboard shares both operations. */
module StudentsTab {
  import opened Js
  import opened Types
  import opened Text
  import opened Seqs

  /** The new-student form. */
  datatype UserDraft = UserDraft(
    username: string,
    password: string,
    name: string,
    email: string)

  /** The form as it starts and as it is reset: every field empty (the role
      is always `student`). */
  const EmptyUserDraft: UserDraft := UserDraft("", "", "", "")

  /** The form may be submitted: user name, password and name given; the
      email is optional. */
  predicate UserDraftComplete(d: UserDraft) {
    d.username != "" && d.password != "" && d.name != ""
  }

  /** The user list and the form after `addUser`. */
  datatype Roster = Roster(users: seq<User>, draft: UserDraft)

  /** `addUser`: an incomplete form leaves list and form unchanged; a
      complete one appends a student with id `length + 1` and resets the form. */
  function AddUser(users: seq<User>, draft: UserDraft): (r: Roster)
    ensures !UserDraftComplete(draft) ==> r == Roster(users, draft)
    ensures UserDraftComplete(draft) ==>
      && |r.users| == |users| + 1
      && r.users[..|users|] == users
      && r.draft == EmptyUserDraft
  {
    if !UserDraftComplete(draft) then Roster(users, draft)
    else
      var user := User(NatToString(|users| + 1), draft.username, draft.password, Student,
                       Some(draft.name), Some(draft.email));
      assert (users + [user])[..|users|] == users;
      Roster(users + [user], EmptyUserDraft)
  }

  /** The appended user is a student carrying the form's fields, and its id
      reads back as the new length of the list. */
  lemma AddedStudent(users: seq<User>, draft: UserDraft)
    requires UserDraftComplete(draft)
    ensures var u := AddUser(users, draft).users[|users|];
      && ParseInt(u.id) == Int(|users| + 1)
      && u.role == Student
      && u.username == draft.username && u.password == draft.password
      && u.name == Some(draft.name) && u.email == Some(draft.email)
  {
    ParseNatToString(|users| + 1, "");
    assert NatToString(|users| + 1) + "" == NatToString(|users| + 1);
  }

  /** The id of an added student is new as long as no earlier id reads as a
      number above the list length; deleting can break that. */
  lemma AddedIdFresh(users: seq<User>, draft: UserDraft)
    requires UserDraftComplete(draft)
    requires forall k :: 0 <= k < |users| ==> ParseInt(users[k].id) != Int(|users| + 1)
    ensures forall k :: 0 <= k < |users| ==> users[k].id != AddUser(users, draft).users[|users|].id
  {
    AddedStudent(users, draft);
  }

  /** `deleteUser`: every user with that id is removed and the others keep
      their order. */
  function DeleteUser(users: seq<User>, id: string): (r: seq<User>)
    ensures forall u :: u in r <==> u in users && u.id != id
    ensures |r| <= |users|
  {
    RemoveUser(users, id)
  }

  /** Deleting a user that was just added with a fresh id gives back the
      list as it was. */
  lemma DeleteUndoesAdd(users: seq<User>, draft: UserDraft)
    requires UserDraftComplete(draft)
    requires forall k :: 0 <= k < |users| ==> users[k].id != NatToString(|users| + 1)
    ensures DeleteUser(AddUser(users, draft).users, NatToString(|users| + 1)) == users
  {
    var id := NatToString(|users| + 1);
    var added := User(id, draft.username, draft.password, Student, Some(draft.name), Some(draft.email));
    assert AddUser(users, draft).users == users + [added];
    RemoveAppendedUser(users, added, id);
  }
}
