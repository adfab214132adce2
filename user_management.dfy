/** The admin user list: profiles searched by name, e-mail or id, edited in
    a dialog and deleted after confirmation. The list changes only when the
    database write succeeds. */
module UserManagement {
  import opened Common
  import opened Text
  import opened Session

  /** `(value?.toLowerCase() || '')`: a null field searches as ''. */
  function LowerOrEmpty(v: Option<string>): (r: string)
    ensures v.None? ==> r == ""
    ensures v.Some? ==> r == ToLower(v.value)
  {
    if v.Some? then ToLower(v.value) else ""
  }

  /** `filteredUsers`: name and e-mail match case-insensitively, the id
      matches exactly as typed. */
  predicate Matches(u: Profile, term: string)
  {
    || Contains(LowerOrEmpty(u.fullName), ToLower(term))
    || Contains(LowerOrEmpty(u.email), ToLower(term))
    || Contains(u.id, term)
  }

  function Filtered(users: seq<Profile>, term: string): (r: seq<Profile>)
    ensures forall u :: u in r <==> u in users && Matches(u, term)
    ensures |r| <= |users|
  {
    Filter(users, (u: Profile) => Matches(u, term))
  }

  /** An empty term keeps every user, in order. */
  lemma EmptyTermKeepsAll(users: seq<Profile>)
    ensures Filtered(users, "") == users
  {
    forall i | 0 <= i < |users| ensures Matches(users[i], "") {
      ContainsEmpty(users[i].id);
    }
    FilterKeepsAll(users, (u: Profile) => Matches(u, ""));
  }

  /** A user without name and e-mail is found only through its id. */
  lemma NullFieldsSearchAsEmpty(u: Profile, term: string)
    requires u.fullName.None? && u.email.None? && term != ""
    ensures Matches(u, term) <==> Contains(u.id, term)
  {
    assert !Contains("", ToLower(term));
  }

  /** The id part of the search is case-sensitive: a user with id "abc" and
      no name or e-mail is found by "a" but not by "A". */
  lemma IdMatchIsCaseSensitive()
    ensures Matches(Profile("abc", None, Member, None), "a")
    ensures !Matches(Profile("abc", None, Member, None), "A")
  {
    var id := "abc";
    assert StartsWith(id, "a");
    MissingCharNotContained(id, "A", 0);
    assert !Contains("", "a");
  }

  /** `users.map(u => u.id === edited.id ? edited : u)`. */
  function Replaced(users: seq<Profile>, edited: Profile): (r: seq<Profile>)
  {
    seq(|users|, i requires 0 <= i < |users| => if users[i].id == edited.id then edited else users[i])
  }

  /** A replacement puts the edited profile exactly where its id was and
      keeps every other user; replacing again changes nothing. */
  lemma ReplaceFrame(users: seq<Profile>, edited: Profile)
    ensures |Replaced(users, edited)| == |users|
    ensures forall i :: 0 <= i < |users| && users[i].id == edited.id ==> Replaced(users, edited)[i] == edited
    ensures forall i :: 0 <= i < |users| && users[i].id != edited.id ==> Replaced(users, edited)[i] == users[i]
    ensures Replaced(Replaced(users, edited), edited) == Replaced(users, edited)
  {
  }

  /** `users.filter(u => u.id !== id)`. */
  function Without(users: seq<Profile>, id: string): (r: seq<Profile>)
    ensures forall x :: x in r <==> x in users && x.id != id
    ensures |r| <= |users|
  {
    Filter(users, (u: Profile) => u.id != id)
  }

  /** The profile update `handleUpdateUser` sends for `id`. */
  datatype ProfileUpdate = ProfileUpdate(id: string, fullName: Option<string>, role: Role, email: Option<string>)

  class Users {
    var users: seq<Profile>
    var loading: bool
    var searchTerm: string
    var editingUser: Option<Profile>
    var deletingUser: Option<Profile>
    var feedback: Option<Feedback>

    constructor ()
      ensures users == [] && loading && searchTerm == ""
      ensures editingUser.None? && deletingUser.None? && feedback.None?
    {
      users, loading, searchTerm := [], true, "";
      editingUser, deletingUser, feedback := None, None, None;
    }

    /** `fetchUsers` after the query: rows replace the list only without error. */
    method ApplyFetch(rows: Option<seq<Profile>>)
      modifies this
      ensures rows.Some? ==> users == rows.value
      ensures rows.None? ==> users == old(users)
      ensures !loading && searchTerm == old(searchTerm) && feedback == old(feedback)
      ensures editingUser == old(editingUser) && deletingUser == old(deletingUser)
    {
      if rows.Some? {
        users := rows.value;
      }
      loading := false;
    }

    /** The search box. */
    method SetSearchTerm(t: string)
      modifies this
      ensures searchTerm == t && users == old(users) && loading == old(loading)
      ensures editingUser == old(editingUser) && deletingUser == old(deletingUser) && feedback == old(feedback)
    {
      searchTerm := t;
    }

    /** The feedback dialog's close control. */
    method CloseFeedback()
      modifies this
      ensures feedback.None?
      ensures users == old(users) && loading == old(loading) && searchTerm == old(searchTerm)
      ensures editingUser == old(editingUser) && deletingUser == old(deletingUser)
    {
      feedback := None;
    }

    /** Opening the editor, and every edit inside it, sets the edited copy. */
    method Edit(u: Option<Profile>)
      modifies this
      ensures editingUser == u
      ensures users == old(users) && loading == old(loading) && searchTerm == old(searchTerm)
      ensures deletingUser == old(deletingUser) && feedback == old(feedback)
    {
      editingUser := u;
    }

    /** Opening, or cancelling, the delete confirmation. */
    method AskDelete(u: Option<Profile>)
      modifies this
      ensures deletingUser == u
      ensures users == old(users) && loading == old(loading) && searchTerm == old(searchTerm)
      ensures editingUser == old(editingUser) && feedback == old(feedback)
    {
      deletingUser := u;
    }

    /** `handleUpdateUser`: returns the update it issued, if any;
        `writeError` is what that update returned. */
    method HandleUpdateUser(writeError: Option<string>) returns (w: Option<ProfileUpdate>)
      modifies this
      ensures old(editingUser).None? ==>
        w.None? && users == old(users) && editingUser == old(editingUser) && feedback == old(feedback)
      ensures old(editingUser).Some? ==> w == Some(ProfileUpdate(old(editingUser).value.id,
        old(editingUser).value.fullName, old(editingUser).value.role, old(editingUser).value.email))
      ensures old(editingUser).Some? && writeError.None? ==>
        users == Replaced(old(users), old(editingUser).value) && editingUser.None? &&
        feedback == Some(SuccessNote("User profile updated."))
      ensures old(editingUser).Some? && writeError.Some? ==>
        users == old(users) && editingUser == old(editingUser) && feedback == Some(ErrorNote(writeError.value))
      ensures loading == old(loading) && searchTerm == old(searchTerm) && deletingUser == old(deletingUser)
    {
      if editingUser.None? {
        return None;
      }
      var e := editingUser.value;
      w := Some(ProfileUpdate(e.id, e.fullName, e.role, e.email));
      if writeError.Some? {
        feedback := Some(ErrorNote(writeError.value));
      } else {
        users := Replaced(users, e);
        editingUser := None;
        feedback := Some(SuccessNote("User profile updated."));
      }
    }

    /** `confirmDelete`: returns the id whose delete was issued, if any;
        `writeError` is what that delete returned. */
    method ConfirmDelete(writeError: Option<string>) returns (issued: Option<string>)
      modifies this
      ensures old(deletingUser).None? ==>
        issued.None? && users == old(users) && deletingUser.None? && feedback == old(feedback)
      ensures old(deletingUser).Some? ==> issued == Some(old(deletingUser).value.id) && deletingUser.None?
      ensures old(deletingUser).Some? && writeError.None? ==>
        users == Without(old(users), old(deletingUser).value.id) &&
        feedback == Some(SuccessNote("User permanently deleted."))
      ensures old(deletingUser).Some? && writeError.Some? ==>
        users == old(users) && feedback == Some(ErrorNote("Failed to delete user: " + writeError.value))
      ensures loading == old(loading) && searchTerm == old(searchTerm) && editingUser == old(editingUser)
    {
      if deletingUser.None? {
        return None;
      }
      var id := deletingUser.value.id;
      issued := Some(id);
      if writeError.Some? {
        feedback := Some(ErrorNote("Failed to delete user: " + writeError.value));
      } else {
        users := Without(users, id);
        feedback := Some(SuccessNote("User permanently deleted."));
      }
      deletingUser := None;
    }
  }
}
