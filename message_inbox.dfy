/** The admin inquiry inbox: contact inquiries with a case-insensitive
    search over name, e-mail and subject, and a two-step delete (record the
    id, then confirm) that changes the list only when the database agrees. */
module MessageInbox {
  import opened Common
  import opened Text

  /** A row of `contact_inquiries`. */
  datatype Inquiry = Inquiry(id: string, name: string, email: string, subject: string, body: string, createdAt: string)

  /** What the inquiries query produced; a success may carry no rows at all. */
  datatype InquiriesFetch = FetchFailed | FetchedRows(rows: Option<seq<Inquiry>>)

  const LoadFailed := "Failed to load messages."
  const DeleteFailed := "Failed to delete message. Please try again."

  /** One field matches when, lower-cased, it includes the lower-cased term. */
  predicate FieldMatches(field: string, term: string)
  {
    Contains(ToLower(field), ToLower(term))
  }

  predicate Matches(m: Inquiry, term: string)
  {
    FieldMatches(m.name, term) || FieldMatches(m.email, term) || FieldMatches(m.subject, term)
  }

  /** `filteredMessages`. */
  function Filtered(messages: seq<Inquiry>, term: string): (r: seq<Inquiry>)
    ensures forall m :: m in r <==> m in messages && Matches(m, term)
    ensures |r| <= |messages|
  {
    Filter(messages, (m: Inquiry) => Matches(m, term))
  }

  /** An empty term keeps every inquiry, in order. */
  lemma EmptyTermKeepsAll(messages: seq<Inquiry>)
    ensures Filtered(messages, "") == messages
  {
    forall i | 0 <= i < |messages| ensures Matches(messages[i], "") {
      ContainsEmpty(ToLower(messages[i].name));
    }
    FilterKeepsAll(messages, (m: Inquiry) => Matches(m, ""));
  }

  /** Search ignores letter case in the term. */
  lemma SearchIgnoresCase(messages: seq<Inquiry>, a: string, b: string)
    requires ToLower(a) == ToLower(b)
    ensures forall m :: m in Filtered(messages, a) <==> m in Filtered(messages, b)
  {
  }

  /** Searching keeps each listed inquiry as often as it occurred, or not at all. */
  lemma SearchKeepsOccurrences(messages: seq<Inquiry>, term: string)
    ensures var r := Filtered(messages, term);
      forall m :: multiset(r)[m] == if Matches(m, term) then multiset(messages)[m] else 0
  {
    FilterCounts(messages, (m: Inquiry) => Matches(m, term));
  }

  /** `messages.filter(msg => msg.id !== id)`. */
  function Without(messages: seq<Inquiry>, id: string): (r: seq<Inquiry>)
    ensures forall x :: x in r <==> x in messages && x.id != id
    ensures |r| <= |messages|
  {
    Filter(messages, (m: Inquiry) => m.id != id)
  }

  /** `if (!itemToDelete)`: no id, or the empty id, means nothing to delete. */
  predicate HasRecordedDelete(itemToDelete: Option<string>)
  {
    itemToDelete.Some? && itemToDelete.value != ""
  }

  class Inbox {
    var messages: seq<Inquiry>
    var loading: bool
    var searchTerm: string
    var deletingId: Option<string>
    var itemToDelete: Option<string>
    var errorMsg: Option<string>

    constructor ()
      ensures messages == [] && loading && searchTerm == ""
      ensures deletingId.None? && itemToDelete.None? && errorMsg.None?
    {
      messages, loading, searchTerm := [], true, "";
      deletingId, itemToDelete, errorMsg := None, None, None;
    }

    /** `fetchMessages` after the query. */
    method ApplyFetch(r: InquiriesFetch)
      modifies this
      ensures r.FetchFailed? ==> messages == old(messages) && errorMsg == Some(LoadFailed)
      ensures r.FetchedRows? && r.rows.Some? ==> messages == r.rows.value && errorMsg == old(errorMsg)
      ensures r.FetchedRows? && r.rows.None? ==> messages == [] && errorMsg == old(errorMsg)
      ensures !loading && searchTerm == old(searchTerm)
      ensures deletingId == old(deletingId) && itemToDelete == old(itemToDelete)
    {
      match r {
        case FetchFailed => errorMsg := Some(LoadFailed);
        case FetchedRows(rows) => messages := if rows.Some? then rows.value else [];
      }
      loading := false;
    }

    method SetSearchTerm(t: string)
      modifies this
      ensures searchTerm == t && messages == old(messages) && loading == old(loading)
      ensures deletingId == old(deletingId) && itemToDelete == old(itemToDelete) && errorMsg == old(errorMsg)
    {
      searchTerm := t;
    }

    /** The error dialog's close button. */
    method DismissError()
      modifies this
      ensures errorMsg.None?
      ensures messages == old(messages) && loading == old(loading) && searchTerm == old(searchTerm)
      ensures deletingId == old(deletingId) && itemToDelete == old(itemToDelete)
    {
      errorMsg := None;
    }

    /** `confirmDelete` only records which inquiry the dialog is about. */
    method ConfirmDelete(id: string)
      modifies this
      ensures itemToDelete == Some(id)
      ensures messages == old(messages) && loading == old(loading) && searchTerm == old(searchTerm)
      ensures deletingId == old(deletingId) && errorMsg == old(errorMsg)
    {
      itemToDelete := Some(id);
    }

    /** The dialog's cancel button. */
    method CancelDelete()
      modifies this
      ensures itemToDelete.None?
      ensures messages == old(messages) && loading == old(loading) && searchTerm == old(searchTerm)
      ensures deletingId == old(deletingId) && errorMsg == old(errorMsg)
    {
      itemToDelete := None;
    }

    /** `handleDelete`: returns the id whose delete was issued, if any;
        `failed` says whether that delete returned an error. */
    method HandleDelete(failed: bool) returns (issued: Option<string>)
      modifies this
      ensures !HasRecordedDelete(old(itemToDelete)) ==>
        issued.None? && messages == old(messages) && errorMsg == old(errorMsg) &&
        deletingId == old(deletingId) && itemToDelete == old(itemToDelete)
      ensures HasRecordedDelete(old(itemToDelete)) ==>
        issued == old(itemToDelete) && deletingId.None? && itemToDelete.None?
      ensures HasRecordedDelete(old(itemToDelete)) && !failed ==>
        messages == Without(old(messages), old(itemToDelete).value) && errorMsg == old(errorMsg)
      ensures HasRecordedDelete(old(itemToDelete)) && failed ==>
        messages == old(messages) && errorMsg == Some(DeleteFailed)
      ensures loading == old(loading) && searchTerm == old(searchTerm)
    {
      if !HasRecordedDelete(itemToDelete) {
        return None;
      }
      var id := itemToDelete.value;
      deletingId := Some(id);
      issued := Some(id);
      if failed {
        errorMsg := Some(DeleteFailed);
      } else {
        messages := Without(messages, id);
      }
      deletingId := None;
      itemToDelete := None;
    }
  }
}
