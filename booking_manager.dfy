/** The admin booking manager: consultation bookings, confirmed one at a
    time and deleted after a confirmation dialog. Unlike the review
    moderator, the list changes only when the database write succeeds. */
module BookingManager {
  import opened Common

  datatype BookingStatus = Pending | Confirmed | Completed

  /** A row of `bookings`. */
  datatype Booking = Booking(
    id: string,
    userId: string,
    fullName: string,
    email: string,
    phone: string,
    preferredDate: string,
    projectType: string,
    message: string,
    status: BookingStatus,
    createdAt: string)

  /** What the bookings query produced. */
  datatype BookingsFetch = FetchFailed | FetchedRows(rows: seq<Booking>)

  /** The status as stored and shown. */
  function StatusName(s: BookingStatus): string
  {
    match s
    case Pending => "pending"
    case Confirmed => "confirmed"
    case Completed => "completed"
  }

  /** The success note after a status change. */
  function MarkedNote(s: BookingStatus): string
  {
    "Booking marked as " + StatusName(s)
  }

  /** `prev.map(b => b.id === id ? { ...b, status } : b)`. */
  function WithStatus(bookings: seq<Booking>, id: string, status: BookingStatus): seq<Booking>
  {
    seq(|bookings|, i requires 0 <= i < |bookings| =>
      if bookings[i].id == id then bookings[i].(status := status) else bookings[i])
  }

  /** `prev.filter(b => b.id !== id)`. */
  function Without(bookings: seq<Booking>, id: string): (r: seq<Booking>)
    ensures forall x :: x in r <==> x in bookings && x.id != id
    ensures |r| <= |bookings|
  {
    Filter(bookings, (b: Booking) => b.id != id)
  }

  /** A status change touches only the bookings with that id, and only their status. */
  lemma StatusChangeFrame(bookings: seq<Booking>, id: string, status: BookingStatus)
    ensures |WithStatus(bookings, id, status)| == |bookings|
    ensures forall i :: 0 <= i < |bookings| && bookings[i].id == id ==>
      WithStatus(bookings, id, status)[i] == bookings[i].(status := status)
    ensures forall i :: 0 <= i < |bookings| && bookings[i].id != id ==>
      WithStatus(bookings, id, status)[i] == bookings[i]
  {
  }

  /** The confirm button is shown only for a pending booking. */
  predicate CanConfirm(b: Booking) { b.status == Pending }

  /** The only status change the screen offers is pending to confirmed: a
      booking that can be confirmed is pending, and confirming it leaves it
      confirmed and otherwise the same. */
  lemma OnlyPendingToConfirmed(b: Booking)
    requires CanConfirm(b)
    ensures WithStatus([b], b.id, Confirmed) == [b.(status := Confirmed)]
    ensures !CanConfirm(b.(status := Confirmed))
  {
  }

  /** `if (!deletingId)`: no id, or the empty id, means nothing to delete. */
  predicate HasPendingDelete(deletingId: Option<string>)
  {
    deletingId.Some? && deletingId.value != ""
  }

  class Manager {
    var bookings: seq<Booking>
    var loading: bool
    /** The booking awaiting delete confirmation. */
    var deletingId: Option<string>
    /** The feedback modal's content while it is open. */
    var feedback: Option<Feedback>

    constructor ()
      ensures bookings == [] && loading && deletingId.None? && feedback.None?
    {
      bookings, loading, deletingId, feedback := [], true, None, None;
    }

    /** `fetchBookings` after the query. */
    method ApplyFetch(r: BookingsFetch)
      modifies this
      ensures r.FetchedRows? ==> bookings == r.rows && feedback == old(feedback)
      ensures r.FetchFailed? ==> bookings == old(bookings) && feedback == Some(ErrorNote("Failed to load bookings"))
      ensures !loading && deletingId == old(deletingId)
    {
      match r {
        case FetchedRows(rows) => bookings := rows;
        case FetchFailed => feedback := Some(ErrorNote("Failed to load bookings"));
      }
      loading := false;
    }

    /** `updateStatus`: `writeError` is what the update returned. */
    method UpdateStatus(id: string, status: BookingStatus, writeError: Option<string>)
      requires status != Pending
      modifies this
      ensures writeError.None? ==> bookings == WithStatus(old(bookings), id, status)
      ensures writeError.None? ==> feedback == Some(SuccessNote(MarkedNote(status)))
      ensures writeError.Some? ==> bookings == old(bookings) && feedback == Some(ErrorNote(writeError.value))
      ensures loading == old(loading) && deletingId == old(deletingId)
    {
      if writeError.Some? {
        feedback := Some(ErrorNote(writeError.value));
      } else {
        bookings := WithStatus(bookings, id, status);
        feedback := Some(SuccessNote(MarkedNote(status)));
      }
    }

    /** The delete button of a row opens the confirmation for it. */
    method AskDelete(id: string)
      modifies this
      ensures deletingId == Some(id)
      ensures bookings == old(bookings) && loading == old(loading) && feedback == old(feedback)
    {
      deletingId := Some(id);
    }

    /** The confirmation's Cancel button and its close control. */
    method CancelDelete()
      modifies this
      ensures deletingId.None?
      ensures bookings == old(bookings) && loading == old(loading) && feedback == old(feedback)
    {
      deletingId := None;
    }

    method CloseFeedback()
      modifies this
      ensures feedback.None?
      ensures bookings == old(bookings) && loading == old(loading) && deletingId == old(deletingId)
    {
      feedback := None;
    }

    /** `deleteBooking`: returns the id whose delete was issued, if any;
        `writeError` is what that delete returned. */
    method DeleteBooking(writeError: Option<string>) returns (issued: Option<string>)
      modifies this
      ensures !HasPendingDelete(old(deletingId)) ==>
        issued.None? && bookings == old(bookings) && feedback == old(feedback) && deletingId == old(deletingId)
      ensures HasPendingDelete(old(deletingId)) ==> issued == old(deletingId) && deletingId.None?
      ensures HasPendingDelete(old(deletingId)) && writeError.None? ==>
        bookings == Without(old(bookings), old(deletingId).value) && feedback == Some(SuccessNote("Booking record removed."))
      ensures HasPendingDelete(old(deletingId)) && writeError.Some? ==>
        bookings == old(bookings) && feedback == Some(ErrorNote(writeError.value))
      ensures loading == old(loading)
    {
      if !HasPendingDelete(deletingId) {
        return None;
      }
      var id := deletingId.value;
      issued := Some(id);
      if writeError.Some? {
        feedback := Some(ErrorNote(writeError.value));
      } else {
        bookings := Without(bookings, id);
        feedback := Some(SuccessNote("Booking record removed."));
      }
      deletingId := None;
    }
  }
}
