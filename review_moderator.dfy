/** The admin review moderator: a list of reviews shown either all or only
    the pending ones, with approve, reject and delete actions. The list is
    changed locally whatever the database answers. */
module ReviewModerator {
  import opened Common

  datatype ReviewStatus = Pending | Approved | Rejected

  /** A row of `reviews`. */
  datatype Review = Review(id: int, userName: string, comment: string, rating: int, status: ReviewStatus, createdAt: string)

  /** The filter buttons: every review, or only the pending ones. */
  datatype ViewFilter = AllReviews | PendingOnly

  /** The view the moderator opens in. */
  const DefaultView := PendingOnly

  /** The writes the moderator issues. */
  datatype ReviewWrite = SetStatus(id: int, status: ReviewStatus) | Delete(id: int)

  /** The status the fetch restricts the query to in a view. */
  function QueryStatus(view: ViewFilter): (s: Option<ReviewStatus>)
    ensures s.Some? <==> view == PendingOnly
    ensures s.Some? ==> s.value == Pending
  {
    if view == PendingOnly then Some(Pending) else None
  }

  predicate HasStatus(r: Review, s: Option<ReviewStatus>)
  {
    s.None? || r.status == s.value
  }

  /** The rows the fetch returns for a view, from the table in query order. */
  function Fetched(table: seq<Review>, view: ViewFilter): (r: seq<Review>)
    ensures forall x :: x in r <==> x in table && (view == PendingOnly ==> x.status == Pending)
  {
    var s := QueryStatus(view);
    Filter(table, (x: Review) => HasStatus(x, s))
  }

  /** `reviews.map(r => r.id === id ? { ...r, status } : r)`. */
  function WithStatus(reviews: seq<Review>, id: int, status: ReviewStatus): seq<Review>
  {
    seq(|reviews|, i requires 0 <= i < |reviews| =>
      if reviews[i].id == id then reviews[i].(status := status) else reviews[i])
  }

  /** The test `r.id !== id`. */
  function OtherThan(id: int): Review -> bool
  {
    (r: Review) => r.id != id
  }

  /** `filter(r => r.id !== id)`. */
  function Without(reviews: seq<Review>, id: int): (r: seq<Review>)
    ensures forall x :: x in r <==> x in reviews && x.id != id
    ensures |r| <= |reviews|
  {
    Filter(reviews, OtherThan(id))
  }

  /** The list after `updateStatus(id, status)` in a view. */
  function AfterModeration(reviews: seq<Review>, view: ViewFilter, id: int, status: ReviewStatus): seq<Review>
  {
    var m := WithStatus(reviews, id, status);
    if view == PendingOnly then Without(m, id) else m
  }

  /** In the 'all' view a moderated review stays where it was with its new
      status, and every other review is untouched. */
  lemma ModeratedStaysInAllView(reviews: seq<Review>, id: int, status: ReviewStatus)
    ensures |AfterModeration(reviews, AllReviews, id, status)| == |reviews|
    ensures forall i :: 0 <= i < |reviews| && reviews[i].id == id ==>
      AfterModeration(reviews, AllReviews, id, status)[i] == reviews[i].(status := status)
    ensures forall i :: 0 <= i < |reviews| && reviews[i].id != id ==>
      AfterModeration(reviews, AllReviews, id, status)[i] == reviews[i]
  {
  }

  /** In the 'pending' view a moderated review leaves the list, and the list
      is exactly the old one without it: the status change of the dropped
      review is invisible. */
  lemma ModeratedLeavesPendingView(reviews: seq<Review>, id: int, status: ReviewStatus)
    ensures AfterModeration(reviews, PendingOnly, id, status) == Without(reviews, id)
    ensures forall x :: x in AfterModeration(reviews, PendingOnly, id, status) ==> x.id != id
  {
    var m := WithStatus(reviews, id, status);
    FilterAgrees(m, reviews, OtherThan(id));
  }

  /** The approve button is shown unless the review is approved. */
  predicate CanApprove(r: Review) { r.status != Approved }

  /** The reject button is shown unless the review is rejected. */
  predicate CanReject(r: Review) { r.status != Rejected }

  /** Both actions are offered exactly for a pending review; a moderated
      review offers only the opposite decision, and every offered action
      changes the status. */
  lemma OfferedActions(r: Review)
    ensures CanApprove(r) && CanReject(r) <==> r.status == Pending
    ensures r.status == Approved ==> !CanApprove(r) && CanReject(r)
    ensures r.status == Rejected ==> CanApprove(r) && !CanReject(r)
    ensures CanApprove(r) ==> WithStatus([r], r.id, Approved)[0].status != r.status
    ensures CanReject(r) ==> WithStatus([r], r.id, Rejected)[0].status != r.status
  {
  }

  /** Opened in its default view, the moderator fetches only pending reviews. */
  lemma DefaultViewIsPending(table: seq<Review>)
    ensures QueryStatus(DefaultView) == Some(Pending)
    ensures forall x :: x in Fetched(table, DefaultView) ==> x.status == Pending
  {
  }

  class Moderator {
    var reviews: seq<Review>
    var view: ViewFilter
    var loading: bool

    constructor ()
      ensures reviews == [] && view == DefaultView && loading
    {
      reviews, view, loading := [], DefaultView, true;
    }

    /** A filter button; the effect on the view then fetches again. */
    method SetView(v: ViewFilter)
      modifies this
      ensures view == v && reviews == old(reviews) && loading == old(loading)
    {
      view := v;
    }

    /** `fetchReviews` after the query: returned rows replace the list. */
    method ApplyFetch(data: Option<seq<Review>>)
      modifies this
      ensures data.Some? ==> reviews == data.value
      ensures data.None? ==> reviews == old(reviews)
      ensures !loading && view == old(view)
    {
      if data.Some? {
        reviews := data.value;
      }
      loading := false;
    }

    /** `updateStatus`: the write is issued and the list changes regardless
        of its outcome. */
    method UpdateStatus(id: int, status: ReviewStatus) returns (w: ReviewWrite)
      requires status != Pending
      modifies this
      ensures w == SetStatus(id, status)
      ensures reviews == AfterModeration(old(reviews), view, id, status)
      ensures view == old(view) && loading == old(loading)
    {
      w := SetStatus(id, status);
      reviews := WithStatus(reviews, id, status);
      if view == PendingOnly {
        reviews := Without(reviews, id);
      }
    }

    /** `deleteReview`: nothing happens unless the admin confirms. */
    method DeleteReview(id: int, confirmed: bool) returns (w: Option<ReviewWrite>)
      modifies this
      ensures !confirmed ==> w.None? && reviews == old(reviews)
      ensures confirmed ==> w == Some(Delete(id)) && reviews == Without(old(reviews), id)
      ensures view == old(view) && loading == old(loading)
    {
      if !confirmed {
        return None;
      }
      w := Some(Delete(id));
      reviews := Without(reviews, id);
    }
  }
}
