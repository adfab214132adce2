/** The review dialog: a signed-in visitor picks one to five stars and
    writes a comment; the review is inserted as pending, so it waits for the
    moderator, under the visitor's name, e-mail user name or 'Anonymous'. */
module AddReview {
  import opened Common
  import opened Text
  import opened Session
  import ReviewModerator

  /** The row the dialog inserts into `reviews`. */
  datatype ReviewInsert = ReviewInsert(
    userId: string,
    userName: string,
    rating: int,
    comment: string,
    status: ReviewModerator.ReviewStatus)

  const SubmitFailed := "Failed to submit review. Please try again."

  /** `user.email?.split('@')[0]`, the part before the first '@'; '' without an e-mail. */
  function LocalPart(email: Option<string>): string
  {
    if email.Some? then Split(email.value, '@')[0] else ""
  }

  /** `user.full_name || user.email?.split('@')[0] || 'Anonymous'`. */
  function AuthorName(user: Profile): (r: string)
    ensures r != ""
    ensures user.fullName.Some? && user.fullName.value != "" ==> r == user.fullName.value
  {
    OrElse(NullableOr(user.fullName, ""), OrElse(LocalPart(user.email), "Anonymous"))
  }

  /** Without a name, an e-mail `local@domain` signs the review as `local`. */
  lemma EmailSignsWithLocalPart(user: Profile, local: string, domain: string)
    requires user.fullName.None? || user.fullName.value == ""
    requires user.email == Some(local + "@" + domain)
    requires local != "" && '@' !in local
    ensures AuthorName(user) == local
  {
    SplitPrefix(local, domain, '@');
    assert local + "@" + domain == local + ['@'] + domain;
  }

  /** Without a name, an e-mail that starts with '@' or no e-mail at all
      leaves the review anonymous. */
  lemma AnonymousWithoutName(user: Profile)
    requires user.fullName.None? || user.fullName.value == ""
    requires user.email.None? || (user.email.value != "" && user.email.value[0] == '@')
    ensures AuthorName(user) == "Anonymous"
  {
    if user.email.Some? {
      var e := user.email.value;
      SplitFirstPiece(e, '@');
      assert e[..1] == ['@'];
      assert '@' !in Split(e, '@')[0];
    }
  }

  /** The name a review is signed with is the profile name, a nonempty
      '@'-free prefix of the e-mail, or 'Anonymous': an author name never
      holds an '@' unless it is the profile's own name. */
  lemma AuthorNameSources(user: Profile)
    ensures var r := AuthorName(user);
      || (user.fullName.Some? && r == user.fullName.value)
      || (user.email.Some? && '@' !in r && |r| <= |user.email.value| && user.email.value[..|r|] == r)
      || r == "Anonymous"
  {
    if user.email.Some? {
      SplitFirstPiece(user.email.value, '@');
    }
  }

  /** `star <= rating`: the stars up to the rating are lit. */
  predicate Lit(star: int, rating: int)
  {
    star <= rating
  }

  class Dialog {
    var rating: int
    var comment: string
    var loading: bool
    var success: bool
    var alert: Option<string>

    /** The star buttons offer only one to five. */
    ghost predicate Valid()
      reads this
    {
      1 <= rating <= 5
    }

    constructor ()
      ensures Valid()
      ensures rating == 5 && comment == "" && !loading && !success && alert.None?
    {
      rating, comment, loading, success, alert := 5, "", false, false, None;
    }

    /** A star button. */
    method SetRating(star: int)
      requires 1 <= star <= 5
      modifies this
      ensures Valid()
      ensures rating == star
      ensures forall s :: 1 <= s <= 5 ==> (Lit(s, rating) <==> s <= star)
      ensures comment == old(comment) && loading == old(loading) && success == old(success) && alert == old(alert)
    {
      rating := star;
    }

    method SetComment(c: string)
      modifies this
      ensures comment == c
      ensures rating == old(rating) && loading == old(loading) && success == old(success) && alert == old(alert)
    {
      comment := c;
    }

    /** `handleSubmit`: returns the insert it issued, if any; `failed` says
        whether that insert raised an error. */
    method HandleSubmit(user: Option<Profile>, failed: bool) returns (w: Option<ReviewInsert>)
      requires Valid()
      modifies this
      ensures Valid()
      ensures user.None? ==> w.None? && success == old(success) && alert == old(alert) && loading == old(loading)
      ensures user.Some? ==> w == Some(ReviewInsert(user.value.id, AuthorName(user.value), rating, comment, ReviewModerator.Pending))
      ensures user.Some? ==> !loading && success == (!failed || old(success))
      ensures user.Some? && failed ==> alert == Some(SubmitFailed)
      ensures user.Some? && !failed ==> alert == old(alert)
      ensures w.Some? ==> 1 <= w.value.rating <= 5 && w.value.status == ReviewModerator.Pending
      ensures rating == old(rating) && comment == old(comment)
    {
      if user.None? {
        return None;
      }
      loading := true;
      w := Some(ReviewInsert(user.value.id, AuthorName(user.value), rating, comment, ReviewModerator.Pending));
      if failed {
        alert := Some(SubmitFailed);
      } else {
        success := true;
      }
      loading := false;
    }

    /** The timer after a success: the dialog resets for the next review. */
    method ResetAfterSuccess()
      modifies this
      ensures Valid()
      ensures !success && comment == "" && rating == 5
      ensures loading == old(loading) && alert == old(alert)
    {
      success, comment, rating := false, "", 5;
    }
  }

  /** The row the insert creates, once the database gives it an id and a
      creation time. */
  function Stored(w: ReviewInsert, id: int, createdAt: string): ReviewModerator.Review
  {
    ReviewModerator.Review(id, w.userName, w.comment, w.rating, w.status, createdAt)
  }

  /** A new review is held for moderation: the moderator's default view
      lists it. */
  lemma NewReviewAwaitsModeration(w: ReviewInsert, id: int, createdAt: string, table: seq<ReviewModerator.Review>)
    requires w.status == ReviewModerator.Pending
    requires Stored(w, id, createdAt) in table
    ensures Stored(w, id, createdAt) in ReviewModerator.Fetched(table, ReviewModerator.DefaultView)
  {
  }
}
