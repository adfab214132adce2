/** The checkout coupon form: the code the customer typed is normalised,
    looked up, and run through a fixed chain of checks whose first failure
    is reported; success reports the coupon's discount. Validation writes
    nothing: no coupon and no usage counter is changed here. */
module CouponApply {
  import opened Common
  import opened Coupons
  import opened Session

  /** The rejection reasons, in the order the checks run. */
  datatype Rejection =
    | InvalidCode
    | Expired
    | UsageLimitReached
    | LoginRequired
    | NotValidForAccount
    | StorageFailure(message: string)   // the query's own error, or an exception

  function RejectionMessage(r: Rejection): string
  {
    match r
    case InvalidCode => "Invalid coupon code."
    case Expired => "This coupon has expired."
    case UsageLimitReached => "This coupon has reached its usage limit."
    case LoginRequired => "You must be logged in to use this coupon."
    case NotValidForAccount => "This coupon is not valid for your account."
    case StorageFailure(m) => OrElse(m, "Failed to apply coupon.")
  }

  datatype Verdict = Applied(discount: int) | Rejected(reason: Rejection)

  /** What the `coupons` query for the normalised code returned: an error, or
      some matching row or none (`limit(1)` picks an unspecified one). */
  datatype Lookup = QueryError(message: string) | Rows(first: Option<Coupon>)

  /** The declarative eligibility rule: live, not used up, and either public
      or targeted at exactly the signed-in user. */
  predicate Eligible(c: Coupon, now: int, user: Option<Profile>)
  {
    && !IsExpired(c.expiry, now)
    && !IsSoldOut(c)
    && (c.isPublic || (user.Some? && c.specificUserId == Some(user.value.id)))
  }

  /** The guard chain of `handleApply`, first failure wins. */
  function Evaluate(coupon: Option<Coupon>, now: int, user: Option<Profile>): (v: Verdict)
    ensures v.Applied? <==> coupon.Some? && Eligible(coupon.value, now, user)
    ensures v.Applied? ==> v.discount == coupon.value.discountAmount
    ensures v == Rejected(InvalidCode) <==> coupon.None?
    ensures v.Rejected? ==> !v.reason.StorageFailure?
  {
    if coupon.None? then Rejected(InvalidCode)
    else
      var c := coupon.value;
      if IsExpired(c.expiry, now) then Rejected(Expired)
      else if IsSoldOut(c) then Rejected(UsageLimitReached)
      else if !c.isPublic && user.None? then Rejected(LoginRequired)
      else if !c.isPublic && c.specificUserId != Some(user.value.id) then Rejected(NotValidForAccount)
      else Applied(c.discountAmount)
  }

  /** The code sent to the query: none for an empty input (nothing happens),
      otherwise the normalised code. */
  function LookupKey(code: string): (k: Option<string>)
    ensures k.None? <==> code == ""
    ensures k.Some? ==> k.value == Normalize(code)
  {
    if code == "" then None else Some(Normalize(code))
  }

  /** The result modal. */
  datatype Modal = SuccessModal(discount: int) | ErrorModal(message: string)

  function ModalFor(lookup: Lookup, now: int, user: Option<Profile>): Modal
  {
    match lookup
    case QueryError(m) => ErrorModal(RejectionMessage(StorageFailure(m)))
    case Rows(first) =>
      match Evaluate(first, now, user)
      case Applied(d) => SuccessModal(d)
      case Rejected(r) => ErrorModal(RejectionMessage(r))
  }

  /** A lookup result that the `coupons` table `table` could have produced for `key`. */
  predicate AgreesWith(lookup: Lookup, table: seq<Coupon>, key: string)
  {
    lookup.Rows? ==>
      (lookup.first.Some? ==> lookup.first.value in table && lookup.first.value.code == key) &&
      (lookup.first.None? ==> forall c :: c in table ==> c.code != key)
  }

  class CouponForm {
    var code: string
    var loading: bool
    var modal: Option<Modal>

    constructor ()
      ensures code == "" && !loading && modal == None
    {
      code, loading, modal := "", false, None;
    }

    method SetCode(v: string)
      modifies this
      ensures code == v && loading == old(loading) && modal == old(modal)
    {
      code := v;
    }

    /** `handleApply`: returns the key the coupon query is issued for, none
        for an empty code; `lookup` is what that query returned. */
    method HandleApply(lookup: Lookup, now: int, user: Option<Profile>) returns (key: Option<string>)
      modifies this
      ensures key == LookupKey(old(code))
      ensures key.Some? ==> key.value == Normalize(old(code))
      ensures code == old(code)
      ensures old(code) == "" ==> loading == old(loading) && modal == old(modal)
      ensures old(code) != "" ==> !loading && modal == Some(ModalFor(lookup, now, user))
    {
      if code == "" {
        return None;
      }
      loading := true;
      key := Some(Normalize(code));
      modal := Some(ModalFor(lookup, now, user));
      loading := false;
    }

    method CloseModal()
      modifies this
      ensures modal == None && code == old(code) && loading == old(loading)
    {
      modal := None;
    }
  }

  /** An expired coupon is rejected as expired, whatever the usage and the user. */
  lemma ExpiredFirst(c: Coupon, now: int, user: Option<Profile>)
    requires IsExpired(c.expiry, now)
    ensures Evaluate(Some(c), now, user) == Rejected(Expired)
  {
  }

  /** The usage limit is checked only once expiry has passed, and before identity. */
  lemma LimitAfterExpiry(c: Coupon, now: int, user: Option<Profile>)
    requires !IsExpired(c.expiry, now) && IsSoldOut(c)
    ensures Evaluate(Some(c), now, user) == Rejected(UsageLimitReached)
  {
  }

  /** A live targeted coupon needs a signed-in user, and then exactly its own. */
  lemma TargetedIdentity(c: Coupon, now: int, user: Option<Profile>)
    requires !IsExpired(c.expiry, now) && !IsSoldOut(c) && !c.isPublic
    ensures user.None? ==> Evaluate(Some(c), now, user) == Rejected(LoginRequired)
    ensures user.Some? && c.specificUserId != Some(user.value.id) ==>
              Evaluate(Some(c), now, user) == Rejected(NotValidForAccount)
    ensures user.Some? && c.specificUserId == Some(user.value.id) ==>
              Evaluate(Some(c), now, user) == Applied(c.discountAmount)
  {
  }

  /** A public coupon's verdict does not depend on who asks. */
  lemma PublicIgnoresIdentity(c: Coupon, now: int, u1: Option<Profile>, u2: Option<Profile>)
    requires c.isPublic
    ensures Evaluate(Some(c), now, u1) == Evaluate(Some(c), now, u2)
  {
  }

  /** Lower-case input with surrounding spaces finds the stored upper-case code. */
  lemma SpacedLowerCaseFindsCode(table: seq<Coupon>, c: Coupon, lookup: Lookup)
    requires c in table && c.code == "SUMMER20"
    requires AgreesWith(lookup, table, LookupKey("  summer20 ").value)
    ensures LookupKey("  summer20 ") == Some("SUMMER20")
    ensures lookup.Rows? ==> lookup.first.Some? && lookup.first.value.code == "SUMMER20"
  {
    NormalizeSummer();
  }

  lemma NormalizeSummer()
    ensures Normalize("  summer20 ") == "SUMMER20"
  {
    var u := Text.ToUpper("  summer20 ");
    assert u == "  SUMMER20 " by {
      assert |u| == 11;
      forall i | 0 <= i < 11 ensures u[i] == "  SUMMER20 "[i] {
      }
    }
    assert u == "  " + "SUMMER20" + " ";
    Text.TrimPadded("  ", "SUMMER20", " ");
  }

  /** A storage error is shown as its own message, or as the fallback when it has none. */
  lemma StorageErrorMessage(m: string, now: int, user: Option<Profile>)
    ensures m != "" ==> ModalFor(QueryError(m), now, user) == ErrorModal(m)
    ensures m == "" ==> ModalFor(QueryError(m), now, user) == ErrorModal("Failed to apply coupon.")
  {
  }
}
