/** The admin coupon manager: an authoring form whose submit builds the row
    to insert or the fields to update, and the list of coupons it shows.
    Instants are milliseconds since the epoch; the date input holds a
    calendar day, numbered from 1970-01-01; the browser's time-zone offset
    `tz` (milliseconds east of UTC, daylight saving left out) is an input. */
module CouponManager {
  import opened Common
  import opened Coupons
  import opened Text
  import opened Session
  import CouponApply

  const DayMs: int := 86_400_000
  /** 23:59:59 into a day. */
  const EndOfDayMs: int := 86_399_000

  /** `new Date(day + 'T23:59:59')`: a date-time without offset is local time. */
  function EndOfDay(day: int, tz: int): int
  {
    day * DayMs + EndOfDayMs - tz
  }

  /** `new Date(instant).toISOString().split('T')[0]`: the UTC calendar day,
      which is what `handleEdit` puts back into the date input. */
  function UtcDay(instant: int): int
  {
    instant / DayMs
  }

  /** The local calendar day of an instant: the day the date input means. */
  function LocalDay(instant: int, tz: int): int
  {
    (instant + tz) / DayMs
  }

  /** Reading back the local end of a day as a local day gives that day. */
  lemma LocalDayOfEndOfDay(day: int, tz: int)
    ensures LocalDay(EndOfDay(day, tz), tz) == day
  {
    assert EndOfDay(day, tz) + tz == day * DayMs + EndOfDayMs;
  }

  /** As written, in every zone west of UTC, the UTC day of a stored local
      end-of-day is the next day, so editing a coupon and saving without
      touching the date moves its expiry one day later. */
  lemma UtcDayShiftsWest(day: int, tz: int)
    requires -43_200_000 <= tz <= -1000
    ensures UtcDay(EndOfDay(day, tz)) == day + 1
    ensures EndOfDay(UtcDay(EndOfDay(day, tz)), tz) == EndOfDay(day, tz) + DayMs
  {
    assert EndOfDay(day, tz) == (day + 1) * DayMs + (EndOfDayMs - DayMs - tz);
  }

  /** The concrete case: UTC-5, the coupon saved to expire at the end of
      1970-01-01 comes back from an edit with 1970-01-02. */
  lemma UtcDayShiftExample()
    ensures EndOfDay(UtcDay(EndOfDay(0, -18_000_000)), -18_000_000) != EndOfDay(0, -18_000_000)
  {
    UtcDayShiftsWest(0, -18_000_000);
  }

  /** The form state of the manager. */
  datatype CouponForm = CouponForm(
    editingId: Option<int>,
    code: string,
    discount: int,
    isPublic: bool,
    selectedUser: string,
    expiryDay: Option<int>,
    usageLimit: int)

  /** The form `cancelEdit` restores. */
  const DefaultForm: CouponForm := CouponForm(None, "", 10, true, "", None, 100)

  /** The fields `handleSubmit` writes; `used_count` is not among them. */
  datatype CouponPayload = CouponPayload(
    code: string,
    discountAmount: int,
    isPublic: bool,
    specificUserId: Option<string>,
    expiry: Option<int>,
    usageLimit: int)

  datatype CouponWrite = Insert(payload: CouponPayload, usedCount: int) | Update(id: int, payload: CouponPayload)

  /** `if (editingId)`: an id of 0 is falsy and would insert. */
  predicate IsEditing(f: CouponForm)
  {
    f.editingId.Some? && f.editingId.value != 0
  }

  const MissingUserNote := "Please select a user for private coupons."

  /** The success note after a save: an update when a coupon was being edited. */
  function SavedNote(editing: bool): string
  {
    if editing then "Coupon updated successfully." else "Coupon created successfully."
  }

  /** `!isPublic && !selectedUser`: a non-public coupon needs a chosen user. */
  predicate MissingTarget(f: CouponForm)
  {
    !f.isPublic && f.selectedUser == ""
  }

  function PayloadOf(f: CouponForm, tz: int): (p: CouponPayload)
    ensures p.code == Normalize(f.code)
    ensures p.specificUserId.None? <==> f.isPublic
    ensures !f.isPublic ==> p.specificUserId == Some(f.selectedUser)
    ensures p.expiry.None? <==> f.expiryDay.None?
    ensures f.expiryDay.Some? ==> p.expiry == Some(EndOfDay(f.expiryDay.value, tz))
    ensures p.discountAmount == f.discount && p.usageLimit == f.usageLimit && p.isPublic == f.isPublic
  {
    CouponPayload(
      Normalize(f.code),
      f.discount,
      f.isPublic,
      if f.isPublic then None else Some(f.selectedUser),
      if f.expiryDay.None? then None else Some(EndOfDay(f.expiryDay.value, tz)),
      f.usageLimit)
  }

  /** The write `handleSubmit` issues: none when the target user is missing,
      an update of the edited row, or an insert with a zero usage count. */
  function SubmitWrite(f: CouponForm, tz: int): (w: Option<CouponWrite>)
    ensures w.None? <==> MissingTarget(f)
    ensures w.Some? ==> w.value.payload == PayloadOf(f, tz)
    ensures w.Some? ==> (w.value.Update? <==> IsEditing(f))
    ensures w.Some? && w.value.Update? ==> w.value.id == f.editingId.value
    ensures w.Some? && w.value.Insert? ==> w.value.usedCount == 0
  {
    if MissingTarget(f) then None
    else if IsEditing(f) then Some(Update(f.editingId.value, PayloadOf(f, tz)))
    else Some(Insert(PayloadOf(f, tz), 0))
  }

  /** The row an insert creates (the database assigns `id` and `createdAt`). */
  function Inserted(w: CouponWrite, id: int, createdAt: int): Coupon
    requires w.Insert?
  {
    var p := w.payload;
    Coupon(id, p.code, p.discountAmount, p.isPublic, p.specificUserId, p.expiry, p.usageLimit, w.usedCount, createdAt)
  }

  /** The row an update leaves: the payload's fields over the old row. */
  function Updated(c: Coupon, p: CouponPayload): Coupon
  {
    c.(code := p.code, discountAmount := p.discountAmount, isPublic := p.isPublic,
       specificUserId := p.specificUserId, expiry := p.expiry, usageLimit := p.usageLimit)
  }

  /** The targeted-versus-public invariant: a row names a target user exactly
      when it is not public, and that user is a real selection. */
  predicate WellTargeted(c: Coupon)
  {
    (c.isPublic <==> c.specificUserId.None?) &&
    (c.specificUserId.Some? ==> c.specificUserId.value != "")
  }

  /** Every row the manager writes keeps the invariant; an insert starts the
      usage counter at zero and an update leaves the counter and the
      creation time alone. */
  lemma SubmittedRowsAreWellTargeted(f: CouponForm, tz: int, w: CouponWrite, id: int, createdAt: int, c: Coupon)
    requires SubmitWrite(f, tz) == Some(w)
    ensures w.Insert? ==> WellTargeted(Inserted(w, id, createdAt)) && Inserted(w, id, createdAt).usedCount == 0
    ensures w.Update? ==> WellTargeted(Updated(c, w.payload))
    ensures Updated(c, w.payload).usedCount == c.usedCount && Updated(c, w.payload).createdAt == c.createdAt
  {
  }

  /** The manager stores the code the checkout will look up: a customer who
      types the authored code in any case, with any white space around it,
      looks up exactly the stored row's code. */
  lemma AuthoredCodeIsLookupKey(f: CouponForm, tz: int, w: CouponWrite, id: int, createdAt: int,
                                pre: string, typed: string, post: string)
    requires SubmitWrite(f, tz) == Some(w) && w.Insert?
    requires AllSpace(pre) && AllSpace(post)
    requires typed != [] && !IsSpace(typed[0]) && !IsSpace(typed[|typed| - 1])
    requires ToUpper(typed) == Normalize(f.code)
    ensures CouponApply.LookupKey(pre + typed + post) == Some(Inserted(w, id, createdAt).code)
    ensures CouponApply.LookupKey(Inserted(w, id, createdAt).code) == Some(Inserted(w, id, createdAt).code)
  {
    NormalizePadded(pre, typed, post);
    NormalizeIdempotent(f.code);
  }

  /** A freshly created, live, targeted coupon applies to its user and to nobody else. */
  lemma NewTargetedCouponAppliesOnlyToItsUser(f: CouponForm, tz: int, w: CouponWrite, id: int, createdAt: int, now: int, u: Profile)
    requires SubmitWrite(f, tz) == Some(w) && w.Insert? && !f.isPublic
    requires f.usageLimit > 0 && !IsExpired(w.payload.expiry, now)
    ensures CouponApply.Evaluate(Some(Inserted(w, id, createdAt)), now, Some(u)).Applied? <==> u.id == f.selectedUser
    ensures CouponApply.Evaluate(Some(Inserted(w, id, createdAt)), now, None) == CouponApply.Rejected(CouponApply.LoginRequired)
  {
  }

  /** `coupons.filter(c => c.id !== id)`. */
  function WithoutCoupon(cs: seq<Coupon>, id: int): (r: seq<Coupon>)
    ensures forall c :: c in r <==> c in cs && c.id != id
    ensures |r| <= |cs|
  {
    Filter(cs, (c: Coupon) => c.id != id)
  }

  class CouponManager {
    var coupons: seq<Coupon>
    var editingId: Option<int>
    var code: string
    var discount: int
    var isPublic: bool
    var selectedUser: string
    var expiryDay: Option<int>
    var usageLimit: int
    var feedback: Option<Feedback>

    /** The form fields, read apart from the list and the feedback. */
    function Form(): CouponForm
      reads `editingId, `code, `discount, `isPublic, `selectedUser, `expiryDay, `usageLimit
    {
      CouponForm(editingId, code, discount, isPublic, selectedUser, expiryDay, usageLimit)
    }

    constructor ()
      ensures Form() == DefaultForm && coupons == [] && feedback == None
    {
      coupons := [];
      editingId, code, discount, isPublic := None, "", 10, true;
      selectedUser, expiryDay, usageLimit := "", None, 100;
      feedback := None;
    }

    /** `fetchData`'s update of the list: kept when the query returned no data. */
    method ApplyFetch(data: Option<seq<Coupon>>)
      modifies this
      ensures coupons == (if data.Some? then data.value else old(coupons))
      ensures Form() == old(Form()) && feedback == old(feedback)
    {
      if data.Some? {
        coupons := data.value;
      }
    }

    /** `handleEdit`: the form takes the coupon's fields; a missing target
        becomes '', a zero limit becomes 100, and the expiry becomes its
        local calendar day (the corrected reading; see `UtcDayShiftsWest`). */
    method HandleEdit(c: Coupon, tz: int)
      modifies this
      ensures Form() == CouponForm(Some(c.id), c.code, c.discountAmount, c.isPublic,
                                   NullableOr(c.specificUserId, ""),
                                   if c.expiry.Some? then Some(LocalDay(c.expiry.value, tz)) else None,
                                   if c.usageLimit != 0 then c.usageLimit else 100)
      ensures coupons == old(coupons) && feedback == old(feedback)
    {
      editingId := Some(c.id);
      code := c.code;
      discount := c.discountAmount;
      isPublic := c.isPublic;
      selectedUser := NullableOr(c.specificUserId, "");
      usageLimit := if c.usageLimit != 0 then c.usageLimit else 100;
      if c.expiry.Some? {
        expiryDay := Some(LocalDay(c.expiry.value, tz));
      } else {
        expiryDay := None;
      }
    }

    method CancelEdit()
      modifies this
      ensures Form() == DefaultForm
      ensures coupons == old(coupons) && feedback == old(feedback)
    {
      editingId, code, discount, isPublic := None, "", 10, true;
      selectedUser, expiryDay, usageLimit := "", None, 100;
    }

    /** The feedback of a rejected or failed save; the form stays as it was. */
    method ReportError(message: string)
      modifies this
      ensures feedback == Some(ErrorNote(message))
      ensures Form() == old(Form()) && coupons == old(coupons)
    {
      feedback := Some(ErrorNote(message));
    }

    /** A saved coupon: the success note, and the form back to its defaults. */
    method ReportSaved(editing: bool)
      modifies this
      ensures feedback == Some(SuccessNote(SavedNote(editing)))
      ensures Form() == DefaultForm && coupons == old(coupons)
    {
      feedback := Some(SuccessNote(SavedNote(editing)));
      CancelEdit();
    }

    /** `handleSubmit`. `writeError` is the error the insert or update returned;
        `refetch` is the coupon data of the `fetchData` that follows a
        successful write. */
    method HandleSubmit(tz: int, writeError: Option<string>, refetch: Option<seq<Coupon>>)
      returns (w: Option<CouponWrite>)
      modifies this
      ensures w == SubmitWrite(old(Form()), tz)
      ensures w.None? ==> Form() == old(Form()) && feedback == Some(ErrorNote(MissingUserNote))
      ensures w.Some? && writeError.Some? ==> Form() == old(Form()) && feedback == Some(ErrorNote(writeError.value))
      ensures w.Some? && writeError.None? ==> Form() == DefaultForm
      ensures w.Some? && writeError.None? ==>
                feedback == Some(SuccessNote(SavedNote(IsEditing(old(Form())))))
      ensures w.Some? && writeError.None? && refetch.Some? ==> coupons == refetch.value
      ensures !(w.Some? && writeError.None? && refetch.Some?) ==> coupons == old(coupons)
    {
      var f := Form();
      w := SubmitWrite(f, tz);
      if w.None? {
        ReportError(MissingUserNote);
      } else if writeError.Some? {
        ReportError(writeError.value);
      } else {
        ReportSaved(IsEditing(f));
        ApplyFetch(refetch);
      }
    }

    /** `deleteCoupon`: after confirmation the delete is issued and the row
        leaves the list whatever the server answers. */
    method DeleteCoupon(id: int, confirmed: bool) returns (issued: bool)
      modifies this
      ensures issued == confirmed
      ensures coupons == (if confirmed then WithoutCoupon(old(coupons), id) else old(coupons))
      ensures Form() == old(Form()) && feedback == old(feedback)
    {
      if !confirmed {
        return false;
      }
      coupons := WithoutCoupon(coupons, id);
      issued := true;
    }
  }

  /** The coupon card's status: expired and sold out as the checkout judges them. */
  lemma CardStatusMatchesCheckout(c: Coupon, now: int, u: Option<Profile>)
    requires IsExpired(c.expiry, now) || IsSoldOut(c)
    ensures !CouponApply.Evaluate(Some(c), now, u).Applied?
  {
  }
}
