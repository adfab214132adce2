/** The consultation booking page: a signed-in visitor fills a form whose
    phone number must have at least ten characters, and the page inserts a
    pending booking for that visitor. */
module BookNow {
  import opened Common
  import opened Text
  import opened Session
  import BookingManager

  /** The page's submission state; `Failed` is the source's 'error'. */
  datatype Status = Idle | Submitting | Success | Failed

  datatype BookingForm = BookingForm(
    fullName: string,
    phone: string,
    preferredDate: string,
    projectType: string,
    message: string)

  /** The form as the page opens. */
  const InitialForm := BookingForm("", "", "", "Residential", "")

  const InvalidPhone := "Please enter a valid phone number."
  const SubmitFailed := "Failed to submit booking request."

  /** The row the page inserts into `bookings`. */
  datatype BookingInsert = BookingInsert(
    userId: string,
    fullName: string,
    email: string,
    phone: string,
    preferredDate: string,
    projectType: string,
    message: string,
    status: BookingManager.BookingStatus)

  /** `!(!phone || phone.length < 10)`. */
  predicate ValidPhone(phone: string)
  {
    !(phone == "" || |phone| < 10)
  }

  /** The emptiness test is subsumed: a phone is accepted exactly when it has
      at least ten characters. */
  lemma ValidPhoneIsLength(phone: string)
    ensures ValidPhone(phone) <==> |phone| >= 10
  {
  }

  /** What the page inserts for `user` from `form`. */
  function InsertFor(form: BookingForm, user: Profile): BookingInsert
  {
    BookingInsert(user.id, OrElse(form.fullName, NullableOr(user.fullName, "")),
      NullableOr(user.email, ""), form.phone, form.preferredDate, form.projectType, form.message,
      BookingManager.Pending)
  }

  /** The inserted booking belongs to the visitor, is pending, carries the
      form's own phone, date, type and message, and is named by the form, or
      failing that by the profile; a missing e-mail is stored as ''. */
  lemma InsertForVisitor(form: BookingForm, user: Profile)
    ensures var b := InsertFor(form, user);
      && b.userId == user.id && b.status == BookingManager.Pending
      && b.phone == form.phone && b.preferredDate == form.preferredDate
      && b.projectType == form.projectType && b.message == form.message
      && (form.fullName != "" ==> b.fullName == form.fullName)
      && (form.fullName == "" && user.fullName.Some? ==> b.fullName == user.fullName.value)
      && (form.fullName == "" && user.fullName.None? ==> b.fullName == "")
      && (user.email.Some? ==> b.email == user.email.value)
      && (user.email.None? ==> b.email == "")
  {
  }

  /** The row the insert creates, once the database gives it an id and a
      creation time. */
  function Stored(b: BookingInsert, id: string, createdAt: string): BookingManager.Booking
  {
    BookingManager.Booking(id, b.userId, b.fullName, b.email, b.phone, b.preferredDate,
      b.projectType, b.message, b.status, createdAt)
  }

  /** Every booking the page creates reaches the booking manager as one it
      can confirm. */
  lemma NewBookingIsConfirmable(form: BookingForm, user: Profile, id: string, createdAt: string)
    ensures BookingManager.CanConfirm(Stored(InsertFor(form, user), id, createdAt))
  {
  }

  /** `user.full_name?.split(' ')[0]`, the name the thank-you note uses. */
  function FirstName(fullName: Option<string>): (r: Option<string>)
    ensures fullName.None? <==> r.None?
    ensures r.Some? ==> ' ' !in r.value
    ensures r.Some? ==> |r.value| <= |fullName.value| && fullName.value[..|r.value|] == r.value
    ensures r.Some? && |r.value| < |fullName.value| ==> fullName.value[|r.value|] == ' '
  {
    if fullName.None? then None
    else
      SplitFirstPiece(fullName.value, ' ');
      Some(Split(fullName.value, ' ')[0])
  }

  /** What the page renders. */
  datatype Screen = Spinner | Blank | FormScreen | Confirmation

  /** The spinner while the auth check runs, nothing without a user, then the
      confirmation after a success and the form otherwise. */
  function ScreenFor(isCheckingAuth: bool, user: Option<Profile>, status: Status): (v: Screen)
    ensures v == Spinner <==> isCheckingAuth
    ensures v == Blank <==> !isCheckingAuth && user.None?
    ensures v == Confirmation <==> !isCheckingAuth && user.Some? && status == Success
    ensures v == FormScreen <==> !isCheckingAuth && user.Some? && status != Success
  {
    if isCheckingAuth then Spinner
    else if user.None? then Blank
    else if status == Success then Confirmation
    else FormScreen
  }

  class Page {
    var form: BookingForm
    var status: Status
    var errorMessage: string
    var isCheckingAuth: bool

    constructor ()
      ensures form == InitialForm && status == Idle && errorMessage == "" && isCheckingAuth
    {
      form, status, errorMessage, isCheckingAuth := InitialForm, Idle, "", true;
    }

    /** The effect on `user`: a profile name replaces the form's name. */
    method SyncUser(user: Option<Profile>)
      modifies this
      ensures user.Some? && user.value.fullName.Some? && user.value.fullName.value != "" ==>
        form == old(form).(fullName := user.value.fullName.value)
      ensures !(user.Some? && user.value.fullName.Some? && user.value.fullName.value != "") ==> form == old(form)
      ensures status == old(status) && errorMessage == old(errorMessage) && isCheckingAuth == old(isCheckingAuth)
    {
      if user.Some? && user.value.fullName.Some? && user.value.fullName.value != "" {
        form := form.(fullName := NullableOr(user.value.fullName, ""));
      }
    }

    /** The auth guard's timer: the check ends, and the page asks to go to
        '/login' exactly when nobody is signed in. */
    method AuthTimerFires(user: Option<Profile>) returns (toLogin: bool)
      modifies this
      ensures toLogin <==> user.None?
      ensures !isCheckingAuth
      ensures form == old(form) && status == old(status) && errorMessage == old(errorMessage)
    {
      isCheckingAuth := false;
      toLogin := user.None?;
    }

    /** Typing in the form. */
    method SetForm(f: BookingForm)
      modifies this
      ensures form == f
      ensures status == old(status) && errorMessage == old(errorMessage) && isCheckingAuth == old(isCheckingAuth)
    {
      form := f;
    }

    /** `handleSubmit` from the 'submitting' step on: the insert is issued and
        `insertError` is the message of the error it raised, if any. */
    method FinishSubmit(user: Profile, insertError: Option<string>) returns (w: BookingInsert)
      requires status == Submitting && errorMessage == ""
      modifies this
      ensures w == InsertFor(form, user)
      ensures insertError.None? ==> status == Success && errorMessage == ""
      ensures insertError.Some? ==> status == Failed && errorMessage == OrElse(insertError.value, SubmitFailed)
      ensures form == old(form) && isCheckingAuth == old(isCheckingAuth)
    {
      w := InsertFor(form, user);
      if insertError.Some? {
        errorMessage := OrElse(insertError.value, SubmitFailed);
        status := Failed;
      } else {
        status := Success;
      }
    }

    /** `handleSubmit`: nothing without a user, an error note for a short
        phone, and otherwise the insert, whose outcome sets the status. */
    method HandleSubmit(user: Option<Profile>, insertError: Option<string>) returns (w: Option<BookingInsert>)
      modifies this
      ensures user.None? ==> w.None? && status == old(status) && errorMessage == old(errorMessage)
      ensures user.Some? && !ValidPhone(form.phone) ==>
        w.None? && status == Failed && errorMessage == InvalidPhone
      ensures user.Some? && ValidPhone(form.phone) ==> w == Some(InsertFor(form, user.value))
      ensures user.Some? && ValidPhone(form.phone) && insertError.None? ==> status == Success && errorMessage == ""
      ensures user.Some? && ValidPhone(form.phone) && insertError.Some? ==>
        status == Failed && errorMessage == OrElse(insertError.value, SubmitFailed)
      ensures w.Some? ==> ValidPhone(w.value.phone)
      ensures form == old(form) && isCheckingAuth == old(isCheckingAuth)
    {
      if user.None? {
        return None;
      }
      if !ValidPhone(form.phone) {
        errorMessage := InvalidPhone;
        status := Failed;
        return None;
      }
      status := Submitting;
      errorMessage := "";
      var b := FinishSubmit(user.value, insertError);
      w := Some(b);
    }

    /** 'Book another': back to the form with the message and date cleared. */
    method BookAnother()
      modifies this
      ensures status == Idle
      ensures form == old(form).(message := "", preferredDate := "")
      ensures errorMessage == old(errorMessage) && isCheckingAuth == old(isCheckingAuth)
    {
      status := Idle;
      form := form.(message := "", preferredDate := "");
    }
  }

  /** A second booking after 'book another' keeps the visitor's name, phone and
      project type, so the same visitor passes the phone check again. */
  lemma BookAnotherKeepsContact(form: BookingForm, user: Profile)
    requires ValidPhone(form.phone)
    ensures var again := form.(message := "", preferredDate := "");
      && ValidPhone(again.phone)
      && InsertFor(again, user) == InsertFor(form, user).(message := "", preferredDate := "")
  {
  }
}
