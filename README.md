# Precission studio site: coupon rules, admin screens and session, in Dafny

This project models the logic of an architecture studio's website. The site is
a React front end over a Supabase database. It has a public side: a
consultation booking page, a review dialog, and page metadata. It also has an
admin dashboard where coupons, projects, subscribers, settings, reviews,
bookings, messages and users are managed.

At its centre is the coupon rule:
- the checkout form normalises the code, looks it up, and runs a fixed chain of
  checks (expiry, usage limit, public or targeted at one user). The first
  failure is reported; success reports the discount;
- the admin coupon manager authors coupons under the same normalisation. It
  keeps the targeted-versus-public invariant and starts `used_count` at zero.

Validation never writes. Nothing in the site increments `used_count`, so the
model has no redeem operation.

Around the coupon rule the model covers:
- the project editor's slug pipeline and tag parser;
- the subscriber CSV export;
- the settings screen's location list;
- the session store (`user`, `isAdmin`, `isLoading`);
- the list-editing operations of the moderator, booking, message, inbox, user
  and project screens;
- the booking page, the review dialog, the dashboard and route guards, the
  metadata fallbacks and the overview statistics.

How the code is modelled:
- Pure expressions become functions.
- Components whose state changes step by step become classes. Their fields are
  the component's state; each handler is a method that states the complete new
  state.
- Every remote call (select, insert, update, delete, storage upload, auth call)
  is a parameter of the handler that consumes its answer: the returned rows, or
  the error.
- Instants are integers (milliseconds since the epoch). The browser's time-zone
  offset is a parameter.
- Letter case is ASCII.
- A studio location carries every key the settings row stores (`city`,
  `country`, `timezone`, `mapUrl`, `coords`); the settings screen edits only
  the first two and writes the others back as they were loaded.

All files are verified together, for example with
`dafny verify --resource-limit 2000000 *.dfy`.

Modules, one per source file plus shared helpers:
- `Common`: options, `||` fallbacks, filter and remove-at-index;
- `Text`: `toLowerCase`, `toUpperCase`, `trim`, `includes`, `split`, `join`;
- `Session`: `src/store/useStore.ts`;
- `Coupons`: the coupon record and predicates shared by checkout and admin;
- `CouponApply`, `CouponManager`, `ProjectEditor`, `SubscriberList`,
  `SettingsManager`, `ReviewModerator`, `BookingManager`, `MessageCenter`,
  `MessageInbox`, `UserManagement`, `ProjectManager`, `BookNow`, `AddReview`,
  `AdminDashboard`, `AdminRoute`, `Seo`, `Analytics`.

## Model

| member | source | states |
|---|---|---|
| Common.Filter | src/components/admin/SubscriberList.tsx:51-53 | `Array.filter`: the result holds exactly the elements that pass the test, and is no longer than the input |
| Common.FilterCounts | src/components/admin/MessageInbox.tsx:61-65 | filtering keeps each passing element as often as it occurred and drops every other element entirely |
| Common.FilterKeepsAll | src/components/admin/SubscriberList.tsx:51-53 | a test every element passes gives back the whole list in order |
| Common.RemoveIndex | src/components/admin/SettingsManager.tsx:52-55 | `filter((_, i) => i !== index)`: in range, exactly element i is removed and the others keep their order; out of range, nothing changes |
| Text.ToLower | src/components/admin/SubscriberList.tsx:52 | `toLowerCase`: same length, each character mapped through the ASCII lower-case map |
| Text.ToUpper | src/components/chechkout/CouponApply.tsx:20 | `toUpperCase`: same length, each character mapped through the ASCII upper-case map |
| Text.ToLowerIdempotent | src/components/admin/MessageInbox.tsx:62 | lower-casing twice is lower-casing once |
| Text.Trim | src/components/chechkout/CouponApply.tsx:20 | `trim`: a contiguous slice of the input, no longer than it, with no white space at either end |
| Text.TrimOfTrimmed | src/components/chechkout/CouponApply.tsx:20 | a string with no white space at its ends is its own trim |
| Text.TrimPadded | src/components/chechkout/CouponApply.tsx:20 | a word with no white space at its ends, padded on both sides by white space only, trims to the word |
| Text.TrimAllSpace | src/components/chechkout/CouponApply.tsx:20 | text made only of white space trims to '' |
| Text.TrimUpper | src/components/chechkout/CouponApply.tsx:20 | trimming and upper-casing commute |
| Text.ContainsIffSlice | src/components/admin/MessageInbox.tsx:62 | `includes` holds exactly when the term occurs as a contiguous slice |
| Text.ContainsEmpty | src/components/admin/UserManagement.tsx:80-82 | every string includes the empty term |
| Text.Split | src/components/admin/ProjectEditor.tsx:165 | `split`: at least one piece, and no piece holds the separator |
| Text.JoinSplit | src/components/admin/SubscriberList.tsx:37-40 | joining the pieces of a split with the same separator gives back the input |
| Text.SplitJoin | src/components/admin/SubscriberList.tsx:37-40 | splitting a join of separator-free pieces gives back the pieces |
| Text.SplitConcat | src/components/admin/ProjectEditor.tsx:165 | splitting at one separator gives the pieces of the left side followed by those of the right side |
| Text.SplitFirstPiece | src/components/reviews/AddReviewModal.tsx:27 | the first piece of a split is the longest prefix without the separator |
| Session.AfterLookup | src/store/useStore.ts:124-147 | a found profile gives `user = profile` and `isAdmin` iff its role is admin; no session, a profile error or an exception give no user and not admin; no error and no profile leaves both unchanged; the admin invariant is preserved |
| Session.AfterFetch | src/store/useStore.ts:103-112 | returned data replaces the settings; an error or no data leaves them unchanged |
| Session.Store.constructor | src/store/useStore.ts:90-94 | the store starts with no user, no settings, not admin, loading, and satisfies the admin invariant |
| Session.Store.FetchSettings | src/store/useStore.ts:96-116 | settings become `AfterFetch` of the old settings; user, admin flag and loading flag are untouched |
| Session.Store.BeginCheckUser | src/store/useStore.ts:119 | `checkUser` first sets loading and changes nothing else |
| Session.Store.FinishCheckUser | src/store/useStore.ts:120-150 | on every exit path loading ends; user and admin flag become `AfterLookup`; the invariant holds |
| Session.Store.CheckUser | src/store/useStore.ts:118-151 | the whole `checkUser`: loading ends, user and admin flag are `AfterLookup` of the old ones, settings untouched, invariant kept |
| Session.Store.CompleteAuth | src/store/useStore.ts:165-171 | a provider error is returned and leaves the state alone; success returns no error and runs `checkUser` |
| Session.Store.SignUp | src/store/useStore.ts:153-176 | `signUp`: as `CompleteAuth` for the sign-up answer |
| Session.Store.SignIn | src/store/useStore.ts:178-195 | `signIn`: as `CompleteAuth` for the password sign-in answer |
| Session.Store.SignOut | src/store/useStore.ts:197-200 | no user and not admin afterwards; settings and loading untouched; invariant kept |
| Session.AdminOnlyFromAdminProfile | src/store/useStore.ts:133-144 | starting from not admin, a lookup grants admin only through a found profile whose role is admin |
| Coupons.Normalize | src/components/chechkout/CouponApply.tsx:20 | `toUpperCase().trim()`: no lower-case letter, no white space at either end, no longer than the input; its value is fixed by `NormalizePadded` and `NormalizeAllSpace` |
| Coupons.NormalizePadded | src/components/chechkout/CouponApply.tsx:20 | a code typed in any case with any white space around it normalises to the upper-cased code itself |
| Coupons.NormalizeAllSpace | src/components/chechkout/CouponApply.tsx:20 | a code made only of white space normalises to '' |
| Coupons.ToUpperConcat | src/components/chechkout/CouponApply.tsx:20 | upper-casing a concatenation upper-cases each part |
| Coupons.NormalizeIdempotent | src/components/admin/CouponManager.tsx:112 | normalising a stored code again changes nothing |
| Coupons.ExpiryCases | src/components/chechkout/CouponApply.tsx:39-42 | no expiry never expires; an expiry equal to now is not expired; one strictly before now is |
| CouponApply.Evaluate | src/components/chechkout/CouponApply.tsx:35-64 | applied exactly for a found coupon that is live, not sold out, and public or targeted at the signed-in user; then the discount is `discount_amount`; invalid-code exactly when no row was found; the chain itself never reports a storage failure |
| CouponApply.LookupKey | src/components/chechkout/CouponApply.tsx:17-27 | an empty code issues no lookup; otherwise the key is the normalised code |
| CouponApply.CouponForm.constructor | src/components/chechkout/CouponApply.tsx:9-13 | empty code, not loading, no modal |
| CouponApply.CouponForm.SetCode | src/components/chechkout/CouponApply.tsx:9 | only the code changes |
| CouponApply.CouponForm.HandleApply | src/components/chechkout/CouponApply.tsx:15-77 | the query is issued for `LookupKey` of the code, the upper-cased trimmed code, and none is issued for an empty code; an empty code changes nothing; otherwise loading ends and the modal shows the verdict or the storage message; the code is kept |
| CouponApply.CouponForm.CloseModal | src/components/chechkout/CouponApply.tsx:84 | the modal closes and nothing else changes |
| CouponApply.ExpiredFirst | src/components/chechkout/CouponApply.tsx:39-42 | an expired coupon is rejected as expired, whatever its usage and the user |
| CouponApply.LimitAfterExpiry | src/components/chechkout/CouponApply.tsx:44-46 | a live coupon with `used_count >= usage_limit` is rejected for its usage limit, before any identity check |
| CouponApply.TargetedIdentity | src/components/chechkout/CouponApply.tsx:49-56 | a live targeted coupon: no user needs login; another user is refused; its own user gets the discount |
| CouponApply.PublicIgnoresIdentity | src/components/chechkout/CouponApply.tsx:49 | a public coupon's verdict is the same whoever asks |
| CouponApply.SpacedLowerCaseFindsCode | src/components/chechkout/CouponApply.tsx:20-28 | "  summer20 " is looked up as "SUMMER20" and finds the stored SUMMER20 row |
| CouponApply.NormalizeSummer | src/components/chechkout/CouponApply.tsx:20 | "  summer20 " normalises to "SUMMER20" |
| CouponApply.StorageErrorMessage | src/components/chechkout/CouponApply.tsx:68-73 | a storage error shows its own message, or "Failed to apply coupon." when it has none |
| CouponManager.LocalDayOfEndOfDay | src/components/admin/CouponManager.tsx:80-84 | the local day of a stored local end-of-day is that day, so an edit that reads back the local day does not move the expiry |
| CouponManager.UtcDayShiftsWest | src/components/admin/CouponManager.tsx:81 | as written, west of UTC the UTC day of a stored end-of-day is the next day; saving it again moves the expiry one day later |
| CouponManager.UtcDayShiftExample | src/components/admin/CouponManager.tsx:81 | at UTC-5 an edit-and-save of a coupon expiring at the end of 1970-01-01 changes its stored expiry |
| CouponManager.PayloadOf | src/components/admin/CouponManager.tsx:109-118 | the stored code is the normalised code; the target user is null iff the coupon is public, and otherwise the selected user; no date stores null, a date stores its local 23:59:59; discount, limit and public flag are copied |
| CouponManager.SubmitWrite | src/components/admin/CouponManager.tsx:101-131 | no write iff the coupon is private with no selected user; otherwise an update of the edited id iff one is being edited, or an insert with `used_count` 0 |
| CouponManager.SubmittedRowsAreWellTargeted | src/components/admin/CouponManager.tsx:111-131 | every row the manager writes names a target iff it is private; an insert starts at usage 0; an update leaves `used_count` and `created_at` alone |
| CouponManager.AuthoredCodeIsLookupKey | src/components/admin/CouponManager.tsx:112 | a customer who types the authored code in any case, with any white space before and after it, looks up exactly the stored row's code; the stored code is its own key |
| CouponManager.NewTargetedCouponAppliesOnlyToItsUser | src/components/admin/CouponManager.tsx:99-131 | a freshly inserted, live, targeted coupon is applied for exactly its selected user and needs login without one |
| CouponManager.WithoutCoupon | src/components/admin/CouponManager.tsx:147 | `coupons.filter(c => c.id !== id)`: exactly the coupons with other ids remain |
| CouponManager.CouponManager.constructor | src/components/admin/CouponManager.tsx:25-43 | default form, empty list, no feedback |
| CouponManager.CouponManager.ApplyFetch | src/components/admin/CouponManager.tsx:61 | returned coupons replace the list, no data keeps it; the form is untouched |
| CouponManager.CouponManager.HandleEdit | src/components/admin/CouponManager.tsx:71-87 | the form takes the coupon's id, code, discount and flag; a null target becomes ''; a zero limit becomes 100; the expiry becomes its local day (corrected, see Findings) or none |
| CouponManager.CouponManager.CancelEdit | src/components/admin/CouponManager.tsx:89-97 | the form returns to no id, empty code, discount 10, public, no user, no expiry, limit 100 |
| CouponManager.CouponManager.HandleSubmit | src/components/admin/CouponManager.tsx:99-142 | the write is `SubmitWrite` of the form; a missing user shows "Please select a user for private coupons." and keeps the form; a write error shows its message and keeps the form; success resets the form, shows the created or updated note, and the list becomes the refetched coupons when the refetch returns data; otherwise the list is kept |
| CouponManager.CouponManager.DeleteCoupon | src/components/admin/CouponManager.tsx:144-148 | only after confirmation: the delete is issued and exactly that id leaves the list, whatever the server answered |
| CouponManager.CardStatusMatchesCheckout | src/components/admin/CouponManager.tsx:289-290 | a card shown as expired or sold out is one the checkout will not apply |
| ProjectEditor.RemoveDisallowed | src/components/admin/ProjectEditor.tsx:62 | `replace(/[^\w\s-]/g, '')`: a character is in the result exactly when it is a word character, white space or '-' of the input |
| ProjectEditor.RemoveDisallowedCounts | src/components/admin/ProjectEditor.tsx:62 | every allowed character is kept as often as it occurs, every other one is removed entirely |
| ProjectEditor.RemoveDisallowedConcat | src/components/admin/ProjectEditor.tsx:62 | removing from a concatenation removes from each part, so the kept characters stay in order |
| ProjectEditor.RemoveDisallowedAt | src/components/admin/ProjectEditor.tsx:62 | a disallowed character between two parts is cut out and an allowed one stays in place |
| ProjectEditor.RemoveDisallowedKeepsAllowed | src/components/admin/ProjectEditor.tsx:62 | text of allowed characters is left as it is |
| ProjectEditor.CollapseChars | src/components/admin/ProjectEditor.tsx:63 | after `replace(/[\s_-]+/g, '-')` the only separator left is '-', and every other character comes from the input |
| ProjectEditor.CollapseNoDoubleDash | src/components/admin/ProjectEditor.tsx:63 | after collapsing no two '-' touch |
| ProjectEditor.DropLeadingDashes | src/components/admin/ProjectEditor.tsx:64 | a suffix of the input that does not start with '-', and everything dropped is '-' |
| ProjectEditor.DropTrailingDashes | src/components/admin/ProjectEditor.tsx:64 | a prefix of the input that does not end with '-', and everything dropped is '-' |
| ProjectEditor.SlugIsSlug | src/components/admin/ProjectEditor.tsx:59-64 | every slug holds only a-z, 0-9 and '-', has no '-' at either end, and never two in a row |
| ProjectEditor.SlugOfSlug | src/components/admin/ProjectEditor.tsx:59-64 | a well-formed slug passes through the pipeline unchanged |
| ProjectEditor.SlugIdempotent | src/components/admin/ProjectEditor.tsx:59-64 | deriving the slug of a slug changes nothing |
| ProjectEditor.CollapseJoin | src/components/admin/ProjectEditor.tsx:63 | a run of spaces, underscores or hyphens between two slugs collapses to one '-' |
| ProjectEditor.JoinIsSlug | src/components/admin/ProjectEditor.tsx:63-64 | two slugs joined by one '-' form a slug |
| ProjectEditor.SlugJoinsWords | src/components/admin/ProjectEditor.tsx:59-64 | the slug of two slugs around any run of separators is the two joined by a single '-' |
| ProjectEditor.TrimEach | src/components/admin/ProjectEditor.tsx:165 | `map(t => t.trim())`: same length, each piece trimmed |
| ProjectEditor.ParsedTagsAreClean | src/components/admin/ProjectEditor.tsx:165 | every parsed tag is non-empty, comma-free, and has no white space at its ends |
| ProjectEditor.TrimEachConcat | src/components/admin/ProjectEditor.tsx:165 | trimming each piece of a concatenation trims each part |
| ProjectEditor.ParseTagsConcat | src/components/admin/ProjectEditor.tsx:165 | the tags of `a,b` are the tags of a followed by those of b, so input order is kept |
| ProjectEditor.ParseOneField | src/components/admin/ProjectEditor.tsx:165 | comma-free text gives its trim as the one tag, or no tag when that is empty |
| ProjectEditor.TagsRoundTrip | src/components/admin/ProjectEditor.tsx:165 | clean tags shown joined by ", " parse back to the same tags |
| ProjectEditor.PaddedTagsRoundTrip | src/components/admin/ProjectEditor.tsx:165 | the same after leading white space |
| ProjectEditor.InitialForm | src/components/admin/ProjectEditor.tsx:38-52 | a new project starts from the defaults (the current year, 'In Progress'); an existing one keeps its id, title, slug, description, image, year and status; a null narrative image, location or client becomes '' and a present one is kept; a missing gallery becomes [] |
| ProjectEditor.UnchangedSaveKeepsProject | src/components/admin/ProjectEditor.tsx:38-185 | opening an existing project with clean tags and saving it unedited writes back its own id, texts, tags and gallery, its nullable columns with null as '', and its year and status unless empty |
| ProjectEditor.InitialTagsInput | src/components/admin/ProjectEditor.tsx:54 | the tag field shows the project's tags joined by ", ", or '' |
| ProjectEditor.PayloadOf | src/components/admin/ProjectEditor.tsx:165-185 | the id is sent iff it is known; an empty narrative image becomes null; an empty status becomes 'In Progress' and an empty year the current year; the tags are the parsed field; gallery, slug and title are copied |
| ProjectEditor.PayloadIsComplete | src/components/admin/ProjectEditor.tsx:169-181 | every payload carries clean tags and a non-empty status and year |
| ProjectEditor.Editor.constructor | src/components/admin/ProjectEditor.tsx:38-54 | creating iff no project was given; the form is `InitialForm` and the tag field `InitialTagsInput` |
| ProjectEditor.Editor.SetTitle | src/components/admin/ProjectEditor.tsx:57-67 | the title changes; the slug is re-derived only for a new project with a non-empty title, and is then well formed; an existing project's slug is never rewritten |
| ProjectEditor.Editor.SetSlug | src/components/admin/ProjectEditor.tsx:69-72 | only the slug changes |
| ProjectEditor.Editor.SetTagsInput | src/components/admin/ProjectEditor.tsx:54 | only the tag field changes |
| ProjectEditor.Editor.UploadGallery | src/components/admin/ProjectEditor.tsx:111-150 | the new URLs go after the existing ones, both in order; a failure keeps the gallery and shows its message or "Gallery upload failed." |
| ProjectEditor.Editor.RemoveGalleryImage | src/components/admin/ProjectEditor.tsx:152-157 | the gallery loses exactly image i, keeping the rest in order; an out-of-range i changes nothing |
| ProjectEditor.Editor.Save | src/components/admin/ProjectEditor.tsx:159-210 | the upsert sends `PayloadOf` the form; a returned id is kept only when the form had none; failure shows its message or "Database Error" |
| ProjectEditor.Editor.ApplySave | src/components/admin/ProjectEditor.tsx:189-210 | the upsert's answer: on failure the form stays and the message or "Database Error" shows; on success a returned id is kept only when the form had none, and the success note shows |
| ProjectEditor.SecondSaveUpdates | src/components/admin/ProjectEditor.tsx:183-200 | a first save sends no id, and after the returned id is kept the next payload carries it |
| SubscriberList.Rows | src/components/admin/SubscriberList.tsx:35-39 | one line per subscriber, in list order, each being its id, e-mail and join time joined by ',' |
| SubscriberList.Filtered | src/components/admin/SubscriberList.tsx:51-53 | exactly the subscribers whose lower-cased e-mail includes the lower-cased term |
| SubscriberList.CsvLines | src/components/admin/SubscriberList.tsx:33-40 | read back at '\n', the export is the header and then one row per subscriber: n + 1 lines and no trailing newline |
| SubscriberList.EmptyExport | src/components/admin/SubscriberList.tsx:37-40 | with no subscribers the export is exactly "ID,Email,Joined At" |
| SubscriberList.HeaderText | src/components/admin/SubscriberList.tsx:34-38 | the header line is "ID,Email,Joined At" |
| SubscriberList.HeaderColumns | src/components/admin/SubscriberList.tsx:34-38 | cut at commas, the header gives back its three titles |
| SubscriberList.RowColumns | src/components/admin/SubscriberList.tsx:39 | cut at commas, a row gives the pieces of its id, then of its e-mail, then of its join time |
| SubscriberList.PlainRowColumns | src/components/admin/SubscriberList.tsx:39 | comma-free fields give exactly three columns |
| SubscriberList.CommaShiftsColumns | src/components/admin/SubscriberList.tsx:39 | an e-mail holding a comma gives its row more columns than the header, since nothing is quoted |
| SubscriberList.ExportIgnoresSearch | src/components/admin/SubscriberList.tsx:33-53 | the export is built from the full list, whatever the search box holds |
| SubscriberList.EmptySearchKeepsAll | src/components/admin/SubscriberList.tsx:51-53 | an empty search keeps everyone, in order |
| SubscriberList.SearchIgnoresCase | src/components/admin/SubscriberList.tsx:52 | a term differing only in letter case lists the same subscribers |
| SettingsManager.ContactOf | src/components/admin/SettingsManager.tsx:26-31 | each null contact field shows as '' and each present one as itself |
| SettingsManager.WithFieldFrame | src/components/admin/SettingsManager.tsx:38-40 | `handleChange` sets the named field and leaves the other fields |
| SettingsManager.ChangeLocationFrame | src/components/admin/SettingsManager.tsx:42-46 | only field f of entry i changes; the length, every other entry, and the entry's timezone, map link and coordinates stay |
| SettingsManager.AddThenRemove | src/components/admin/SettingsManager.tsx:48-55 | removing the location just added gives the list back |
| SettingsManager.Settings.constructor | src/components/admin/SettingsManager.tsx:14-22 | empty fields, no locations, not loading, no modal |
| SettingsManager.Settings.SyncFromSettings | src/components/admin/SettingsManager.tsx:24-36 | without settings nothing changes; with them the fields are `ContactOf` the row; the locations are replaced only when the JSON is present |
| SettingsManager.Settings.HandleChange | src/components/admin/SettingsManager.tsx:38-40 | the form becomes `WithField`; the locations are untouched |
| SettingsManager.Settings.HandleLocationChange | src/components/admin/SettingsManager.tsx:42-46 | the locations become `ChangedLocations`; nothing else changes |
| SettingsManager.Settings.AddLocation | src/components/admin/SettingsManager.tsx:48-50 | one blank `{city: '', country: ''}` is appended at the end |
| SettingsManager.Settings.RemoveLocation | src/components/admin/SettingsManager.tsx:52-55 | exactly index i is removed, and the others keep their order |
| SettingsManager.Settings.HandleSave | src/components/admin/SettingsManager.tsx:57-80 | without settings, "Error: No settings loaded" and no write; otherwise the update of row `settings.id` with the fields and the list; an error is alerted; success opens the modal; loading ends |
| ReviewModerator.QueryStatus | src/components/admin/ReviewModerator.tsx:23-25 | the fetch restricts to status 'pending' exactly in the pending view |
| ReviewModerator.Fetched | src/components/admin/ReviewModerator.tsx:19-30 | the fetched rows are the table's rows, restricted to pending ones in the pending view |
| ReviewModerator.Without | src/components/admin/ReviewModerator.tsx:48 | exactly the reviews with other ids remain |
| ReviewModerator.ModeratedStaysInAllView | src/components/admin/ReviewModerator.tsx:36-38 | in the 'all' view the list keeps its length; the review takes its new status and the others are unchanged |
| ReviewModerator.ModeratedLeavesPendingView | src/components/admin/ReviewModerator.tsx:38-42 | in the 'pending' view the moderated review leaves the list |
| ReviewModerator.OfferedActions | src/components/admin/ReviewModerator.tsx:114-122 | both actions are offered exactly for a pending review; an approved one offers only reject, a rejected one only approve; every offered action changes the status |
| ReviewModerator.DefaultViewIsPending | src/components/admin/ReviewModerator.tsx:16-25 | the moderator opens in the pending view and fetches only pending reviews |
| ReviewModerator.Moderator.constructor | src/components/admin/ReviewModerator.tsx:15-17 | no reviews, the pending view, loading |
| ReviewModerator.Moderator.SetView | src/components/admin/ReviewModerator.tsx:58-69 | only the view changes |
| ReviewModerator.Moderator.ApplyFetch | src/components/admin/ReviewModerator.tsx:27-29 | returned rows replace the list, no data keeps it, and loading ends |
| ReviewModerator.Moderator.UpdateStatus | src/components/admin/ReviewModerator.tsx:36-43 | the status write is issued, and the list changes as `AfterModeration` whatever the database answered |
| ReviewModerator.Moderator.DeleteReview | src/components/admin/ReviewModerator.tsx:45-49 | without confirmation nothing happens; with it the delete is issued and exactly that id leaves the list |
| BookingManager.Without | src/components/admin/BookingManager.tsx:75 | exactly the bookings with other ids remain |
| BookingManager.StatusChangeFrame | src/components/admin/BookingManager.tsx:61 | same length; the bookings with that id take the new status and nothing else of theirs changes; the others are unchanged |
| BookingManager.OnlyPendingToConfirmed | src/components/admin/BookingManager.tsx:168-176 | the confirm action exists only for a pending booking, and the confirmed booking no longer offers it |
| BookingManager.Manager.constructor | src/components/admin/BookingManager.tsx:20-27 | no bookings, loading, no pending delete, no feedback |
| BookingManager.Manager.ApplyFetch | src/components/admin/BookingManager.tsx:29-45 | rows replace the list; a failure keeps it and shows "Failed to load bookings"; loading ends |
| BookingManager.Manager.UpdateStatus | src/components/admin/BookingManager.tsx:51-66 | success sets the status of that id and shows "Booking marked as …"; failure keeps the list and shows the error |
| BookingManager.Manager.AskDelete | src/components/admin/BookingManager.tsx:178 | the booking is recorded for confirmation and nothing else changes |
| BookingManager.Manager.CancelDelete | src/components/admin/BookingManager.tsx:96-100 | Cancel or closing the confirmation drops the pending id and nothing else changes |
| BookingManager.Manager.CloseFeedback | src/components/admin/BookingManager.tsx:88 | the feedback closes and nothing else changes |
| BookingManager.Manager.DeleteBooking | src/components/admin/BookingManager.tsx:68-82 | without a pending id nothing happens; otherwise the delete is issued; success removes exactly that id and failure keeps the list; the pending id is cleared either way |
| MessageCenter.Without | src/components/admin/MessageCenter.tsx:41 | exactly the messages with other ids remain |
| MessageCenter.MarkReadFrame | src/components/admin/MessageCenter.tsx:51 | same length; the message with that id is read and otherwise unchanged; the others are unchanged; nothing becomes unread |
| MessageCenter.MarkReadIdempotent | src/components/admin/MessageCenter.tsx:51 | marking the same message read again changes nothing |
| MessageCenter.DeleteNeverUnreads | src/components/admin/MessageCenter.tsx:41 | deleting never makes a message unread |
| MessageCenter.Center.constructor | src/components/admin/MessageCenter.tsx:17-19 | no messages, loading, nothing selected |
| MessageCenter.Center.ApplyFetch | src/components/admin/MessageCenter.tsx:28-29 | returned rows replace the list, no data keeps it, and loading ends |
| MessageCenter.Center.OpenMessage | src/components/admin/MessageCenter.tsx:45-53 | the message is always selected; an unread one is marked read (write issued, local flag set), an already read one triggers no write; `is_read` never reverts |
| MessageCenter.Center.HandleDelete | src/components/admin/MessageCenter.tsx:36-43 | after confirmation that id leaves the list whatever the database says; deleting the selected message clears the selection, any other selection is kept |
| MessageInbox.Filtered | src/components/admin/MessageInbox.tsx:61-65 | exactly the inquiries whose lower-cased name, e-mail or subject includes the lower-cased term |
| MessageInbox.EmptyTermKeepsAll | src/components/admin/MessageInbox.tsx:61-65 | an empty term keeps every inquiry, in order |
| MessageInbox.SearchIgnoresCase | src/components/admin/MessageInbox.tsx:61-65 | terms that lower-case alike list the same inquiries |
| MessageInbox.SearchKeepsOccurrences | src/components/admin/MessageInbox.tsx:61-65 | each listed inquiry appears as often as in the full list, or not at all |
| MessageInbox.Without | src/components/admin/MessageInbox.tsx:55 | exactly the inquiries with other ids remain |
| MessageInbox.Inbox.constructor | src/components/admin/MessageInbox.tsx:9-16 | no inquiries, loading, empty search, nothing pending, no error |
| MessageInbox.Inbox.ApplyFetch | src/components/admin/MessageInbox.tsx:22-36 | an error keeps the list and sets "Failed to load messages."; rows replace the list; no rows give [] |
| MessageInbox.Inbox.SetSearchTerm | src/components/admin/MessageInbox.tsx:148 | only the search term changes |
| MessageInbox.Inbox.DismissError | src/components/admin/MessageInbox.tsx:123 | the error dialog closes and nothing else changes |
| MessageInbox.Inbox.ConfirmDelete | src/components/admin/MessageInbox.tsx:38-40 | only the id awaiting confirmation is recorded |
| MessageInbox.Inbox.CancelDelete | src/components/admin/MessageInbox.tsx:88 | the recorded id is dropped and nothing else changes |
| MessageInbox.Inbox.HandleDelete | src/components/admin/MessageInbox.tsx:42-59 | without a recorded id nothing happens; otherwise success removes exactly that id and failure keeps the list and sets the error message; both ids are cleared afterwards |
| UserManagement.LowerOrEmpty | src/components/admin/UserManagement.tsx:80-81 | a null field searches as '' and a present one lower-cased |
| UserManagement.Filtered | src/components/admin/UserManagement.tsx:79-83 | exactly the users whose name or e-mail includes the term case-insensitively, or whose id includes it as typed |
| UserManagement.EmptyTermKeepsAll | src/components/admin/UserManagement.tsx:79-83 | an empty term keeps every user, in order |
| UserManagement.NullFieldsSearchAsEmpty | src/components/admin/UserManagement.tsx:80-82 | a user with neither name nor e-mail is found only through the id |
| UserManagement.IdMatchIsCaseSensitive | src/components/admin/UserManagement.tsx:82 | the id "abc" matches "a" but not "A" |
| UserManagement.ReplaceFrame | src/components/admin/UserManagement.tsx:59 | same length; the edited profile stands exactly where its id was and the others are unchanged; replacing twice is replacing once |
| UserManagement.Without | src/components/admin/UserManagement.tsx:73 | exactly the users with other ids remain |
| UserManagement.Users.constructor | src/components/admin/UserManagement.tsx:15-24 | no users, loading, empty search, no dialogs, no feedback |
| UserManagement.Users.ApplyFetch | src/components/admin/UserManagement.tsx:26-37 | rows replace the list only when there was no error and there was data; loading ends |
| UserManagement.Users.SetSearchTerm | src/components/admin/UserManagement.tsx:161 | only the search term changes |
| UserManagement.Users.CloseFeedback | src/components/admin/UserManagement.tsx:89 | the feedback closes and nothing else changes |
| UserManagement.Users.Edit | src/components/admin/UserManagement.tsx:111-146 | only the edited copy changes |
| UserManagement.Users.AskDelete | src/components/admin/UserManagement.tsx:227 | only the user awaiting delete confirmation changes |
| UserManagement.Users.HandleUpdateUser | src/components/admin/UserManagement.tsx:43-63 | no edited user is a no-op; otherwise the update sends name, role and e-mail for its id; success replaces that user and closes the editor; failure keeps the list and the editor open |
| UserManagement.Users.ConfirmDelete | src/components/admin/UserManagement.tsx:65-77 | no user is a no-op; otherwise success removes exactly that id, failure keeps the list, and the dialog is cleared either way |
| ProjectManager.SanitizedGalleries | src/components/admin/ProjectManager.tsx:47-50 | same length; every gallery is an array; an array gallery is kept as it was and anything else becomes [] |
| ProjectManager.SanitizeIdempotent | src/components/admin/ProjectManager.tsx:47-50 | sanitising twice is sanitising once |
| ProjectManager.Filtered | src/components/admin/ProjectManager.tsx:83-86 | exactly the projects whose title or some tag includes the term case-insensitively |
| ProjectManager.DisplayedCountBounded | src/components/admin/ProjectManager.tsx:190 | the displayed filtered count never exceeds the total |
| ProjectManager.TagAloneMatches | src/components/admin/ProjectManager.tsx:85 | one matching tag lists a project whatever its title |
| ProjectManager.EmptyTermKeepsAll | src/components/admin/ProjectManager.tsx:83-86 | an empty term lists every project, in order |
| ProjectManager.Without | src/components/admin/ProjectManager.tsx:73 | exactly the projects with other ids remain |
| ProjectManager.Projects.constructor | src/components/admin/ProjectManager.tsx:25-34 | no projects, loading, not editing, nothing selected or pending |
| ProjectManager.Projects.ApplyFetch | src/components/admin/ProjectManager.tsx:36-54 | returned rows replace the list sanitised; an error or no data keeps it; loading ends |
| ProjectManager.Projects.SetSearchTerm | src/components/admin/ProjectManager.tsx:126 | only the search term changes |
| ProjectManager.Projects.HandleEdit | src/components/admin/ProjectManager.tsx:60-63 | the editor opens on the given project, or in create mode on none |
| ProjectManager.Projects.CancelEdit | src/components/admin/ProjectManager.tsx:95 | the editor closes and nothing else changes |
| ProjectManager.Projects.HandleSaveSuccess | src/components/admin/ProjectManager.tsx:78-81 | the editor closes and the list is fetched again |
| ProjectManager.Projects.AskDelete | src/components/admin/ProjectManager.tsx:179 | only the id awaiting confirmation changes |
| ProjectManager.Projects.HandleDelete | src/components/admin/ProjectManager.tsx:65-76 | no id is a no-op; success removes the project and failure keeps it with an alert; the id is cleared either way |
| BookNow.ValidPhoneIsLength | src/pages/BookNow.tsx:50 | a phone passes exactly when it has at least 10 characters |
| BookNow.InsertForVisitor | src/pages/BookNow.tsx:60-69 | the booking belongs to the visitor, is pending, carries their e-mail or ''; its name falls back from the form to the profile to '' |
| BookNow.NewBookingIsConfirmable | src/pages/BookNow.tsx:68 | every booking the page creates is one the booking manager offers to confirm |
| BookNow.FirstName | src/pages/BookNow.tsx:125 | the thank-you name is the part of the full name before the first space; none without a name |
| BookNow.ScreenFor | src/pages/BookNow.tsx:83-114 | a spinner exactly while checking; nothing without a user; the confirmation exactly on success; the form otherwise |
| BookNow.Page.constructor | src/pages/BookNow.tsx:14-31 | the initial form (project type 'Residential'), idle, no message, checking auth |
| BookNow.Page.SyncUser | src/pages/BookNow.tsx:22-26 | a profile name replaces the form's name; anything else leaves the form |
| BookNow.Page.AuthTimerFires | src/pages/BookNow.tsx:34-44 | the check ends, and the page goes to /login exactly without a user |
| BookNow.Page.SetForm | src/pages/BookNow.tsx:165-234 | only the form changes |
| BookNow.Page.FinishSubmit | src/pages/BookNow.tsx:56-80 | the insert is `InsertFor`; success gives 'success' with no message; an error gives 'error' with its message or "Failed to submit booking request." |
| BookNow.Page.HandleSubmit | src/pages/BookNow.tsx:46-81 | no user is a no-op; a short phone gives 'error' with "Please enter a valid phone number." and no insert; otherwise the insert is issued and the outcome is as in `FinishSubmit`; every insert has a valid phone |
| BookNow.Page.BookAnother | src/pages/BookNow.tsx:135-138 | back to 'idle' with message and date cleared; name, phone and project type are kept |
| BookNow.BookAnotherKeepsContact | src/pages/BookNow.tsx:135-138 | a second booking after 'book another' carries the same name, phone and project type |
| AddReview.AuthorName | src/components/reviews/AddReviewModal.tsx:27 | never empty; a non-empty profile name always wins |
| AddReview.EmailSignsWithLocalPart | src/components/reviews/AddReviewModal.tsx:27 | without a name, `local@domain` signs as `local` |
| AddReview.AnonymousWithoutName | src/components/reviews/AddReviewModal.tsx:27 | without a name, no e-mail or one starting with '@' signs as 'Anonymous' |
| AddReview.AuthorNameSources | src/components/reviews/AddReviewModal.tsx:27 | the signature is the profile name, an '@'-free prefix of the e-mail, or 'Anonymous' |
| AddReview.Dialog.constructor | src/components/reviews/AddReviewModal.tsx:14-17 | rating 5, empty comment, not loading, no success |
| AddReview.Dialog.SetRating | src/components/reviews/AddReviewModal.tsx:64-71 | a star sets the rating, which stays within 1..5, and lights exactly the stars up to it |
| AddReview.Dialog.SetComment | src/components/reviews/AddReviewModal.tsx:82 | only the comment changes |
| AddReview.Dialog.HandleSubmit | src/components/reviews/AddReviewModal.tsx:19-47 | no user is a no-op; otherwise the insert carries the user's id, the author name, the rating and comment, status 'pending'; success is set, failure alerts; the form is unchanged |
| AddReview.Dialog.ResetAfterSuccess | src/components/reviews/AddReviewModal.tsx:35-40 | the success flag clears, the comment empties and the rating returns to 5 |
| AddReview.NewReviewAwaitsModeration | src/components/reviews/AddReviewModal.tsx:30 | a new review is listed in the moderator's default pending view |
| AdminDashboard.RedirectFor | src/pages/AdminDashboard.tsx:34-42 | no redirect while loading; then /login exactly without a user, / exactly for a user who is not admin |
| AdminDashboard.ScreenFor | src/pages/AdminDashboard.tsx:44-45 | the security loader exactly while loading; nothing for a non-admin; the panel exactly for an admin |
| AdminDashboard.PanelOnlyForAdmins | src/pages/AdminDashboard.tsx:34-45 | in a consistent session the panel is shown only to a loaded admin profile, and whoever is redirected sees nothing |
| AdminDashboard.FindItem | src/pages/AdminDashboard.tsx:58 | `find(item => pathname.includes(item.id))`: the first entry whose id the path includes, or none when no id occurs |
| AdminDashboard.TabAndLabelAgree | src/pages/AdminDashboard.tsx:47-59 | tab and heading come from the same entry; with no match they are 'overview' and 'Overview' |
| AdminDashboard.EachLinkSelectsItself | src/pages/AdminDashboard.tsx:47-59 | following an entry's own path highlights that entry and shows its caption |
| AdminRoute.Guard | src/components/auth/AdminRoute.tsx:10-24 | the loader exactly while loading; a replacing redirect to /login carrying the location exactly when there is no user or no admin; the outlet exactly for a loaded admin |
| AdminRoute.OutletOnlyForAdmins | src/components/auth/AdminRoute.tsx:19-24 | in a consistent session only a loaded admin profile reaches the outlet, where the dashboard shows its panel and stays |
| AdminRoute.GuardAndDashboardTargets | src/components/auth/AdminRoute.tsx:19-21 | a signed-in non-admin is sent to /login by the guard, where the dashboard would send them to /; nobody signed in goes to /login in both |
| Seo.SiteTitle | src/components/seo/SEO.tsx:20 | the hero title when set, else "Precission"; never empty |
| Seo.SiteImage | src/components/seo/SEO.tsx:22 | the hero image when set, else the fixed photo |
| Seo.MetaTitleShape | src/components/seo/SEO.tsx:24 | a page title comes first and the title ends with the site title; without one, the title is the site title followed by " ", a bar, " Architectural Studio" |
| Seo.SocialTagsAgree | src/components/seo/SEO.tsx:32-48 | Open Graph and Twitter tags repeat the title, description and image; the site name is the site title; the card is the large image one; the type defaults to 'website' |
| Seo.DefaultsWithoutProps | src/components/seo/SEO.tsx:16-26 | a page passing nothing gets the suffixed site title, the studio description, the site image and type 'website' |
| Seo.PropsOverrideDefaults | src/components/seo/SEO.tsx:25-26 | non-empty page values win over the defaults |
| Analytics.OrZero | src/components/admin/AnalyticsHome.tsx:51-53 | a null count is 0, any other count itself |
| Analytics.UsageSumConcat | src/components/admin/AnalyticsHome.tsx:48 | the usage sum of a concatenation is the sum of the parts |
| Analytics.NullsAddNothing | src/components/admin/AnalyticsHome.tsx:48 | a null `used_count` adds nothing |
| Analytics.UsageSumBounds | src/components/admin/AnalyticsHome.tsx:48 | with no negative counts the sum is non-negative and at least each count |
| Analytics.UsedCounts | src/components/admin/AnalyticsHome.tsx:44 | the `used_count` column, one value per coupon |
| Analytics.FailuresShowZero | src/components/admin/AnalyticsHome.tsx:48-54 | a failed count shows 0, and so does a missing coupon column |
| Analytics.PendingMatchesModeratorView | src/components/admin/AnalyticsHome.tsx:43 | the pending card counts exactly the reviews the moderator's default view lists |
| Analytics.CouponUsageBounds | src/components/admin/AnalyticsHome.tsx:48 | over a table with no negative counts the usage card is non-negative and at least any single coupon's count |
| Analytics.Overview.constructor | src/components/admin/AnalyticsHome.tsx:29-35 | all four stats start at 0, loading |
| Analytics.Overview.ApplyResults | src/components/admin/AnalyticsHome.tsx:50-56 | the stats become `StatsFrom` of the four answers and loading ends |

## Left out

- Remote calls: every Supabase query, insert, update, delete, storage upload and auth call is reduced to its answer, passed in as a parameter. Their latency, retries and the `Promise.all` fan-out are not modelled. Each handler's reaction is sequential.
- `limit(1)` on a duplicated code returns an unspecified row. The lookup is modelled as "some matching row, or none".
- React rendering, animation, CSS, modal markup, `confirm` dialogs, `alert` calls and `navigate` are not modelled as effects. A confirmation is a boolean input; an alert is a field; a redirect is a return value.
- The 100 ms timer on the booking page and the 2.5 s timer of the review dialog are not modelled as timers. Each callback is a method the caller invokes.
- Dates: parsing and formatting of date strings is replaced by integer instants and day numbers. The time-zone offset is a constant parameter, and daylight saving is not modelled. This covers the subscriber CSV file name with its date, the `created_at` display and `new Date().getFullYear()` (a parameter).
- The coupon usage bar's floating-point width and the 1-100 discount hint are not modelled. The hint is only an input attribute, and nothing enforces it.
- `Date.now`/`Math.random` upload file names and the upload paths are left out; an upload is its resulting URLs or error.
- Unicode: `toLowerCase`/`toUpperCase` are ASCII-only and `\w` is ASCII. String length counts characters rather than UTF-16 code units.
- The CSV download itself is left out: the Blob, the object URL and the click. Only its text is modelled.
- The coupon manager's user list for the target dropdown, which `fetchData` also reloads, is not modelled. The form's target is a plain id.
- `getUserName` in the coupon manager and the other display-only helpers are left out. They only format names for the cards.
- SettingsManager.Settings.HandleLocationChange: it does not model that the shallow array copy shares its location objects with the store's settings row, so in the source the in-place write also changes the cached settings until the next fetch. The model copies the entry.
- BookNow.Page.AuthTimerFires: it returns whether a redirect is due instead of performing `navigate`; `window.location`, the router state and the `Helmet` tags are browser concerns.
- BookNow: the status 'error' is named `Failed`. `Status` names the four states; nothing else differs.
- The page URL tags of the metadata component (`og:url` from `window.location`) are left out.
- Analytics.Overview.ApplyResults: the counts are assumed to be integers. A `reduce` over non-numeric values, and JavaScript's number precision, are not modelled.
- SettingsManager.Settings.HandleSave: it does not perform the `fetchSettings()` refresh after a successful update; that refresh is the caller composing `Session.Store.FetchSettings` with `SettingsManager.Settings.SyncFromSettings`, which is how the screen's effect re-reads the row.
- Session.Store.CheckUser: the lookup is one answer. The two awaits (session, then profile) and a concurrent `signOut` between them are not modelled.
- The blog, testimonial and content editors, the profile pages, the contact and newsletter forms, and the presentation-only pages are not part of this model.

## Findings

| source | as written | input that shows it | evidently intended | confidence | as-written member | corrected member |
|---|---|---|---|---|---|---|
| src/components/admin/CouponManager.tsx:81-109 | `handleEdit` shows the expiry as `toISOString().split('T')[0]`, the UTC day. The save stores the end of the chosen day in local time. | A browser at UTC-5 edits a coupon expiring at 1970-01-01 23:59:59 local time. The stored instant is 1970-01-02T04:59:59Z, so the form shows 1970-01-02, and saving unchanged moves the expiry one day later. | The form shows the local day of the stored expiry, so an edit-and-save without touching the date keeps it. | not executed | CouponManager.UtcDayShiftsWest, CouponManager.UtcDayShiftExample | CouponManager.LocalDayOfEndOfDay, CouponManager.CouponManager.HandleEdit |
