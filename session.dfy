/** The application's global session store: the signed-in profile, the site
    settings row, the admin flag and the loading flag, and the actions that
    change them. Every remote call (auth session, profile and settings
    queries, sign-in and sign-up) is an input describing what it returned. */
module Session {
  import opened Common

  datatype Role = Admin | Member

  /** A row of `profiles`; `role` is `'admin'` or `'user'` (here `Member`). */
  datatype Profile = Profile(id: string, email: Option<string>, role: Role, fullName: Option<string>)

  /** One entry of the settings' list of studio locations. The editor only
      touches `city` and `country`; the other keys of a stored entry are
      carried along, and an entry the editor adds has none of them. */
  datatype Location = Location(
    city: string,
    country: string,
    timezone: Option<string>,
    mapUrl: Option<string>,
    coords: Option<string>)

  /** The fields of the `site_settings` row that the modelled components read. */
  datatype SiteSettings = SiteSettings(
    id: string,
    heroTitle: string,
    heroImageUrl: Option<string>,
    adminName: Option<string>,
    adminEmail: Option<string>,
    adminPhone: Option<string>,
    googleMapsUrl: Option<string>,
    globalLocations: Option<seq<Location>>)

  /** What the remote calls inside `checkUser` produced. */
  datatype SessionLookup =
    | NoSession                        // no session, or a session without a user
    | ProfileError                     // the profile query returned an error
    | ProfileMissing                   // no error, and no profile row
    | ProfileFound(profile: Profile)   // the profile row of the session's user
    | Threw                            // an exception anywhere in the calls

  /** What the `site_settings` query inside `fetchSettings` produced. */
  datatype SettingsFetch = FetchError | FetchData(data: Option<SiteSettings>) | FetchThrew

  /** What the sign-in or sign-up call of the auth provider produced. */
  datatype AuthResult = AuthOk | AuthError(message: string)

  /** The store's invariant: the admin flag is only ever set for a loaded admin profile. */
  predicate AdminConsistent(user: Option<Profile>, isAdmin: bool)
  {
    isAdmin ==> user.Some? && user.value.role == Admin
  }

  /** The `user` and `isAdmin` that `checkUser` leaves after its calls produce `r`. */
  function AfterLookup(user: Option<Profile>, isAdmin: bool, r: SessionLookup): (s: (Option<Profile>, bool))
    ensures AdminConsistent(user, isAdmin) ==> AdminConsistent(s.0, s.1)
    ensures r.ProfileFound? ==> s.0 == Some(r.profile) && (s.1 <==> r.profile.role == Admin)
    ensures r.NoSession? || r.ProfileError? || r.Threw? ==> s.0 == None && !s.1
    ensures r.ProfileMissing? ==> s == (user, isAdmin)
  {
    match r
    case ProfileFound(p) => (Some(p), p.role == Admin)
    case ProfileMissing => (user, isAdmin)
    case _ => (None, false)
  }

  /** The settings `fetchSettings` leaves: replaced by returned data, otherwise kept. */
  function AfterFetch(settings: Option<SiteSettings>, r: SettingsFetch): (s: Option<SiteSettings>)
    ensures r.FetchData? && r.data.Some? ==> s == r.data
    ensures !(r.FetchData? && r.data.Some?) ==> s == settings
  {
    if r.FetchData? && r.data.Some? then r.data else settings
  }

  class Store {
    var user: Option<Profile>
    var settings: Option<SiteSettings>
    var isAdmin: bool
    var isLoading: bool

    ghost predicate Valid()
      reads this
    {
      AdminConsistent(user, isAdmin)
    }

    /** The store's initial state. */
    constructor ()
      ensures Valid()
      ensures user == None && settings == None && !isAdmin && isLoading
    {
      user, settings, isAdmin, isLoading := None, None, false, true;
    }

    method FetchSettings(r: SettingsFetch)
      modifies this
      ensures settings == AfterFetch(old(settings), r)
      ensures user == old(user) && isAdmin == old(isAdmin) && isLoading == old(isLoading)
    {
      if r.FetchData? && r.data.Some? {
        settings := r.data;
      }
    }

    /** The part of `checkUser` before its first remote call. */
    method BeginCheckUser()
      requires Valid()
      modifies this
      ensures Valid() && isLoading
      ensures user == old(user) && isAdmin == old(isAdmin) && settings == old(settings)
    {
      isLoading := true;
    }

    /** The part of `checkUser` after its remote calls produced `r`; the
        `finally` clause clears the loading flag on every path. */
    method FinishCheckUser(r: SessionLookup)
      requires Valid()
      modifies this
      ensures Valid() && !isLoading
      ensures (user, isAdmin) == AfterLookup(old(user), old(isAdmin), r)
      ensures settings == old(settings)
    {
      match r {
        case ProfileFound(p) =>
          user, isAdmin := Some(p), p.role == Admin;
        case ProfileMissing =>
        case _ =>
          user, isAdmin := None, false;
      }
      isLoading := false;
    }

    method CheckUser(r: SessionLookup)
      requires Valid()
      modifies this
      ensures Valid() && !isLoading
      ensures (user, isAdmin) == AfterLookup(old(user), old(isAdmin), r)
      ensures settings == old(settings)
    {
      BeginCheckUser();
      FinishCheckUser(r);
    }

    /** Shared tail of `signUp` and `signIn`: an auth error is returned and
        the store is untouched; otherwise `checkUser` runs. */
    method CompleteAuth(auth: AuthResult, r: SessionLookup) returns (error: Option<string>)
      requires Valid()
      modifies this
      ensures Valid()
      ensures auth.AuthError? ==> error == Some(auth.message)
      ensures auth.AuthError? ==> user == old(user) && isAdmin == old(isAdmin) && isLoading == old(isLoading)
      ensures auth.AuthOk? ==> error == None && !isLoading
      ensures auth.AuthOk? ==> (user, isAdmin) == AfterLookup(old(user), old(isAdmin), r)
      ensures settings == old(settings)
    {
      if auth.AuthError? {
        return Some(auth.message);
      }
      CheckUser(r);
      error := None;
    }

    method SignUp(auth: AuthResult, r: SessionLookup) returns (error: Option<string>)
      requires Valid()
      modifies this
      ensures Valid()
      ensures auth.AuthError? ==> error == Some(auth.message)
      ensures auth.AuthError? ==> user == old(user) && isAdmin == old(isAdmin) && isLoading == old(isLoading)
      ensures auth.AuthOk? ==> error == None && !isLoading
      ensures auth.AuthOk? ==> (user, isAdmin) == AfterLookup(old(user), old(isAdmin), r)
      ensures settings == old(settings)
    {
      error := CompleteAuth(auth, r);
    }

    method SignIn(auth: AuthResult, r: SessionLookup) returns (error: Option<string>)
      requires Valid()
      modifies this
      ensures Valid()
      ensures auth.AuthError? ==> error == Some(auth.message)
      ensures auth.AuthError? ==> user == old(user) && isAdmin == old(isAdmin) && isLoading == old(isLoading)
      ensures auth.AuthOk? ==> error == None && !isLoading
      ensures auth.AuthOk? ==> (user, isAdmin) == AfterLookup(old(user), old(isAdmin), r)
      ensures settings == old(settings)
    {
      error := CompleteAuth(auth, r);
    }

    method SignOut()
      requires Valid()
      modifies this
      ensures Valid()
      ensures user == None && !isAdmin
      ensures settings == old(settings) && isLoading == old(isLoading)
    {
      user, isAdmin := None, false;
    }
  }

  /** An admin flag can only be raised by a profile lookup that found an admin:
      no other lookup outcome, from a consistent state without the flag, sets it. */
  lemma AdminOnlyFromAdminProfile(user: Option<Profile>, r: SessionLookup)
    requires AfterLookup(user, false, r).1
    ensures r.ProfileFound? && r.profile.role == Admin
  {
  }
}
