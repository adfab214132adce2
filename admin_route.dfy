/** The guard in front of every admin route: a spinner while the session
    loads, a replacing redirect to the login page, remembering where the
    visitor was going, for anyone who is not a signed-in admin, and the
    nested admin page otherwise. */
module AdminRoute {
  import opened Common
  import opened Session
  import AdminDashboard

  datatype Decision =
    | Loader
      /** `<Navigate to="/login" state={{ from: location }} replace />`. */
    | RedirectToLogin(to: string, from: string, replace: bool)
    | Outlet

  const LoginPath := "/login"

  function Guard(isLoading: bool, user: Option<Profile>, isAdmin: bool, location: string): (d: Decision)
    ensures d == Loader <==> isLoading
    ensures d.RedirectToLogin? <==> !isLoading && (user.None? || !isAdmin)
    ensures d.RedirectToLogin? ==> d.to == LoginPath && d.from == location && d.replace
    ensures d == Outlet <==> !isLoading && user.Some? && isAdmin
  {
    if isLoading then Loader
    else if user.None? || !isAdmin then RedirectToLogin(LoginPath, location, true)
    else Outlet
  }

  /** In a consistent session the guard lets through exactly the loaded
      admin profiles, and the dashboard it lets through shows its panel and
      never redirects. */
  lemma OutletOnlyForAdmins(isLoading: bool, user: Option<Profile>, isAdmin: bool, location: string)
    requires AdminConsistent(user, isAdmin)
    ensures Guard(isLoading, user, isAdmin, location) == Outlet <==>
      !isLoading && user.Some? && user.value.role == Admin && isAdmin
    ensures Guard(isLoading, user, isAdmin, location) == Outlet ==>
      AdminDashboard.ScreenFor(isLoading, isAdmin) == AdminDashboard.Panel &&
      AdminDashboard.RedirectFor(isLoading, user, isAdmin) == AdminDashboard.Stay
  {
  }

  /** The guard and the dashboard disagree on one case only: a signed-in
      visitor who is not an admin is sent to the login page by the guard,
      while the dashboard's own check would send them home. Both agree that
      nobody signed in goes to the login page. */
  lemma GuardAndDashboardTargets(user: Option<Profile>, isAdmin: bool, location: string)
    ensures user.Some? && !isAdmin ==>
      Guard(false, user, isAdmin, location).RedirectToLogin? &&
      AdminDashboard.RedirectFor(false, user, isAdmin) == AdminDashboard.ToHome
    ensures user.None? ==>
      Guard(false, user, isAdmin, location).RedirectToLogin? &&
      AdminDashboard.RedirectFor(false, user, isAdmin) == AdminDashboard.ToLogin
    ensures user.Some? && isAdmin ==>
      Guard(false, user, isAdmin, location) == Outlet &&
      AdminDashboard.RedirectFor(false, user, isAdmin) == AdminDashboard.Stay
  {
  }
}
