/** The `/admin` route: which view the signed-in state selects. */
module AdminPage {
  import opened Wrappers

  datatype User = User(email: string)

  /** What `useAuth()` reports. */
  datatype AuthState = AuthState(loading: bool, user: Option<User>, isAdmin: bool)

  datatype AdminView = Spinner | Login | AccessDenied(email: string) | Dashboard

  /** Loading wins over everything, then a missing user, then a missing
      admin role; only an admin reaches the dashboard. */
  function AdminGate(a: AuthState): (v: AdminView)
    ensures v == Spinner <==> a.loading
    ensures v == Login <==> !a.loading && a.user.None?
    ensures v.AccessDenied? <==> !a.loading && a.user.Some? && !a.isAdmin
    ensures v.AccessDenied? ==> v.email == a.user.value.email
    ensures v == Dashboard <==> !a.loading && a.user.Some? && a.isAdmin
  {
    if a.loading then Spinner
    else if a.user.None? then Login
    else if !a.isAdmin then AccessDenied(a.user.value.email)
    else Dashboard
  }
}
