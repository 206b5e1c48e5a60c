/**
 * The home page: a loading text while the session probe runs, then the
 * public landing view for guests, the private view inside the admin layout
 * (and a push to the dashboard) for admins, and the private view for every
 * other signed-in user.
 */
module HomePage {
  import opened Wrappers
  import AuthContext
  import AdminLayout

  datatype View = LoadingText | PublicInClientLayout | PrivateInAdminLayout | PrivateInClientLayout

  /** The page's own effect: signed-in admins are pushed to "/dashboard". */
  function Redirect(s: AuthContext.AuthState): (push: Option<string>)
    ensures push.Some? <==> !s.loading && AdminLayout.IsAdmin(s)
    ensures push.Some? ==> push.value == "/dashboard"
  {
    if !s.loading && s.isAuthenticated && s.user.Some? && s.user.value.role == 0 then Some("/dashboard") else None
  }

  function Render(s: AuthContext.AuthState): (v: View)
    ensures s.loading <==> v == LoadingText
    ensures v == PublicInClientLayout <==> !s.loading && !s.isAuthenticated
    ensures v == PrivateInAdminLayout <==> !s.loading && AdminLayout.IsAdmin(s)
    ensures v == PrivateInClientLayout <==> !s.loading && s.isAuthenticated && !AdminLayout.IsAdmin(s)
  {
    if s.loading then LoadingText
    else if !s.isAuthenticated then PublicInClientLayout
    else if s.user.Some? && s.user.value.role == 0 then PrivateInAdminLayout
    else PrivateInClientLayout
  }

  /** An admin on "/" is sent to "/dashboard" by the page and, once the
      layout's check ran, by the admin layout too, which renders the
      private view meanwhile. */
  lemma AdminHomeAgreesWithLayout(s: AuthContext.AuthState, checking: bool)
    requires Render(s) == PrivateInAdminLayout
    ensures AdminLayout.RunEffect(s, "/", checking).push == Redirect(s) == Some("/dashboard")
    ensures AdminLayout.Render(s, AdminLayout.RunEffect(s, "/", checking).checking) == AdminLayout.Children
  {
  }

  /** A session flagged as signed in whose user did not load gets the
      ordinary private view and no redirect. */
  lemma MissingUserIsNotAdmin(s: AuthContext.AuthState)
    requires !s.loading && s.isAuthenticated && s.user.None?
    ensures Render(s) == PrivateInClientLayout && Redirect(s).None?
  {
  }
}
