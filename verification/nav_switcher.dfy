/**
 * The navbar switch: nothing while the session probe runs, then the
 * private navbar for signed-in users and the public one for guests.
 */
module NavSwitcher {
  import AuthContext
  import HomePage

  datatype Navbar = NoNavbar | PrivateNavbar | PublicNavbar

  function Choose(s: AuthContext.AuthState): (n: Navbar)
    ensures n == NoNavbar <==> s.loading
    ensures n == PrivateNavbar <==> !s.loading && s.isAuthenticated
    ensures n == PublicNavbar <==> !s.loading && !s.isAuthenticated
  {
    if s.loading then NoNavbar else if s.isAuthenticated then PrivateNavbar else PublicNavbar
  }

  /** Only the two flags matter: the user record never changes the
      navbar. */
  lemma OnlyFlagsMatter(s: AuthContext.AuthState, t: AuthContext.AuthState)
    requires s.loading == t.loading && s.isAuthenticated == t.isAuthenticated
    ensures Choose(s) == Choose(t)
  {
  }

  /** The navbar and the home page agree: the public navbar exactly over
      the public view, the private one over either private view. */
  lemma AgreesWithHomePage(s: AuthContext.AuthState)
    ensures Choose(s) == PublicNavbar <==> HomePage.Render(s) == HomePage.PublicInClientLayout
    ensures Choose(s) == PrivateNavbar <==>
      HomePage.Render(s) in {HomePage.PrivateInAdminLayout, HomePage.PrivateInClientLayout}
  {
  }
}
