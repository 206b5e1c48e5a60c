/**
 * The wrapper of every admin page: it waits for the session probe, sends
 * anyone who is not an authenticated admin home, keeps admins inside the
 * dashboard, and renders its children only for admins.
 */
module AdminLayout {
  import opened Wrappers
  import JsText
  import AuthContext

  /** `isAuthenticated && user?.role === 0` */
  predicate IsAdmin(s: AuthContext.AuthState) {
    s.isAuthenticated && s.user.Some? && s.user.value.role == 0
  }

  /** What one run of the layout's effect does: the path it pushes, if any,
      and the value of the "still checking" flag afterwards. */
  datatype Check = Check(push: Option<string>, checking: bool)

  /** The effect, re-run whenever the session or the path changes: nothing
      while the probe is pending; then non-admins go to "/", admins outside
      "/dashboard…" go to "/dashboard", and the admin check is over. */
  function RunEffect(s: AuthContext.AuthState, pathname: string, checking: bool): (r: Check)
    ensures s.loading ==> r == Check(None, checking)
    ensures !s.loading ==> !r.checking
    ensures !s.loading && !IsAdmin(s) ==> r.push == Some("/")
    ensures !s.loading && IsAdmin(s) ==>
      && (r.push == Some("/dashboard") <==> !JsText.StartsWith(pathname, "/dashboard"))
      && (r.push.None? <==> JsText.StartsWith(pathname, "/dashboard"))
  {
    if s.loading then Check(None, checking)
    else if !IsAdmin(s) then Check(Some("/"), false)
    else if !JsText.StartsWith(pathname, "/dashboard") then Check(Some("/dashboard"), false)
    else Check(None, false)
  }

  datatype View = Spinner | Nothing | Children

  /** The spinner while the probe or the admin check is pending, then the
      children for admins and nothing for everyone else. */
  function Render(s: AuthContext.AuthState, checking: bool): (v: View)
    ensures v == Spinner <==> s.loading || checking
    ensures v == Children <==> !s.loading && !checking && IsAdmin(s)
    ensures v == Nothing <==> !s.loading && !checking && !IsAdmin(s)
  {
    if s.loading || checking then Spinner
    else if !IsAdmin(s) then Nothing
    else Children
  }

  /** From mount, the children appear only once the probe settled on an
      admin; whoever else arrives sees the spinner or nothing and is sent
      to "/". */
  lemma ChildrenOnlyForAdmins(s: AuthContext.AuthState, pathname: string)
    ensures var c := RunEffect(s, pathname, true);
      && (Render(s, c.checking) == Children ==> IsAdmin(s) && !s.loading)
      && (!s.loading && !IsAdmin(s) ==> Render(s, c.checking) == Nothing && c.push == Some("/"))
  {
  }

  /** The redirect settles: after an admin is pushed to "/dashboard", the
      effect re-runs there and pushes nothing more. */
  lemma RedirectSettles(s: AuthContext.AuthState, pathname: string, checking: bool)
    requires !s.loading && IsAdmin(s)
    requires RunEffect(s, pathname, checking).push == Some("/dashboard")
    ensures RunEffect(s, "/dashboard", false).push.None?
  {
  }

  /** The prefix test is textual: "/dashboardx" counts as inside. */
  lemma PrefixIsTextual(s: AuthContext.AuthState)
    requires !s.loading && IsAdmin(s)
    ensures RunEffect(s, "/dashboardx", false).push.None?
    ensures RunEffect(s, "/dash", false).push == Some("/dashboard")
  {
    assert "/dashboardx"[..|"/dashboard"|] == "/dashboard";
  }
}
