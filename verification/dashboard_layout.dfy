/**
 * The admin dashboard's sidebar: which link is highlighted for a path, and
 * the sign-out button with its confirmation dialog.
 */
module DashboardLayout {
  import opened Wrappers
  import opened Http
  import opened Ui
  import JsText

  datatype Link = DashboardLink | UsersLink | BlogsLink

  /** The overview is active on its exact path; each section is active on
      any path that starts with its own. */
  predicate IsActive(link: Link, pathname: string) {
    match link
    case DashboardLink => pathname == "/dashboard"
    case UsersLink => JsText.StartsWith(pathname, "/dashboard/users")
    case BlogsLink => JsText.StartsWith(pathname, "/dashboard/blogs")
  }

  /** The active links of a path, in sidebar order. */
  function ActiveLinks(pathname: string): (links: seq<Link>)
    ensures forall l :: l in links <==> IsActive(l, pathname)
    ensures |links| <= 1
  {
    AtMostOneActive(pathname);
    if IsActive(DashboardLink, pathname) then [DashboardLink]
    else if IsActive(UsersLink, pathname) then [UsersLink]
    else if IsActive(BlogsLink, pathname) then [BlogsLink]
    else []
  }

  /** No path highlights two links. */
  lemma AtMostOneActive(pathname: string)
    ensures !(IsActive(DashboardLink, pathname) && IsActive(UsersLink, pathname))
    ensures !(IsActive(DashboardLink, pathname) && IsActive(BlogsLink, pathname))
    ensures !(IsActive(UsersLink, pathname) && IsActive(BlogsLink, pathname))
  {
    assert "/dashboard/users"[11] != "/dashboard/blogs"[11];
    SamePrefixLength(pathname, "/dashboard/users", "/dashboard/blogs");
  }

  /** Two prefixes of one string with the same length are equal. */
  lemma SamePrefixLength(s: string, a: string, b: string)
    requires |a| == |b|
    ensures JsText.StartsWith(s, a) && JsText.StartsWith(s, b) ==> a == b
  {
  }

  /** A section stays highlighted on its sub-pages, and the overview does
      not. */
  lemma SectionCoversSubpages(rest: string)
    ensures IsActive(UsersLink, "/dashboard/users" + rest)
    ensures IsActive(BlogsLink, "/dashboard/blogs" + rest)
    ensures rest != "" ==> !IsActive(DashboardLink, "/dashboard/users" + rest)
  {
    assert ("/dashboard/users" + rest)[..16] == "/dashboard/users";
    assert ("/dashboard/blogs" + rest)[..16] == "/dashboard/blogs";
  }

  /** The outcome of one click on "Sign Out". */
  datatype SignOut = SignOut(sent: bool, effects: seq<Effect>)

  /** `handleSignOut`: cancelling only shows a notice; confirming posts the
      sign-out, and only a 200 answer shows the success toast and moves to
      "/" half a second later; a thrown request shows the error toast. */
  function HandleSignOut(confirmed: bool, reply: Reply<int>): (r: SignOut)
    ensures r.sent <==> confirmed
    ensures !confirmed ==> r.effects == [ToastNotice("Sign out cancelled")]
    ensures confirmed && reply == Ok(200) ==> r.effects == [ToastSuccess("Signed out successfully"), NavigateLater("/")]
    ensures confirmed && reply.Ok? && reply.body != 200 ==> r.effects == []
    ensures confirmed && reply.Fail? ==> r.effects == [ToastError("Sign out failed")]
  {
    if !confirmed then SignOut(false, [ToastNotice("Sign out cancelled")])
    else match reply
      case Ok(status) =>
        if status == 200 then SignOut(true, [ToastSuccess("Signed out successfully"), NavigateLater("/")])
        else SignOut(true, [])
      case Fail(_) => SignOut(true, [ToastError("Sign out failed")])
  }

  /** The page is left exactly when the user confirmed and the server
      answered 200. */
  lemma LeavesOnlyOn200(confirmed: bool, reply: Reply<int>)
    ensures Navigates(HandleSignOut(confirmed, reply).effects) <==> confirmed && reply == Ok(200)
  {
    var effects := HandleSignOut(confirmed, reply).effects;
    if confirmed && reply == Ok(200) {
      assert effects[1].NavigateLater?;
    }
  }
}
