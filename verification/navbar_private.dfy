/**
 * The navbar of signed-in users: its own profile fetch, the avatar it
 * derives from that profile, the admin links, and the sign-out button.
 */
module NavbarPrivate {
  import opened Wrappers
  import opened Http
  import opened Ui
  import JsText
  import DashboardLayout

  /** The profile fields the navbar reads; each may be missing. */
  datatype User = User(photo: Option<string>, fullName: Option<string>, role: Option<int>)

  /** `fetchUser` on mount: the body's `user` (missing when absent) on
      success; a failure keeps the current value. */
  function FetchUser(current: Option<User>, reply: Reply<Option<User>>): (u: Option<User>)
    ensures reply.Ok? ==> u == reply.body
    ensures reply.Fail? ==> u == current
  {
    match reply
    case Ok(body) => body
    case Fail(_) => current
  }

  /** The navbar starts without a user, so a failed fetch leaves it
      without one. */
  lemma FailedFetchLeavesNoUser(f: Fault)
    ensures FetchUser(None, Fail(f)).None?
  {
  }

  datatype Avatar = Photo(src: string) | FirstName(text: string) | Unknown

  /** `renderUserAvatar`: the photo after the API base when there is one;
      else the name's first space-separated word; else a question mark. */
  function RenderAvatar(base: string, user: Option<User>): (a: Avatar)
    ensures user.Some? && JsText.Truthy(user.value.photo) ==> a == Photo(base + user.value.photo.value)
    ensures (user.None? || !JsText.Truthy(user.value.photo)) && user.Some? && JsText.Truthy(user.value.fullName) ==>
      && a.FirstName?
      && var name := user.value.fullName.value;
      && a.text <= name && ' ' !in a.text
      && (|a.text| == |name| || name[|a.text|] == ' ')
    ensures (user.None? || (!JsText.Truthy(user.value.photo) && !JsText.Truthy(user.value.fullName))) ==> a == Unknown
  {
    match user
    case None => Unknown
    case Some(u) =>
      if JsText.Truthy(u.photo) then Photo(base + u.photo.value)
      else if JsText.Truthy(u.fullName) then
        JsText.FirstFieldIsPrefix(u.fullName.value, ' ');
        FirstName(JsText.SplitOn(u.fullName.value, ' ')[0])
      else Unknown
  }

  /** A name of two or more words shows its first word. */
  lemma FirstWordShown(base: string, first: string, rest: string, role: Option<int>)
    requires first != "" && ' ' !in first
    ensures RenderAvatar(base, Some(User(None, Some(first + " " + rest), role))) == FirstName(first)
  {
    var name := first + " " + rest;
    var t := RenderAvatar(base, Some(User(None, Some(name), role))).text;
    assert forall i :: 0 <= i < |first| ==> name[i] == first[i];
    assert name[|first|] == ' ';
    assert |t| == |first|;
    assert name[..|first|] == first;
  }

  /** `user?.role === 0` */
  predicate IsAdmin(user: Option<User>) {
    user.Some? && user.value.role == Some(0)
  }

  const MainLinks := ["/", "/bloglist", "/saved", "/contact"]

  /** The desktop bar, the dropdown and the mobile menu, each with the
      admin link appended for admins. */
  function DesktopLinks(user: Option<User>): (links: seq<string>)
    ensures IsAdmin(user) ==> links == MainLinks + ["/dashboard"]
    ensures !IsAdmin(user) ==> links == MainLinks
  {
    MainLinks + (if IsAdmin(user) then ["/dashboard"] else [])
  }

  function DropdownLinks(user: Option<User>): (links: seq<string>)
    ensures IsAdmin(user) ==> links == ["/profile", "/dashboard"]
    ensures !IsAdmin(user) ==> links == ["/profile"]
  {
    ["/profile"] + (if IsAdmin(user) then ["/dashboard"] else [])
  }

  function MobileLinks(user: Option<User>): (links: seq<string>)
    ensures links == DesktopLinks(user)
  {
    MainLinks + (if IsAdmin(user) then ["/dashboard"] else [])
  }

  /** The dashboard link is in all three menus or in none, and it is there
      exactly for a user whose role is 0. */
  lemma AdminLinkEverywhereOrNowhere(user: Option<User>)
    ensures "/dashboard" in DesktopLinks(user) <==> IsAdmin(user)
    ensures "/dashboard" in DropdownLinks(user) <==> IsAdmin(user)
    ensures "/dashboard" in MobileLinks(user) <==> IsAdmin(user)
  {
    if !IsAdmin(user) {
      assert DesktopLinks(user) == MainLinks;
      assert "/dashboard" != "/" && "/dashboard" != "/bloglist" && "/dashboard" != "/saved" && "/dashboard" != "/contact";
    }
  }

  /** `handleSignout`: cancelling only shows a notice; after a confirmed
      request that does not throw the page reloads, preceded by the success
      toast and the push to "/" when the answer is 200; a thrown request
      shows the error toast and does not reload. */
  function HandleSignout(confirmed: bool, reply: Reply<int>): (r: DashboardLayout.SignOut)
    ensures r.sent <==> confirmed
    ensures !confirmed ==> r.effects == [ToastNotice("Sign out cancelled")]
    ensures confirmed && reply == Ok(200) ==> r.effects == [ToastSuccess("Signed out successfully"), Navigate("/"), Reload]
    ensures confirmed && reply.Ok? && reply.body != 200 ==> r.effects == [Reload]
    ensures confirmed && reply.Fail? ==> r.effects == [ToastError("Sign out failed")]
  {
    if !confirmed then DashboardLayout.SignOut(false, [ToastNotice("Sign out cancelled")])
    else match reply
      case Ok(status) =>
        if status == 200 then DashboardLayout.SignOut(true, [ToastSuccess("Signed out successfully"), Navigate("/"), Reload])
        else DashboardLayout.SignOut(true, [Reload])
      case Fail(_) => DashboardLayout.SignOut(true, [ToastError("Sign out failed")])
  }

  /** The two sign-out buttons disagree on a non-200 answer: the navbar
      reloads the page, the dashboard sidebar does nothing. */
  lemma SignOutButtonsDisagreeOffStatus200(status: int)
    requires status != 200
    ensures Reload in HandleSignout(true, Ok(status)).effects
    ensures DashboardLayout.HandleSignOut(true, Ok(status)).effects == []
  {
  }
}
