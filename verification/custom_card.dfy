/**
 * The bookmark button of a blog card: the guard sequence of its click
 * handler and the title and icon that reflect the saved state.
 */
module CustomCard {
  import opened Wrappers
  import opened Http
  import opened Ui
  import SavedBlogsContext

  /** What one click did: the saved ids afterwards, the request sent to the
      server (if any) and the effects shown to the user. */
  datatype Click = Click(ids: seq<int>, sent: Option<SavedBlogsContext.SaveRequest>, effects: seq<Effect>)

  datatype Icon = FilledBookmark | OutlineBookmark

  /** The properties a list page hands to a card; `None` is a `null` URL. */
  datatype CardProps = CardProps(
    image: Option<string>, category: string, title: string, description: string,
    authorImage: Option<string>, authorName: string, authorId: int,
    date: string, readTime: string, blogId: int)

  /** `handleToggle`: nothing while the session is loading; a guest gets an
      error toast and is sent to sign in without any request; a signed-in
      user toggles, and the message comes from the membership read before
      the toggle. */
  function HandleToggle(loading: bool, isAuthenticated: bool, ids: seq<int>, blogId: int, reply: Reply<()>): (r: Click)
    ensures loading ==> r == Click(ids, None, [])
    ensures !loading && !isAuthenticated ==>
      r == Click(ids, None, [ToastError("Please log in to save blogs"), Navigate("/signin")])
    ensures !loading && isAuthenticated ==>
      && r.sent == Some(if blogId in ids then SavedBlogsContext.Unsave(blogId) else SavedBlogsContext.Save(blogId))
      && r.ids == SavedBlogsContext.Toggle(ids, blogId, reply).ids
      && r.effects == [ToastSuccess(if blogId in ids then "Blog unsaved" else "Blog saved")]
  {
    if loading then Click(ids, None, [])
    else if !isAuthenticated then
      Click(ids, None, [ToastError("Please log in to save blogs"), Navigate("/signin")])
    else
      var wasSaved := blogId in ids;
      var t := SavedBlogsContext.Toggle(ids, blogId, reply);
      Click(t.ids, Some(t.sent), [ToastSuccess(if wasSaved then "Blog unsaved" else "Blog saved")])
  }

  /** Because `toggleSaved` swallows its errors, the click handler's own
      error branch is unreachable: no click ever shows "Failed to toggle
      saved state". */
  lemma ToggleFailureNeverReported(loading: bool, isAuthenticated: bool, ids: seq<int>, blogId: int, reply: Reply<()>)
    ensures ToastError("Failed to toggle saved state") !in HandleToggle(loading, isAuthenticated, ids, blogId, reply).effects
  {
  }

  /** A rejected save request still shows the success toast, while the list
      and so the icon stay as they were. */
  lemma FailedToggleStillShowsSuccess(ids: seq<int>, blogId: int, f: Fault)
    ensures var r := HandleToggle(false, true, ids, blogId, Fail(f));
      r.ids == ids && r.effects == [ToastSuccess(if blogId in ids then "Blog unsaved" else "Blog saved")]
  {
  }

  /** A guest clicking "save" sends nothing, is told to log in and is taken
      to the sign-in page. */
  lemma GuestClickNeverRequests(ids: seq<int>, blogId: int, reply: Reply<()>)
    ensures var r := HandleToggle(false, false, ids, blogId, reply);
      r.sent.None? && r.ids == ids && ReportsError(r.effects) && Navigate("/signin") in r.effects
  {
    var r := HandleToggle(false, false, ids, blogId, reply);
    assert r.effects[0].ToastError?;
  }

  /** The button title: "Unsave" exactly when the blog is saved. */
  function ButtonTitle(ids: seq<int>, blogId: int): (t: string)
    ensures t == "Unsave" <==> blogId in ids
    ensures t == "Save" <==> blogId !in ids
  {
    if blogId in ids then "Unsave" else "Save"
  }

  /** The button icon: filled exactly when the blog is saved. */
  function ButtonIcon(ids: seq<int>, blogId: int): (i: Icon)
    ensures i == FilledBookmark <==> blogId in ids
  {
    if blogId in ids then FilledBookmark else OutlineBookmark
  }

  /** After a successful click the title shows the opposite action. */
  lemma SuccessfulClickFlipsTitle(ids: seq<int>, blogId: int)
    ensures ButtonTitle(HandleToggle(false, true, ids, blogId, Ok(())).ids, blogId)
         == (if ButtonTitle(ids, blogId) == "Save" then "Unsave" else "Save")
  {
  }
}
