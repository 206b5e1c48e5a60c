/**
 * The admin "Blog Management" page: the fetch of every blog, the detail
 * modal, and the delete confirmation dialog with its delete request.
 */
module AdminBlogsPage {
  import opened Wrappers
  import opened Http
  import opened Ui
  import JsText

  datatype User = User(id: int, fullName: string, email: string, photo: Option<string>)

  datatype Like = Like(id: int, userId: int, user: User)

  datatype Comment = Comment(id: int, content: string, createdAt: string, user: User)

  datatype Blog = Blog(id: int, title: string, body: string, category: string, image: Option<string>,
                       createdAt: string, author: User, likes: seq<Like>, comments: seq<Comment>)

  /** `response.data.data`: the server's count and the rows. */
  datatype BlogsData = BlogsData(count: int, rows: seq<Blog>)

  datatype State = State(blogsData: Option<BlogsData>, selectedBlog: Option<Blog>, isModalOpen: bool,
                         isDeleting: bool, loading: bool, error: Option<string>,
                         showDeleteConfirm: bool, blogToDelete: Option<int>)

  const Initial := State(None, None, false, false, true, None, false, None)
  const LoadFailed := "Failed to load blogs"
  const BlogPlaceholder := "/placeholder-blog.jpg"
  const UserPlaceholder := "/placeholder-user.jpg"

  // ---------------------------------------------------------------------
  // Fetch

  /** `fetchBlogs`: the body's `data` is stored as it is (absent when the
      body has none); any failure records the one generic error. */
  function Fetch(s: State, reply: Reply<Option<BlogsData>>): (r: State)
    ensures !r.loading
    ensures reply.Ok? ==> r.blogsData == reply.body && r.error == s.error
    ensures reply.Fail? ==> r.blogsData == s.blogsData && r.error == Some(LoadFailed)
    ensures r.selectedBlog == s.selectedBlog && r.showDeleteConfirm == s.showDeleteConfirm
  {
    match reply
    case Ok(data) => s.(blogsData := data, loading := false)
    case Fail(_) => s.(loading := false, error := Some(LoadFailed))
  }

  // ---------------------------------------------------------------------
  // Detail modal and delete confirmation

  /** `openModal`: the blog is selected and the modal opens. */
  function OpenModal(s: State, b: Blog): (r: State)
    ensures r.isModalOpen && r.selectedBlog == Some(b)
    ensures r.showDeleteConfirm == s.showDeleteConfirm && r.blogToDelete == s.blogToDelete
    ensures r.blogsData == s.blogsData
  {
    s.(selectedBlog := Some(b), isModalOpen := true)
  }

  /** `closeModal`: the modal closes and the selection is cleared. */
  function CloseModal(s: State): (r: State)
    ensures !r.isModalOpen && r.selectedBlog.None?
    ensures r.showDeleteConfirm == s.showDeleteConfirm && r.blogToDelete == s.blogToDelete
    ensures r.blogsData == s.blogsData
  {
    s.(isModalOpen := false, selectedBlog := None)
  }

  /** `openDeleteConfirmation`: the target is set and the dialog opens. */
  function OpenDeleteConfirmation(s: State, blogId: int): (r: State)
    ensures r.showDeleteConfirm && r.blogToDelete == Some(blogId)
    ensures r.isModalOpen == s.isModalOpen && r.selectedBlog == s.selectedBlog
  {
    s.(blogToDelete := Some(blogId), showDeleteConfirm := true)
  }

  /** `closeDeleteConfirmation`: the dialog closes and the target is
      cleared. */
  function CloseDeleteConfirmation(s: State): (r: State)
    ensures !r.showDeleteConfirm && r.blogToDelete.None?
    ensures r.isModalOpen == s.isModalOpen && r.selectedBlog == s.selectedBlog
  {
    s.(showDeleteConfirm := false, blogToDelete := None)
  }

  /** Opening then closing either overlay gives back a state where it was
      closed. */
  lemma OpenCloseRestores(s: State, b: Blog, id: int)
    ensures !s.isModalOpen && s.selectedBlog.None? ==> CloseModal(OpenModal(s, b)) == s
    ensures !s.showDeleteConfirm && s.blogToDelete.None? ==>
      CloseDeleteConfirmation(OpenDeleteConfirmation(s, id)) == s
  {
  }

  /** `!blogToDelete`: no target, or the target 0, counts as none. */
  predicate HasTarget(s: State) {
    s.blogToDelete.Some? && s.blogToDelete.value != 0
  }

  /** One press of the dialog's "Delete" button. */
  datatype Deleting = Deleting(during: State, sent: Option<int>, after: State, effects: seq<Effect>)

  /** `handleDeleteBlog`: without a target it returns at once, before the
      cleanup, so the dialog stays as it was. Otherwise the delete request
      for the target is sent; success refreshes the router, failure raises
      an alert; either way the dialog closes and the target is cleared.
      The blogs on the page and the detail modal are not touched. */
  function HandleDelete(s: State, reply: Reply<()>): (r: Deleting)
    ensures r.sent.Some? <==> HasTarget(s)
    ensures !HasTarget(s) ==> r == Deleting(s, None, s, [])
    ensures HasTarget(s) ==>
      && r.sent == s.blogToDelete
      && r.during == s.(isDeleting := true)
      && r.after == s.(isDeleting := false, showDeleteConfirm := false, blogToDelete := None)
    ensures HasTarget(s) && reply.Ok? ==> r.effects == [Refresh]
    ensures HasTarget(s) && reply.Fail? ==> r.effects == [Alert("Failed to delete blog")]
  {
    if !HasTarget(s) then Deleting(s, None, s, [])
    else
      var during := s.(isDeleting := true);
      var after := CloseDeleteConfirmation(during.(isDeleting := false));
      match reply
      case Ok(_) => Deleting(during, s.blogToDelete, after, [Refresh])
      case Fail(_) => Deleting(during, s.blogToDelete, after, [Alert("Failed to delete blog")])
  }

  /** The blog with id 0 can never be deleted: confirming sends nothing and
      the dialog stays open on it until it is cancelled. */
  lemma BlogZeroCannotBeDeleted(s: State, reply: Reply<()>)
    ensures var asked := OpenDeleteConfirmation(s, 0);
      var r := HandleDelete(asked, reply);
      && r.sent.None? && r.effects == []
      && r.after.showDeleteConfirm && r.after.blogToDelete == Some(0)
  {
  }

  /** For any other id the request goes out for exactly that blog, and the
      dialog ends closed whatever the outcome. */
  lemma ConfirmedDeleteCloses(s: State, id: int, reply: Reply<()>)
    requires id != 0
    ensures var r := HandleDelete(OpenDeleteConfirmation(s, id), reply);
      r.sent == Some(id) && !r.after.showDeleteConfirm && r.after.blogToDelete.None? && !r.after.isDeleting
  {
  }

  /** After a successful delete the deleted blog is still listed and still
      open in the detail modal until the page's data is fetched again. */
  lemma DeletedBlogStaysListed(s: State, reply: Reply<()>)
    requires HasTarget(s) && reply.Ok?
    ensures var r := HandleDelete(s, reply).after;
      r.blogsData == s.blogsData && r.isModalOpen == s.isModalOpen && r.selectedBlog == s.selectedBlog
  {
  }

  // ---------------------------------------------------------------------
  // Rendering

  /** `${API_URL}${path}` || placeholder: the placeholder is used only when
      the base and the path both print as empty; an unset base prints as
      "undefined" and a null path as "null". */
  function ImageSrc(base: Option<string>, path: Option<string>, placeholder: string): (src: string)
    ensures base == Some("") && path == Some("") ==> src == placeholder
    ensures !(base == Some("") && path == Some("")) ==> src == JsText.Slot(base, "undefined") + JsText.Slot(path, "null")
  {
    var joined := JsText.Slot(base, "undefined") + JsText.Slot(path, "null");
    if joined == "" then placeholder else joined
  }

  /** With the base URL set, the blog placeholder never shows, even for a
      blog without an image. */
  lemma PlaceholderNeverShownWithBase(base: string, b: Blog)
    requires base != ""
    ensures ImageSrc(Some(base), b.image, BlogPlaceholder) == JsText.Interpolate(base, b.image)
  {
  }

  /** The avatar of a like or a comment: the photo itself (no base), or the
      placeholder. */
  function PersonAvatar(u: User): (src: string)
    ensures JsText.Truthy(u.photo) ==> src == u.photo.value
    ensures !JsText.Truthy(u.photo) ==> src == UserPlaceholder
  {
    JsText.OrElse(u.photo, UserPlaceholder)
  }

  datatype View =
    | Spinner
      /** "Error Loading Blogs" with its reload button. */
    | ErrorPage(message: string)
    | NoBlogs
      /** The grid of cards, the detail modal (if open) and whether the
          confirmation dialog shows. */
    | Board(rows: seq<Blog>, detail: Option<Blog>, confirm: bool, deleteText: string)

  /** The page: spinner, then error, then the empty state when there is no
      data or the server's count is 0, else the grid with its overlays. */
  function Render(s: State): (v: View)
    ensures s.loading <==> v == Spinner
    ensures v.ErrorPage? <==> !s.loading && JsText.Truthy(s.error)
    ensures v.ErrorPage? ==> v.message == s.error.value
    ensures v == NoBlogs <==> !s.loading && !JsText.Truthy(s.error) && (s.blogsData.None? || s.blogsData.value.count == 0)
    ensures v.Board? ==>
      && s.blogsData.Some? && v.rows == s.blogsData.value.rows
      && (v.detail.Some? <==> s.isModalOpen && s.selectedBlog.Some?)
      && (v.detail.Some? ==> v.detail == s.selectedBlog)
      && (v.confirm <==> s.showDeleteConfirm)
      && (v.deleteText == "Deleting..." <==> s.isDeleting)
  {
    if s.loading then Spinner
    else if JsText.Truthy(s.error) then ErrorPage(s.error.value)
    else if s.blogsData.None? || s.blogsData.value.count == 0 then NoBlogs
    else
      Board(s.blogsData.value.rows,
            if s.isModalOpen then s.selectedBlog else None,
            s.showDeleteConfirm,
            if s.isDeleting then "Deleting..." else "Delete")
  }

  /** The empty state follows the server's count, not the rows: a count of 0
      hides any rows, and a positive count with no rows shows an empty
      grid. */
  lemma CountDecidesEmpty(s: State, rows: seq<Blog>)
    requires !s.loading && !JsText.Truthy(s.error)
    ensures Render(s.(blogsData := Some(BlogsData(0, rows)))) == NoBlogs
    ensures Render(s.(blogsData := Some(BlogsData(1, [])))).Board?
  {
  }
}
