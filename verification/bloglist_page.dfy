/**
 * The "My Blogs" page: the fetch of the signed-in author's blogs with its
 * 404 case and error text, the confirmed delete that disables the one
 * button in flight, and the card excerpt with line breaks flattened.
 */
module BloglistPage {
  import opened Wrappers
  import opened Http
  import opened Ui
  import JsText
  import Lists
  import Views

  datatype Author = Author(fullName: string, photo: Option<string>)

  datatype Blog = Blog(id: int, title: string, body: string, category: string, image: Option<string>,
                       postTime: string, readingTime: string, author: Author)

  datatype State = State(blogs: seq<Blog>, loading: bool, error: Option<string>, deletingId: Option<int>)

  const Initial := State([], true, None, None)
  const FetchFailed := "Failed to fetch blogs"
  const ExcerptLength: nat := 150

  function BlogId(b: Blog): int { b.id }

  // ---------------------------------------------------------------------
  // Fetch

  /** The error a failed fetch records: the "no-blogs" marker for a 404; for
      any other axios error the server's message, else the error's own
      message; for anything else the generic text. */
  function FetchError(f: Fault): (e: string)
    ensures IsAxiosError(f) && ResponseStatus(f) == Some(404) ==> e == Views.NoBlogsMarker
    ensures IsAxiosError(f) && ResponseStatus(f) != Some(404) ==>
      e == JsText.OrElse(ResponseMessage(f), ErrorMessage(f))
    ensures !IsAxiosError(f) ==> e == FetchFailed
  {
    if IsAxiosError(f) then
      if ResponseStatus(f) == Some(404) then Views.NoBlogsMarker
      else JsText.OrElse(ResponseMessage(f), ErrorMessage(f))
    else FetchFailed
  }

  /** `fetchBlogs`: `response.data?.blogs || []` on success, the classified
      error on failure; loading ends either way. */
  function Fetch(s: State, reply: Reply<Option<seq<Blog>>>): (r: State)
    ensures !r.loading && r.deletingId == s.deletingId
    ensures reply.Ok? ==> r.error == s.error && r.blogs == reply.body.GetOr([])
    ensures reply.Fail? ==> r.blogs == s.blogs && r.error == Some(FetchError(reply.fault))
  {
    match reply
    case Ok(body) => s.(blogs := body.GetOr([]), loading := false)
    case Fail(f) => s.(loading := false, error := Some(FetchError(f)))
  }

  /** An axios failure with neither a server message nor an error message
      leaves an empty error, which the page does not treat as an error: it
      shows the empty state. */
  lemma SilentFailureShowsEmpty(status: int)
    requires status != 404
    ensures var r := Fetch(Initial, Fail(HttpError(status, None, "")));
      Views.ChooseView(r.loading, r.error, |r.blogs|) == Views.Empty
  {
  }

  // ---------------------------------------------------------------------
  // Delete

  /** One confirmed delete: the id marked as in flight while the request
      runs, and the state and effects once it settled. */
  datatype Deleting = Deleting(during: State, after: State, effects: seq<Effect>)

  /** The confirmation toast's "Delete" button: marks the blog as in flight,
      then on success drops every blog with that id; the mark is cleared
      whatever the outcome. */
  function ConfirmDelete(s: State, id: int, reply: Reply<()>): (r: Deleting)
    ensures r.during == s.(deletingId := Some(id))
    ensures r.after.deletingId.None?
    ensures r.after.loading == s.loading && r.after.error == s.error
    ensures reply.Ok? ==>
      && (forall b :: b in r.after.blogs <==> b in s.blogs && b.id != id)
      && r.effects == [ToastSuccess("Blog deleted successfully")]
    ensures reply.Fail? ==>
      r.after.blogs == s.blogs && r.effects == [ToastError("Failed to delete blog. Please try again.")]
  {
    var during := s.(deletingId := Some(id));
    match reply
    case Ok(_) =>
      Deleting(during, during.(blogs := Lists.RemoveKey(s.blogs, BlogId, id), deletingId := None),
               [ToastSuccess("Blog deleted successfully")])
    case Fail(_) =>
      Deleting(during, during.(deletingId := None), [ToastError("Failed to delete blog. Please try again.")])
  }

  /** A delete button is disabled exactly while its own blog is in flight. */
  function DeleteDisabled(s: State, blogId: int): (disabled: bool)
    ensures disabled <==> s.deletingId == Some(blogId)
  {
    s.deletingId == Some(blogId)
  }

  /** While a delete runs only that blog's button is disabled, and once it
      settles no button is. */
  lemma OnlyDeletedBlogDisabled(s: State, id: int, reply: Reply<()>, other: int)
    ensures var r := ConfirmDelete(s, id, reply);
      DeleteDisabled(r.during, id) && (other != id ==> !DeleteDisabled(r.during, other))
      && !DeleteDisabled(r.after, other)
  {
  }

  /** Deleting keeps the other blogs in their order. */
  lemma DeleteKeepsOrder(a: seq<Blog>, b: seq<Blog>, s: State, id: int)
    ensures ConfirmDelete(s.(blogs := a + b), id, Ok(())).after.blogs
         == Lists.RemoveKey(a, BlogId, id) + Lists.RemoveKey(b, BlogId, id)
  {
    Lists.RemoveKeyAppend(a, b, BlogId, id);
  }

  // ---------------------------------------------------------------------
  // Card text

  /** A carriage return followed by a line feed at position `i`. */
  predicate CrLfAt(s: string, i: int) {
    0 <= i < |s| - 1 && s[i] == '\r' && s[i + 1] == '\n'
  }

  /** No CR LF pair anywhere in `s`. */
  predicate NoCrLf(s: string) {
    forall i :: 0 <= i < |s| ==> !CrLfAt(s, i)
  }

  /** `body.replace(/\r\n/g, ' ')`: each CR LF pair becomes one space; no
      pair is left, and a text without a pair (a lone carriage return
      included) is unchanged. */
  function ReplaceCrLf(s: string): (r: string)
    ensures NoCrLf(r)
    ensures |r| <= |s|
    ensures |s| > 0 ==> |r| > 0 && (r[0] == '\n' <==> s[0] == '\n')
    ensures NoCrLf(s) ==> r == s
    ensures CrLfAt(s, 0) ==> r[0] == ' '
    decreases |s|
  {
    if |s| == 0 then ""
    else if CrLfAt(s, 0) then
      var rest := ReplaceCrLf(s[2..]);
      assert forall i :: 0 < i ==> (CrLfAt([' '] + rest, i) ==> CrLfAt(rest, i - 1));
      [' '] + rest
    else
      var rest := ReplaceCrLf(s[1..]);
      assert forall i :: 0 < i ==> (CrLfAt([s[0]] + rest, i) ==> CrLfAt(rest, i - 1));
      assert forall i :: CrLfAt(s[1..], i) ==> CrLfAt(s, i + 1);
      [s[0]] + rest
  }

  /** Replacing works piecewise: a text cut anywhere but between a carriage
      return and what follows it flattens as its two pieces do. */
  lemma {:induction false} ReplaceCrLfAppend(a: string, b: string)
    requires a == [] || a[|a| - 1] != '\r'
    ensures ReplaceCrLf(a + b) == ReplaceCrLf(a) + ReplaceCrLf(b)
    decreases |a|
  {
    if a == [] {
      assert a + b == b;
    } else if CrLfAt(a, 0) {
      assert CrLfAt(a + b, 0);
      assert (a + b)[2..] == a[2..] + b;
      ReplaceCrLfAppend(a[2..], b);
      JsText.AppendAssoc([' '], ReplaceCrLf(a[2..]), ReplaceCrLf(b));
    } else {
      assert !CrLfAt(a + b, 0);
      assert (a + b)[1..] == a[1..] + b;
      ReplaceCrLfAppend(a[1..], b);
      JsText.AppendAssoc([a[0]], ReplaceCrLf(a[1..]), ReplaceCrLf(b));
    }
  }

  /** A leading CR LF pair becomes one space. */
  lemma LeadingCrLfBecomesSpace(b: string)
    ensures ReplaceCrLf(['\r', '\n'] + b) == [' '] + ReplaceCrLf(b)
  {
    var s := ['\r', '\n'] + b;
    assert CrLfAt(s, 0);
    assert s[2..] == b;
  }

  /** Every CR LF pair in the text, wherever it stands, becomes exactly
      one space. */
  lemma {:induction false} CrLfBecomesSpace(a: string, b: string)
    ensures ReplaceCrLf(a + ['\r', '\n'] + b) == ReplaceCrLf(a) + [' '] + ReplaceCrLf(b)
    decreases |a|
  {
    var s := a + ['\r', '\n'] + b;
    if a == [] {
      assert s == ['\r', '\n'] + b;
      LeadingCrLfBecomesSpace(b);
    } else if CrLfAt(a, 0) {
      assert CrLfAt(s, 0);
      assert s[2..] == a[2..] + ['\r', '\n'] + b;
      CrLfBecomesSpace(a[2..], b);
      CrLfSplice([' '], ReplaceCrLf(a[2..]), ReplaceCrLf(b));
    } else {
      assert !CrLfAt(s, 0);
      assert s[1..] == a[1..] + ['\r', '\n'] + b;
      CrLfBecomesSpace(a[1..], b);
      CrLfSplice([a[0]], ReplaceCrLf(a[1..]), ReplaceCrLf(b));
    }
  }

  lemma CrLfSplice(head: string, x: string, y: string)
    ensures head + (x + [' '] + y) == head + x + [' '] + y
  {
  }

  /** The card excerpt: the flattened body cut to 150 characters, then
      "...". */
  function Excerpt(body: string): (d: string)
    ensures 3 <= |d| <= ExcerptLength + 3 && d[|d| - 3..] == "..."
    ensures NoCrLf(d[..|d| - 3])
    ensures NoCrLf(body) && |body| <= ExcerptLength ==> d == body + "..."
    ensures NoCrLf(body) ==> d[..|d| - 3] == body[..JsText.Min(ExcerptLength, |body|)]
    ensures d[..|d| - 3] <= ReplaceCrLf(body)
    ensures |d| - 3 == JsText.Min(ExcerptLength, |ReplaceCrLf(body)|)
  {
    var text := JsText.Prefix(ReplaceCrLf(body), ExcerptLength);
    assert forall i :: CrLfAt(text, i) ==> CrLfAt(ReplaceCrLf(body), i);
    assert (text + "...")[..|text|] == text;
    text + "..."
  }

  /** The avatar fallback: `fullName.charAt(0)`, empty for an empty name. */
  function AvatarLetter(fullName: string): (letter: string)
    ensures |letter| <= 1 && letter <= fullName
    ensures fullName != "" ==> letter == [fullName[0]]
  {
    if fullName == "" then "" else [fullName[0]]
  }

  // ---------------------------------------------------------------------
  // Rendering

  /** The page: the spinner and the error box stand alone; the empty state
      and the grid are wrapped in the client layout. */
  function Render(s: State): (r: (bool, Views.ListView))
    ensures r.1 == Views.ChooseView(s.loading, s.error, |s.blogs|)
    ensures r.0 <==> r.1 == Views.Empty || r.1 == Views.Grid
  {
    var v := Views.ChooseView(s.loading, s.error, |s.blogs|);
    (v.Empty? || v.Grid?, v)
  }
}
