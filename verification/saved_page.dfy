/**
 * The "Your Saved Blogs" page: its fetch, its retry button, the four views
 * and the card of each saved blog.
 */
module SavedPage {
  import opened Wrappers
  import opened Http
  import JsText
  import CustomCard

  datatype Author = Author(id: int, fullName: string, photo: Option<string>)

  datatype Blog = Blog(id: int, title: string, body: string, category: string, image: Option<string>,
                       createdAt: string, author: Author)

  /** The response body: `data.data` is an array of blogs, or something
      else, or the body itself is null or undefined (reading `data` of it
      throws). */
  datatype SavedBody = BlogArray(blogs: seq<Blog>) | NotArray | NoBody

  /** The error is a string; the empty string means no error. */
  datatype State = State(savedBlogs: seq<Blog>, loading: bool, error: string)

  datatype View = Skeleton(placeholders: nat) | Oops(message: string) | EmptyList | Cards(cards: seq<CustomCard.CardProps>)

  const Initial := State([], true, "")
  const NotFound := "No saved blogs found."
  const FetchFailed := "Failed to fetch saved blogs. Please try again later."
  const ExcerptLength: nat := 100

  /** `fetchSavedBlogs`, both on mount and from "Try Again": an array is
      stored, anything else records an error; loading ends either way, and
      neither the error nor the loading flag is reset first. */
  function Fetch(s: State, reply: Reply<SavedBody>): (r: State)
    ensures !r.loading
    ensures reply.Ok? && reply.body.BlogArray? ==> r.savedBlogs == reply.body.blogs && r.error == s.error
    ensures reply.Ok? && reply.body.NotArray? ==> r.savedBlogs == s.savedBlogs && r.error == NotFound
    ensures reply.Fail? || (reply.Ok? && reply.body.NoBody?) ==> r.savedBlogs == s.savedBlogs && r.error == FetchFailed
  {
    match reply
    case Ok(BlogArray(blogs)) => s.(savedBlogs := blogs, loading := false)
    case Ok(NotArray) => s.(loading := false, error := NotFound)
    case _ => s.(loading := false, error := FetchFailed)
  }

  /** Several fetches in a row (the mount, then each "Try Again"). */
  function FetchAll(s: State, replies: seq<Reply<SavedBody>>): State
    decreases |replies|
  {
    if |replies| == 0 then s else FetchAll(Fetch(s, replies[0]), replies[1..])
  }

  /** What the page shows: placeholders while loading, then the error, then
      the empty reading list, then one card per saved blog. */
  function Render(s: State, base: string, dates: seq<string>): (v: View)
    requires |dates| == |s.savedBlogs|
    ensures s.loading <==> v == Skeleton(3)
    ensures v.Oops? <==> !s.loading && s.error != ""
    ensures v.Oops? ==> v.message == s.error
    ensures v == EmptyList <==> !s.loading && s.error == "" && |s.savedBlogs| == 0
    ensures v.Cards? ==>
      && |v.cards| == |s.savedBlogs|
      && forall i :: 0 <= i < |s.savedBlogs| ==> v.cards[i] == ToCard(base, s.savedBlogs[i], dates[i])
  {
    if s.loading then Skeleton(3)
    else if s.error != "" then Oops(s.error)
    else if |s.savedBlogs| == 0 then EmptyList
    else Cards(seq(|s.savedBlogs|, i requires 0 <= i < |s.savedBlogs| => ToCard(base, s.savedBlogs[i], dates[i])))
  }

  /** Once an error is recorded it is never cleared: any number of retries,
      even successful ones, still leave a non-empty error, so the page keeps
      showing the error view. */
  lemma {:induction false} ErrorIsSticky(s: State, replies: seq<Reply<SavedBody>>)
    requires s.error != ""
    ensures FetchAll(s, replies).error != ""
    decreases |replies|
  {
    if |replies| > 0 {
      ErrorIsSticky(Fetch(s, replies[0]), replies[1..]);
    }
  }

  /** The view after at least one fetch with an error recorded is the error
      view, whatever blogs later arrived. */
  lemma RetryNeverLeavesErrorView(s: State, replies: seq<Reply<SavedBody>>, base: string)
    requires s.error != "" && |replies| > 0
    ensures var r := FetchAll(s, replies);
      Render(r, base, seq(|r.savedBlogs|, i => "")).Oops?
  {
    ErrorIsSticky(s, replies);
    FetchAllEndsLoading(s, replies);
  }

  lemma {:induction false} FetchAllEndsLoading(s: State, replies: seq<Reply<SavedBody>>)
    requires |replies| > 0
    ensures !FetchAll(s, replies).loading
    decreases |replies|
  {
    if |replies| > 1 {
      FetchAllEndsLoading(Fetch(s, replies[0]), replies[1..]);
    }
  }

  /** `blog.body.slice(0, 100) + '...'`: at most 103 characters, the first
      hundred of the body and the dots. */
  function Excerpt(body: string): (d: string)
    ensures 3 <= |d| <= ExcerptLength + 3
    ensures d[..|d| - 3] <= body && d[|d| - 3..] == "..."
    ensures |body| <= ExcerptLength ==> d == body + "..."
    ensures |body| > ExcerptLength ==> |d| == ExcerptLength + 3
    ensures d[..|d| - 3] == body[..JsText.Min(ExcerptLength, |body|)]
  {
    var text := JsText.Prefix(body, ExcerptLength);
    assert (text + "...")[..|text|] == text;
    text + "..."
  }

  /** The card of a saved blog: both pictures are always URLs, and the
      reading time is always "5 min read". */
  function ToCard(base: string, b: Blog, date: string): (c: CustomCard.CardProps)
    ensures c.image == Some(JsText.Interpolate(base, b.image)) && c.authorImage == Some(JsText.Interpolate(base, b.author.photo))
    ensures c.description == Excerpt(b.body) && c.readTime == "5 min read"
    ensures c.blogId == b.id && c.title == b.title && c.category == b.category
    ensures c.authorName == b.author.fullName && c.authorId == b.author.id && c.date == date
  {
    CustomCard.CardProps(Some(JsText.Interpolate(base, b.image)), b.category, b.title, Excerpt(b.body),
      Some(JsText.Interpolate(base, b.author.photo)), b.author.fullName, b.author.id, date, "5 min read", b.id)
  }
}
