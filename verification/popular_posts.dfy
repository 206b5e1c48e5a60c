/**
 * The popular-posts section of the home page: the fetch, the four views
 * (skeleton, error panel, empty state, cards) and the card text derived from
 * a blog: the excerpt, the reading time and the author picture.
 */
module PopularPosts {
  import opened Wrappers
  import opened Http
  import JsText
  import CustomCard

  datatype Author = Author(id: int, fullName: string, photo: Option<string>)

  datatype Blog = Blog(id: int, title: string, body: string, category: string, image: Option<string>,
                       author: Author, createdAt: string)

  datatype State = State(blogs: seq<Blog>, loading: bool, error: Option<string>)

  datatype View =
    | Skeleton(placeholders: nat)
    | ErrorPanel(message: string)
    | NoPosts
    | Cards(cards: seq<CustomCard.CardProps>)

  const Initial := State([], true, None)
  const DefaultError := "Failed to load popular posts"

  /** The literal the source appends to a cut excerpt: the UTF-8 bytes of
      "…" read as Windows-1252, three characters. */
  const Ellipsis := "\U{E2}\U{20AC}\U{A6}"

  const WordsPerMinute: nat := 200
  const ExcerptLimit: nat := 150
  const ExcerptCut: nat := 147

  // ---------------------------------------------------------------------
  // Card text

  /** `body.trim().split(/\s+/).length`: at least 1, and the number of words
      of the body when it has any. */
  function WordCount(body: string): (n: nat)
    ensures n >= 1
    ensures !JsText.Blank(body) ==> n == JsText.WordsIn(body)
    ensures JsText.Blank(body) ==> n == 1
  {
    var n := |JsText.SplitWs(JsText.Trim(body))|;
    assert !JsText.Blank(body) ==> n == JsText.WordsIn(body) by {
      if !JsText.Blank(body) {
        JsText.WordCountOfTrim(body);
      }
    }
    n
  }

  /** `Math.ceil(words / 200)`: the least number of 200-word minutes that
      covers the words, never below 1 for a real count. */
  function ReadMinutes(words: nat): (m: nat)
    ensures m * WordsPerMinute >= words
    ensures m > 0 ==> (m - 1) * WordsPerMinute < words
    ensures words >= 1 ==> m >= 1
  {
    (words + WordsPerMinute - 1) / WordsPerMinute
  }

  /** `readTime`: the minutes in decimal, then " min read". */
  function ReadTime(body: string): (t: string)
    ensures |t| > 9 && t[|t| - 9..] == " min read"
    ensures JsText.AllDigits(t[..|t| - 9])
  {
    var digits := JsText.Decimal(ReadMinutes(WordCount(body)));
    assert (digits + " min read")[..|digits|] == digits;
    digits + " min read"
  }

  /** The reading time can be read back: its leading digits are the number
      of minutes, at least one, that covers the body's words. */
  lemma ReadTimeNamesMinutes(body: string)
    ensures var t := ReadTime(body);
      var m := JsText.ParseDecimal(t[..|t| - 9]);
      m >= 1 && m * WordsPerMinute >= WordCount(body) && (m - 1) * WordsPerMinute < WordCount(body)
  {
    var m := ReadMinutes(WordCount(body));
    var digits := JsText.Decimal(m);
    assert (digits + " min read")[..|digits|] == digits;
    JsText.DecimalRoundTrip(m);
  }

  /** `description`: a body of at most 150 characters is kept whole; a
      longer one is cut to 147, trimmed and followed by the ellipsis, so the
      excerpt never exceeds 150 characters and its text is taken from the
      first 147 of the body. */
  function Description(body: string): (d: string)
    ensures |body| <= ExcerptLimit ==> d == body
    ensures |d| <= ExcerptLimit
    ensures |body| > ExcerptLimit ==>
      && |d| >= 3 && d[|d| - 3..] == Ellipsis
      && d[..|d| - 3] == JsText.Trim(body[..ExcerptCut])
      && JsText.Includes(body[..ExcerptCut], d[..|d| - 3])
  {
    if |body| > ExcerptLimit then
      var cut := JsText.Trim(JsText.Prefix(body, ExcerptCut));
      assert (cut + Ellipsis)[..|cut|] == cut;
      assert JsText.Prefix(body, ExcerptCut) == body[..ExcerptCut];
      cut + Ellipsis
    else body
  }

  /** The card of one blog; `date` is the locale-formatted `createdAt`,
      which is left to the caller. */
  function ToCard(base: string, b: Blog, date: string): (c: CustomCard.CardProps)
    ensures c.blogId == b.id && c.title == b.title && c.category == b.category
    ensures c.image == Some(JsText.Interpolate(base, b.image))
    ensures c.description == Description(b.body) && c.readTime == ReadTime(b.body)
    ensures c.authorImage == JsText.PrefixIfTruthy(base, b.author.photo)
    ensures c.authorName == b.author.fullName && c.authorId == b.author.id && c.date == date
  {
    CustomCard.CardProps(Some(JsText.Interpolate(base, b.image)), b.category, b.title, Description(b.body),
      JsText.PrefixIfTruthy(base, b.author.photo), b.author.fullName, b.author.id, date, ReadTime(b.body), b.id)
  }

  // ---------------------------------------------------------------------
  // Fetch and views

  /** The error text of a failed fetch: an axios error shows the server's
      message or the default, never the error's own message; another Error
      shows its message; anything else shows the default. */
  function ErrorText(f: Fault): (text: string)
    ensures IsAxiosError(f) ==> text == JsText.OrElse(ResponseMessage(f), DefaultError)
    ensures f.PlainError? ==> text == f.message
    ensures f.Thrown? ==> text == DefaultError
  {
    if IsAxiosError(f) then JsText.OrElse(ResponseMessage(f), DefaultError)
    else if IsError(f) then ErrorMessage(f)
    else DefaultError
  }

  /** `fetchPopular`: loading ends either way; a success stores the blogs, a
      failure stores the error text. */
  function Fetch(s: State, reply: Reply<seq<Blog>>): (r: State)
    ensures !r.loading
    ensures reply.Ok? ==> r.blogs == reply.body && r.error == s.error
    ensures reply.Fail? ==> r.blogs == s.blogs && r.error == Some(ErrorText(reply.fault))
  {
    match reply
    case Ok(blogs) => State(blogs, false, s.error)
    case Fail(f) => State(s.blogs, false, Some(ErrorText(f)))
  }

  /** What the section renders: three placeholders while loading, then the
      error panel when the error text is non-empty, then the empty state,
      then one card per blog in order. */
  function Render(s: State, base: string, dates: seq<string>): (v: View)
    requires |dates| == |s.blogs|
    ensures s.loading <==> v == Skeleton(3)
    ensures v.ErrorPanel? <==> !s.loading && JsText.Truthy(s.error)
    ensures v.NoPosts? <==> !s.loading && !JsText.Truthy(s.error) && |s.blogs| == 0
    ensures v.Cards? ==>
      && |v.cards| == |s.blogs|
      && forall i :: 0 <= i < |s.blogs| ==> v.cards[i] == ToCard(base, s.blogs[i], dates[i])
  {
    if s.loading then Skeleton(3)
    else if JsText.Truthy(s.error) then ErrorPanel(s.error.value)
    else if |s.blogs| == 0 then NoPosts
    else Cards(seq(|s.blogs|, i requires 0 <= i < |s.blogs| => ToCard(base, s.blogs[i], dates[i])))
  }

  /** A failed first load never shows cards: it shows the error panel, or,
      when the error had an empty message, the empty state. */
  lemma FailedLoadShowsNoCards(f: Fault, base: string)
    ensures var v := Render(Fetch(Initial, Fail(f)), base, []);
      v.ErrorPanel? || v.NoPosts?
    ensures f == PlainError("") ==> Render(Fetch(Initial, Fail(f)), base, []) == NoPosts
  {
  }
}
