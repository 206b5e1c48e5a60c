/**
 * The blog grid of the home page: the fetch with its 404 case, and the card
 * of each blog with its twenty-word excerpt, its optional pictures and the
 * abbreviated author name shown when the author has no photo.
 */
module BlogSection {
  import opened Wrappers
  import opened Http
  import JsText
  import Views
  import CustomCard

  /** Every field of the author is optional (`blog.author?.…`). */
  datatype Author = Author(id: Option<int>, fullName: Option<string>, photo: Option<string>)

  datatype Blog = Blog(id: int, title: string, body: string, category: string, image: Option<string>,
                       postTime: string, readingTime: string, author: Option<Author>)

  datatype State = State(blogs: seq<Blog>, loading: bool, error: Option<string>)

  const LoadFailed := "Failed to load blogs. Please try again later."
  const ExcerptWords: nat := 20

  // ---------------------------------------------------------------------
  // Fetch

  /** The error a failed fetch records: the "no-blogs" marker for an axios
      error with status 404, the generic text for everything else. */
  function FetchError(f: Fault): (e: string)
    ensures e == Views.NoBlogsMarker <==> IsAxiosError(f) && ResponseStatus(f) == Some(404)
    ensures e != Views.NoBlogsMarker ==> e == LoadFailed
  {
    if IsAxiosError(f) && ResponseStatus(f) == Some(404) then Views.NoBlogsMarker else LoadFailed
  }

  /** `fetchBlogs`: `response.data?.data || []` on success (`None` is a body
      without the list), the classified error on failure; loading ends
      either way. */
  function Fetch(s: State, reply: Reply<Option<seq<Blog>>>): (r: State)
    ensures !r.loading
    ensures reply.Ok? ==> r.error == s.error && r.blogs == reply.body.GetOr([])
    ensures reply.Fail? ==> r.blogs == s.blogs && r.error == Some(FetchError(reply.fault))
  {
    match reply
    case Ok(body) => State(body.GetOr([]), false, s.error)
    case Fail(f) => State(s.blogs, false, Some(FetchError(f)))
  }

  /** A 404 shows the empty state, never the error box. */
  lemma NotFoundShowsEmpty(s: State, status: int, message: Option<string>, text: string)
    requires status == 404
    ensures var r := Fetch(s, Fail(HttpError(status, message, text)));
      Views.ChooseView(r.loading, r.error, |r.blogs|) == Views.Empty
  {
  }

  // ---------------------------------------------------------------------
  // Card text

  /** `part[0] + "."`: the first character and a dot; indexing an empty
      string gives `undefined`, which is then printed. */
  function Initial(part: string): (r: string)
    ensures part != "" ==> r == [part[0]] + "."
    ensures part == "" ==> r == "undefined."
  {
    if part == "" then "undefined." else [part[0]] + "."
  }

  /** `fullName.split(" ").map((p, i) => i === 0 ? p[0] + "." : p).join(" ")`:
      the first word is replaced by its initial and the rest of the name,
      from the first space on, is kept as it is. */
  function Abbreviate(name: string): (r: string)
    ensures ' ' !in name ==> r == Initial(name)
    ensures forall k :: 0 <= k < |name| && name[k] == ' ' && ' ' !in name[..k] ==>
      r == Initial(name[..k]) + name[k..]
  {
    AbbreviateKeepsRest(name);
    JoinWithInitial(JsText.SplitOn(name, ' '))
  }

  /** The joined fields with the first replaced by its initial. */
  function JoinWithInitial(parts: seq<string>): string
    requires |parts| >= 1
  {
    JsText.Join([Initial(parts[0])] + parts[1..], ' ')
  }

  /** Past the first field, the abbreviation is the name itself. */
  lemma JoinWithInitialTail(name: string)
    requires |JsText.SplitOn(name, ' ')| >= 2
    ensures var parts := JsText.SplitOn(name, ' ');
      |parts[0]| < |name| && JoinWithInitial(parts) == Initial(parts[0]) + name[|parts[0]|..]
  {
    var parts := JsText.SplitOn(name, ' ');
    var p0 := parts[0];
    var tail := JsText.Join(parts[1..], ' ');
    JsText.JoinSplit(name, ' ');
    JsText.JoinCons(parts, ' ');
    assert name == p0 + ([' '] + tail);
    assert name[|p0|..] == [' '] + tail;
    var swapped := [Initial(p0)] + parts[1..];
    assert swapped[1..] == parts[1..];
    JsText.JoinCons(swapped, ' ');
  }

  /** The first field of `split(" ")` ends at the first space. */
  lemma FirstFieldEndsAtFirstSpace(name: string, k: int)
    requires 0 <= k < |name| && name[k] == ' ' && ' ' !in name[..k]
    ensures |JsText.SplitOn(name, ' ')[0]| == k
  {
    var p0 := JsText.SplitOn(name, ' ')[0];
    JsText.FirstFieldIsPrefix(name, ' ');
    assert ' ' !in p0;
  }

  lemma AbbreviateKeepsRest(name: string)
    ensures ' ' !in name ==> JoinWithInitial(JsText.SplitOn(name, ' ')) == Initial(name)
    ensures forall k :: 0 <= k < |name| && name[k] == ' ' && ' ' !in name[..k] ==>
      JoinWithInitial(JsText.SplitOn(name, ' ')) == Initial(name[..k]) + name[k..]
  {
    var parts := JsText.SplitOn(name, ' ');
    if ' ' !in name {
      JsText.SplitWithoutSeparator(name, ' ');
      assert parts == [name];
    }
    forall k | 0 <= k < |name| && name[k] == ' ' && ' ' !in name[..k]
      ensures JoinWithInitial(parts) == Initial(name[..k]) + name[k..]
    {
      FirstFieldEndsAtFirstSpace(name, k);
      JsText.FirstFieldIsPrefix(name, ' ');
      assert parts[0] == name[..k];
      JsText.JoinSplit(name, ' ');
      JoinWithInitialTail(name);
    }
  }

  /** A name that starts with a space abbreviates to "undefined." followed
      by the whole name. */
  lemma LeadingSpaceGivesUndefined(name: string)
    requires |name| > 0 && name[0] == ' '
    ensures Abbreviate(name) == "undefined." + name
  {
    assert name[..0] == "";
  }

  /** A first word without spaces becomes its initial and a dot, and the
      rest of the name follows unchanged ("Jane Doe" reads "J. Doe"). */
  lemma FirstWordBecomesInitial(first: string, rest: string)
    requires first != "" && ' ' !in first
    ensures Abbreviate(first + " " + rest) == [first[0]] + ". " + rest
  {
    var name := first + " " + rest;
    var k := |first|;
    assert name[k] == ' ';
    assert name[..k] == first;
    assert name[k..] == " " + rest;
  }

  /** The author line: the abbreviation when the author has a name but no
      photo, otherwise the name itself or nothing. */
  function ShortName(author: Option<Author>): (n: string)
    ensures author.None? ==> n == ""
    ensures author.Some? && !JsText.Truthy(author.value.photo) && JsText.Truthy(author.value.fullName) ==>
      n == Abbreviate(author.value.fullName.value)
    ensures author.Some? && JsText.Truthy(author.value.photo) ==> n == JsText.OrElse(author.value.fullName, "")
    ensures author.Some? && !JsText.Truthy(author.value.fullName) ==> n == ""
  {
    match author
    case None => ""
    case Some(a) =>
      if !JsText.Truthy(a.photo) && JsText.Truthy(a.fullName) then Abbreviate(a.fullName.value)
      else JsText.OrElse(a.fullName, "")
  }

  /** `${body.split(" ").slice(0, 20).join(" ")}...`: the text before the
      dots is a prefix of the body; it is the whole body when the body has
      fewer than twenty space-separated fields, and otherwise it ends just
      before the twentieth space. */
  function Excerpt(body: string): (d: string)
    ensures |d| >= 3 && d[|d| - 3..] == "..."
    ensures d[..|d| - 3] <= body
    ensures JsText.CountChar(body, ' ') < ExcerptWords ==> d == body + "..."
    ensures var text := d[..|d| - 3];
      JsText.CountChar(body, ' ') >= ExcerptWords ==>
        && |text| < |body| && body[|text|] == ' '
        && JsText.CountChar(text, ' ') == ExcerptWords - 1
  {
    var parts := JsText.SplitOn(body, ' ');
    var n := JsText.Min(ExcerptWords, |parts|);
    var kept := parts[..n];
    var text := JsText.Join(kept, ' ');
    JsText.JoinPrefix(parts, n, ' ');
    JsText.JoinSplit(body, ' ');
    JsText.SplitOnCount(body, ' ');
    assert |parts| <= ExcerptWords ==> kept == parts;
    assert |parts| > ExcerptWords ==>
      text + [' '] <= body && JsText.CountChar(text, ' ') == ExcerptWords - 1 by {
      if |parts| > ExcerptWords {
        JsText.JoinPrefixThenSeparator(parts, n, ' ');
        assert forall i :: 0 <= i < |kept| ==> kept[i] == parts[i];
        JsText.CountCharJoin(kept, ' ');
      }
    }
    assert (text + "...")[..|text|] == text;
    text + "..."
  }

  /** `blog.author?.id ?? 0` */
  function AuthorId(author: Option<Author>): (id: int)
    ensures author.Some? && author.value.id.Some? ==> id == author.value.id.value
    ensures author.None? || author.value.id.None? ==> id == 0
  {
    match author
    case Some(Author(Some(id), _, _)) => id
    case _ => 0
  }

  function PhotoOf(author: Option<Author>): Option<string> {
    match author
    case Some(a) => a.photo
    case None => None
  }

  /** The card of one blog. */
  function ToCard(base: string, b: Blog): (c: CustomCard.CardProps)
    ensures c.blogId == b.id && c.title == b.title && c.category == b.category
    ensures c.image == JsText.PrefixIfTruthy(base, b.image) && c.authorImage == JsText.PrefixIfTruthy(base, PhotoOf(b.author))
    ensures c.description == Excerpt(b.body) && c.authorName == ShortName(b.author)
    ensures c.authorId == AuthorId(b.author) && c.date == b.postTime && c.readTime == b.readingTime
  {
    CustomCard.CardProps(JsText.PrefixIfTruthy(base, b.image), b.category, b.title, Excerpt(b.body),
      JsText.PrefixIfTruthy(base, PhotoOf(b.author)), ShortName(b.author), AuthorId(b.author),
      b.postTime, b.readingTime, b.id)
  }

  datatype View = Spinner | ErrorBox(message: string) | NoBlogs | Cards(cards: seq<CustomCard.CardProps>)

  /** What the section renders: the shared view choice, with one card per
      blog, in order, in the grid. */
  function Render(s: State, base: string): (v: View)
    ensures var choice := Views.ChooseView(s.loading, s.error, |s.blogs|);
      && (choice == Views.Spinner <==> v == Spinner)
      && (choice.ErrorBox? <==> v.ErrorBox?)
      && (choice == Views.Empty <==> v == NoBlogs)
      && (choice == Views.Grid <==> v.Cards?)
    ensures v.Cards? ==> |v.cards| == |s.blogs| && forall i :: 0 <= i < |s.blogs| ==> v.cards[i] == ToCard(base, s.blogs[i])
  {
    match Views.ChooseView(s.loading, s.error, |s.blogs|)
    case Spinner => Spinner
    case ErrorBox(m) => ErrorBox(m)
    case Empty => NoBlogs
    case Grid => Cards(seq(|s.blogs|, i requires 0 <= i < |s.blogs| => ToCard(base, s.blogs[i])))
  }
}
