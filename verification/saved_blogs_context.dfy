/**
 * The saved-blogs context: the list of blog ids the signed-in user has
 * bookmarked, loaded once from the server and changed one id at a time by
 * `toggleSaved`, which mutates the list only after the server confirmed.
 */
module SavedBlogsContext {
  import opened Wrappers
  import opened Http
  import Lists

  /** What the `data` field of the saved-blogs response holds: an array of
      blogs, each with an optional `id`, or something that is not an array. */
  datatype SavedPayload = BlogArray(ids: seq<Option<int>>) | NotArray

  /** The request `toggleSaved` issues. */
  datatype SaveRequest = Unsave(blogId: int) | Save(blogId: int)

  /** The settled `toggleSaved` call: the request it sent and the ids after it.
      The returned promise always resolves, because every error is caught
      and only logged. */
  datatype Toggled = Toggled(sent: SaveRequest, ids: seq<int>)

  function Identity(x: int): int { x }

  /** `saved.map(b => b.id).filter(Boolean)`: the truthy ids, in order. */
  function ExtractIds(items: seq<Option<int>>): (ids: seq<int>)
    ensures |ids| <= |items|
    ensures 0 !in ids
    ensures forall x :: x in ids <==> x != 0 && Some(x) in items
  {
    if |items| == 0 then []
    else
      var head := if items[0].Some? && items[0].value != 0 then [items[0].value] else [];
      head + ExtractIds(items[1..])
  }

  /** Extraction works element by element, so it keeps the server's order. */
  lemma {:induction false} ExtractIdsAppend(a: seq<Option<int>>, b: seq<Option<int>>)
    ensures ExtractIds(a + b) == ExtractIds(a) + ExtractIds(b)
    decreases |a|
  {
    if |a| == 0 {
      assert a + b == b;
    } else {
      assert (a + b)[1..] == a[1..] + b;
      ExtractIdsAppend(a[1..], b);
    }
  }

  /** `fetchSavedBlogs`: an array payload loads its truthy ids, any other
      payload loads the empty list, and a failed request leaves the list as
      it was. */
  function Fetch(current: seq<int>, reply: Reply<SavedPayload>): (ids: seq<int>)
    ensures reply.Fail? ==> ids == current
    ensures reply.Ok? ==> forall x :: x in ids <==>
      reply.body.BlogArray? && x != 0 && Some(x) in reply.body.ids
    ensures reply.Ok? && reply.body.NotArray? ==> ids == []
  {
    match reply
    case Fail(_) => current
    case Ok(NotArray) => []
    case Ok(BlogArray(items)) => ExtractIds(items)
  }

  /** Loading `{ data: [{id: 3}, {id: 7}, {id: 9}] }` marks exactly 3, 7 and 9
      as saved. */
  lemma FetchExample(current: seq<int>, x: int)
    ensures var ids := Fetch(current, Ok(BlogArray([Some(3), Some(7), Some(9)])));
      x in ids <==> x == 3 || x == 7 || x == 9
  {
  }

  /** `isSaved(blogId)`: the linear scan of `Array.prototype.includes`. */
  method IsSaved(ids: seq<int>, blogId: int) returns (saved: bool)
    ensures saved <==> blogId in ids
  {
    saved := false;
    var i := 0;
    while i < |ids|
      invariant 0 <= i <= |ids|
      invariant saved <==> blogId in ids[..i]
    {
      if ids[i] == blogId {
        saved := true;
      }
      assert ids[..i + 1] == ids[..i] + [ids[i]];
      i := i + 1;
    }
    assert ids[..i] == ids;
  }

  /** `toggleSaved(blogId)`: the direction comes from the membership before
      the call; the list changes only when the request succeeded. A
      successful unsave removes every occurrence of the id and nothing else;
      a successful save appends the id at the end. */
  function Toggle(ids: seq<int>, blogId: int, reply: Reply<()>): (r: Toggled)
    ensures r.sent == if blogId in ids then Unsave(blogId) else Save(blogId)
    ensures reply.Fail? ==> r.ids == ids
    ensures reply.Ok? ==> (blogId in r.ids <==> blogId !in ids)
    ensures reply.Ok? ==> forall x :: x != blogId ==> (x in r.ids <==> x in ids)
    ensures reply.Ok? && blogId in ids ==> |r.ids| < |ids|
    ensures reply.Ok? && blogId !in ids ==> r.ids == ids + [blogId]
  {
    if blogId in ids then
      Toggled(Unsave(blogId), if reply.Ok? then Lists.RemoveKey(ids, Identity, blogId) else ids)
    else
      Toggled(Save(blogId), if reply.Ok? then ids + [blogId] else ids)
  }

  /** A successful unsave keeps the other ids in their relative order: the
      result is the list with the id filtered out. */
  lemma UnsaveKeepsOrder(a: seq<int>, b: seq<int>, blogId: int)
    requires blogId in a + b
    ensures Toggle(a + b, blogId, Ok(())).ids
         == Lists.RemoveKey(a, Identity, blogId) + Lists.RemoveKey(b, Identity, blogId)
  {
    Lists.RemoveKeyAppend(a, b, Identity, blogId);
  }

  /** `toggleSaved` never introduces a duplicate id. */
  lemma ToggleKeepsNoDuplicates(ids: seq<int>, blogId: int, reply: Reply<()>)
    requires Lists.NoDuplicates(ids)
    ensures Lists.NoDuplicates(Toggle(ids, blogId, reply).ids)
  {
    if blogId in ids && reply.Ok? {
      Lists.RemoveKeyNoDuplicates(ids, Identity, blogId);
    }
  }

  /** Two successful toggles of the same id give every id back its original
      membership; starting from an unsaved id they restore the list itself. */
  lemma ToggleTwiceRestores(ids: seq<int>, blogId: int)
    ensures var twice := Toggle(Toggle(ids, blogId, Ok(())).ids, blogId, Ok(())).ids;
      forall x :: x in twice <==> x in ids
    ensures blogId !in ids ==>
      Toggle(Toggle(ids, blogId, Ok(())).ids, blogId, Ok(())).ids == ids
  {
    if blogId !in ids {
      Lists.RemoveKeyAppend(ids, [blogId], Identity, blogId);
      Lists.RemoveKeyAbsent(ids, Identity, blogId);
      assert Lists.RemoveKey([blogId], Identity, blogId) == [];
    }
  }

  /** Retrying after a failed toggle sends the same request again: a failure
      never flips the direction. */
  lemma RetryAfterFailureSameDirection(ids: seq<int>, blogId: int, f: Fault, reply: Reply<()>)
    ensures Toggle(Toggle(ids, blogId, Fail(f)).ids, blogId, reply).sent
         == Toggle(ids, blogId, reply).sent
  {
  }

  /** `useSavedBlogs`: outside a provider there is no context and the hook
      throws. */
  function UseSavedBlogs(context: Option<seq<int>>): (r: Result<seq<int>, string>)
    ensures context.None? <==> r.Failure?
    ensures r.Success? ==> r.value == context.value
    ensures r.Failure? ==> r.error == "useSavedBlogs must be inside SavedBlogsProvider"
  {
    match context
    case Some(ids) => Success(ids)
    case None => Failure("useSavedBlogs must be inside SavedBlogsProvider")
  }
}
