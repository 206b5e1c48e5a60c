/**
 * The view choice shared by the blog lists that mark an empty result with
 * the error value "no-blogs": a spinner while loading, an error box for any
 * other non-empty error, the empty state for no blogs or the marker, and
 * the grid otherwise.
 */
module Views {
  import opened Wrappers
  import JsText

  /** The error value a 404 leaves behind: an empty list, not a failure. */
  const NoBlogsMarker := "no-blogs"

  datatype ListView = Spinner | ErrorBox(message: string) | Empty | Grid

  /** `loading`, then `error && error !== 'no-blogs'`, then
      `blogs.length === 0 || error === 'no-blogs'`, then the grid. */
  function ChooseView(loading: bool, error: Option<string>, count: nat): (v: ListView)
    ensures loading <==> v == Spinner
    ensures v.ErrorBox? <==> !loading && JsText.Truthy(error) && error.value != NoBlogsMarker
    ensures v.ErrorBox? ==> v.message == error.value
    ensures v == Grid <==> !loading && !JsText.Truthy(error) && count > 0
    ensures v == Empty <==> !loading && (error == Some(NoBlogsMarker) || (!JsText.Truthy(error) && count == 0))
  {
    if loading then Spinner
    else if JsText.Truthy(error) && error.value != NoBlogsMarker then ErrorBox(error.value)
    else if count == 0 || error == Some(NoBlogsMarker) then Empty
    else Grid
  }

  /** The marker is never shown as an error, and it hides whatever blogs
      are held. */
  lemma MarkerMeansEmpty(count: nat)
    ensures ChooseView(false, Some(NoBlogsMarker), count) == Empty
  {
  }
}
