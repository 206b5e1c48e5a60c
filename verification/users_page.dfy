/**
 * The admin users dashboard: the case-insensitive search, ten-per-page
 * pagination, the page count, the blog-posting permission switch and the
 * confirmed removal of a user.
 */
module UsersPage {
  import opened Wrappers
  import opened Http
  import opened Ui
  import JsText
  import Lists

  datatype User = User(id: int, fullName: string, email: string, canPostBlog: bool)

  const ItemsPerPage: nat := 10

  function UserId(u: User): int { u.id }

  // ---------------------------------------------------------------------
  // Search

  /** A user matches when the lower-cased term occurs in the lower-cased
      name or e-mail. */
  predicate Matches(u: User, term: string) {
    JsText.Includes(JsText.Lower(u.fullName), JsText.Lower(term))
    || JsText.Includes(JsText.Lower(u.email), JsText.Lower(term))
  }

  /** `filteredUsers`: exactly the matching users, in their original order. */
  function FilterUsers(users: seq<User>, term: string): (r: seq<User>)
    ensures |r| <= |users|
    ensures forall u :: u in r <==> u in users && Matches(u, term)
  {
    if |users| == 0 then []
    else (if Matches(users[0], term) then [users[0]] else []) + FilterUsers(users[1..], term)
  }

  /** The filter works user by user, so it keeps the server's order. */
  lemma {:induction false} FilterUsersAppend(a: seq<User>, b: seq<User>, term: string)
    ensures FilterUsers(a + b, term) == FilterUsers(a, term) + FilterUsers(b, term)
    decreases |a|
  {
    if |a| == 0 {
      assert a + b == b;
    } else {
      assert (a + b)[1..] == a[1..] + b;
      FilterUsersAppend(a[1..], b, term);
    }
  }

  /** An empty search term keeps every user. */
  lemma {:induction false} EmptyTermKeepsAll(users: seq<User>)
    ensures FilterUsers(users, "") == users
    decreases |users|
  {
    if |users| > 0 {
      JsText.IncludesEmpty(JsText.Lower(users[0].fullName));
      EmptyTermKeepsAll(users[1..]);
      assert users == [users[0]] + users[1..];
    }
  }

  lemma LowerIdempotent(s: string)
    ensures JsText.Lower(JsText.Lower(s)) == JsText.Lower(s)
  {
  }

  /** The search ignores the case of the term. */
  lemma {:induction false} SearchIgnoresCase(users: seq<User>, term: string)
    ensures FilterUsers(users, JsText.Lower(term)) == FilterUsers(users, term)
    decreases |users|
  {
    LowerIdempotent(term);
    if |users| > 0 {
      SearchIgnoresCase(users[1..], term);
    }
  }

  // ---------------------------------------------------------------------
  // Pagination

  /** A relative index of `Array.prototype.slice`: negative counts from the
      end; the result is clamped to `[0, len]`. */
  function SliceIndex(i: int, len: nat): (r: nat)
    ensures r <= len
    ensures 0 <= i <= len ==> r == i
  {
    if i < 0 then (if len + i < 0 then 0 else len + i)
    else if i > len then len
    else i
  }

  /** `xs.slice(start, end)` */
  function Slice<T>(xs: seq<T>, start: int, end: int): (r: seq<T>)
    ensures |r| <= |xs|
    ensures 0 <= start <= end ==> |r| <= end - start
  {
    var from := SliceIndex(start, |xs|);
    var to := SliceIndex(end, |xs|);
    if from < to then xs[from..to] else []
  }

  /** `paginatedUsers`: page `p` (counting from 1) holds the filtered users
      at positions `(p-1)*10` up to `p*10`, so at most ten, in order. */
  function Paginate(users: seq<User>, page: int): (r: seq<User>)
    ensures |r| <= ItemsPerPage
    ensures page >= 1 ==>
      r == users[JsText.Min((page - 1) * ItemsPerPage, |users|)..JsText.Min(page * ItemsPerPage, |users|)]
  {
    Slice(users, (page - 1) * ItemsPerPage, page * ItemsPerPage)
  }

  /** Pages 1 to k, one after the other. */
  function PagesUpTo(users: seq<User>, k: nat): seq<User> {
    if k == 0 then [] else PagesUpTo(users, k - 1) + Paginate(users, k)
  }

  /** The pages tile the list: pages 1 to k together are exactly its first
      10·k users, so every user appears on exactly one page. */
  lemma {:induction false} PagesTileTheList(users: seq<User>, k: nat)
    ensures PagesUpTo(users, k) == users[..JsText.Min(k * ItemsPerPage, |users|)]
  {
    if k > 0 {
      PagesTileTheList(users, k - 1);
      var lo := JsText.Min((k - 1) * ItemsPerPage, |users|);
      var hi := JsText.Min(k * ItemsPerPage, |users|);
      assert users[..lo] + users[lo..hi] == users[..hi];
    }
  }

  /** `totalPages`: `Math.ceil(totalCount / 10)`, the least number of pages
      of ten that holds `totalCount` users. */
  function TotalPages(totalCount: nat): (r: nat)
    ensures r * ItemsPerPage >= totalCount
    ensures r > 0 ==> (r - 1) * ItemsPerPage < totalCount
  {
    (totalCount + ItemsPerPage - 1) / ItemsPerPage
  }

  /** The pagination control shows only when the filtered list spills onto a
      second page. */
  function ShowPagination(filtered: seq<User>): (show: bool)
    ensures show <==> Paginate(filtered, 2) != []
  {
    |filtered| > ItemsPerPage
  }

  datatype ListState = ListState(searchTerm: string, currentPage: int)

  /** `handleSearch`: a new term always goes back to page 1, which then shows
      the first ten matching users. */
  function HandleSearch(s: ListState, users: seq<User>, term: string): (r: ListState)
    ensures r.searchTerm == term && r.currentPage == 1
    ensures var hits := FilterUsers(users, term);
      Paginate(hits, r.currentPage) == hits[..JsText.Min(ItemsPerPage, |hits|)]
  {
    ListState(term, 1)
  }

  // ---------------------------------------------------------------------
  // Loading and activity

  /** The list endpoint's body: the users and the server's total count. */
  datatype UsersBody = UsersBody(data: seq<User>, totalCount: nat)

  datatype Loaded = Loaded(users: seq<User>, totalPages: nat, loading: bool, effects: seq<Effect>)

  /** `fetchUsers`: a success replaces the list and derives the page count
      from the server's total; a failure keeps both and shows an error.
      Loading ends either way. */
  function FetchUsers(users: seq<User>, totalPages: nat, reply: Reply<UsersBody>): (r: Loaded)
    ensures !r.loading
    ensures reply.Ok? ==>
      && r.users == reply.body.data && r.effects == []
      && r.totalPages * ItemsPerPage >= reply.body.totalCount
      && (r.totalPages > 0 ==> (r.totalPages - 1) * ItemsPerPage < reply.body.totalCount)
      && (r.totalPages == 0 <==> reply.body.totalCount == 0)
      && r.totalPages == TotalPages(reply.body.totalCount)
    ensures reply.Fail? ==>
      r.users == users && r.totalPages == totalPages && r.effects == [ToastError("Failed to fetch users")]
  {
    match reply
    case Ok(body) => Loaded(body.data, TotalPages(body.totalCount), false, [])
    case Fail(_) => Loaded(users, totalPages, false, [ToastError("Failed to fetch users")])
  }

  /** The error toast of `handleViewActivity`: for an axios error the
      server's message, else the error's own message, else the default; for
      another Error its message as is; for anything else the default. */
  function ActivityErrorText(f: Fault): (text: string)
    ensures IsAxiosError(f) ==> text != ""
    ensures IsAxiosError(f) && JsText.Truthy(ResponseMessage(f)) ==> text == ResponseMessage(f).value
    ensures f.PlainError? ==> text == f.message
    ensures f.Thrown? ==> text == "Failed to fetch user activity"
  {
    if IsAxiosError(f) then
      if JsText.Truthy(ResponseMessage(f)) then ResponseMessage(f).value
      else if ErrorMessage(f) != "" then ErrorMessage(f)
      else "Failed to fetch user activity"
    else if IsError(f) then ErrorMessage(f)
    else "Failed to fetch user activity"
  }

  // ---------------------------------------------------------------------
  // Blog-posting permission

  datatype PermissionRequest = DenyBlog(userId: int) | AllowBlog(userId: int)

  datatype PermissionResult = PermissionResult(users: seq<User>, sent: PermissionRequest, effects: seq<Effect>)

  /** Sets the flag of every user with the id; every other user, and every
      other field, is unchanged. */
  function SetPermission(users: seq<User>, userId: int, flag: bool): (r: seq<User>)
    ensures |r| == |users|
    ensures forall i :: 0 <= i < |users| ==>
      r[i] == if users[i].id == userId then users[i].(canPostBlog := flag) else users[i]
  {
    seq(|users|, i requires 0 <= i < |users| =>
      if users[i].id == userId then users[i].(canPostBlog := flag) else users[i])
  }

  /** `handleToggleBlogPermission(userId, currentStatus)`: the deny endpoint
      when the flag was set, the allow endpoint otherwise; on success the
      matching users get the negated flag; on failure nothing changes. */
  function TogglePermission(users: seq<User>, userId: int, currentStatus: bool, reply: Reply<()>): (r: PermissionResult)
    ensures r.sent == if currentStatus then DenyBlog(userId) else AllowBlog(userId)
    ensures reply.Ok? ==>
      && r.users == SetPermission(users, userId, !currentStatus)
      && r.effects == [ToastSuccess("User " + (if currentStatus then "denied" else "allowed") + " blog posting successfully")]
    ensures reply.Fail? ==> r.users == users && r.effects == [ToastError("Failed to update blog permission")]
  {
    var sent := if currentStatus then DenyBlog(userId) else AllowBlog(userId);
    match reply
    case Ok(_) =>
      PermissionResult(SetPermission(users, userId, !currentStatus), sent,
        [ToastSuccess("User " + (if currentStatus then "denied" else "allowed") + " blog posting successfully")])
    case Fail(_) => PermissionResult(users, sent, [ToastError("Failed to update blog permission")])
  }

  /** Switching a user's permission twice, each time from the flag shown,
      restores the list. */
  lemma TogglePermissionTwice(users: seq<User>, userId: int, current: bool)
    requires forall i :: 0 <= i < |users| && users[i].id == userId ==> users[i].canPostBlog == current
    ensures var once := TogglePermission(users, userId, current, Ok(())).users;
      TogglePermission(once, userId, !current, Ok(())).users == users
  {
    var once := TogglePermission(users, userId, current, Ok(())).users;
    var twice := TogglePermission(once, userId, !current, Ok(())).users;
    assert forall i :: 0 <= i < |users| ==> twice[i] == users[i];
  }

  // ---------------------------------------------------------------------
  // Removal

  datatype DeleteTarget = DeleteTarget(id: int, name: string)

  datatype DeleteDialog = DeleteDialog(open: bool, target: Option<DeleteTarget>)

  datatype Deleted = Deleted(users: seq<User>, dialog: DeleteDialog, sent: Option<int>, effects: seq<Effect>)

  /** `handleRemoveClick`: remembers the user and opens the dialog. */
  function HandleRemoveClick(userId: int, userName: string): (d: DeleteDialog)
    ensures d.open && d.target == Some(DeleteTarget(userId, userName))
  {
    DeleteDialog(true, Some(DeleteTarget(userId, userName)))
  }

  /** `handleCancelDelete`: closes the dialog and forgets the user. */
  function HandleCancelDelete(): (d: DeleteDialog)
    ensures !d.open && d.target.None?
  {
    DeleteDialog(false, None)
  }

  /** `handleConfirmDelete`: with no target, nothing happens; otherwise the
      removal is requested, a success drops every user with that id, and
      the dialog is closed and cleared whatever the outcome. */
  function ConfirmDelete(users: seq<User>, dialog: DeleteDialog, reply: Reply<()>): (r: Deleted)
    ensures dialog.target.None? ==> r == Deleted(users, dialog, None, [])
    ensures dialog.target.Some? ==> r.dialog == HandleCancelDelete() && r.sent == Some(dialog.target.value.id)
    ensures dialog.target.Some? && reply.Ok? ==>
      && (forall u :: u in r.users <==> u in users && u.id != dialog.target.value.id)
      && r.effects == [ToastSuccess("User removed successfully")]
    ensures dialog.target.Some? && reply.Fail? ==>
      r.users == users && r.effects == [ToastError("Failed to remove user")]
  {
    match dialog.target
    case None => Deleted(users, dialog, None, [])
    case Some(t) =>
      match reply
      case Ok(_) => Deleted(Lists.RemoveKey(users, UserId, t.id), DeleteDialog(false, None), Some(t.id),
                            [ToastSuccess("User removed successfully")])
      case Fail(_) => Deleted(users, DeleteDialog(false, None), Some(t.id), [ToastError("Failed to remove user")])
  }

  /** A removal keeps the remaining users in their order. */
  lemma RemovalKeepsOrder(a: seq<User>, b: seq<User>, t: DeleteTarget)
    ensures ConfirmDelete(a + b, DeleteDialog(true, Some(t)), Ok(())).users
         == Lists.RemoveKey(a, UserId, t.id) + Lists.RemoveKey(b, UserId, t.id)
  {
    Lists.RemoveKeyAppend(a, b, UserId, t.id);
  }
}
