# curious-life front end in Dafny

A model of the client side of the "curious-life" blogging site. That is a
Next.js application whose pages talk to a REST API through axios. The model
covers:

- the two React contexts (the session and the saved-blog ids);
- the bookmark button of a blog card;
- the sign-up, profile, create-blog, "My Blogs" and "Saved" pages;
- the admin users and admin blogs pages, the admin layout and its sidebar;
- the public home page and the navbar switch;
- the private navbar;
- the two home-page blog lists;
- the contact e-mail API route.

Every event handler becomes a total function. Its inputs are the component's
state before the event and the outcome of the request the handler awaits
(`Http.Reply`: a body, or a `Fault` that says which kind of error was
thrown). Its result is the state afterwards, the request it sent, and the
toasts and navigations it asked for (`Ui.Effect`). Every render becomes a
function from the state to the view it chooses.

Shared modules:

| module | contents |
|---|---|
| `Wrappers` | `Option` and `Result` |
| `Http` | the request outcome and the `axios.isAxiosError` / `instanceof Error` tests |
| `Ui` | the effects |
| `JsText` | the JavaScript string operations the pages rely on: truthiness, `trim`, `\s`, `split(" ")`, `split(/\s+/)`, `join`, `includes`, `startsWith`, `toLowerCase`, `slice`, `String(n)` |
| `Lists` | `filter` by key |
| `Views` | the spinner / error / empty / grid choice that two blog lists share |

There is one module per source file, named after the component.

## Model

| member | source | states |
|---|---|---|
| AuthContext.InitialState | context/AuthContext.tsx:29-32 | the session starts signed out, without a user, and loading |
| AuthContext.CheckAuth | context/AuthContext.tsx:35-51 | the probe signs in with the returned user exactly when it answered with a body; any failure is the guest state; loading ends either way |
| AuthContext.NormalizeUser | context/AuthContext.tsx:65 | the stored user is the wrapped `data` record when present, otherwise the body's own fields |
| AuthContext.NormalizeBothShapes | context/AuthContext.tsx:65 | both login response shapes store the same user |
| AuthContext.Login | context/AuthContext.tsx:53-79 | loading is raised, then cleared whatever the outcome; success signs in with the normalised user and returns the body; failure signs out and rethrows the same fault |
| AuthContext.Logout | context/AuthContext.tsx:81-96 | success clears the session and navigates to "/"; failure rethrows and leaves the state untouched |
| AuthContext.RunKeepsInvariant | context/AuthContext.tsx:29-96 | after any sequence of probes, logins and logouts, a signed-out session holds no user |
| AuthContext.ProbeFailureIsGuest | context/AuthContext.tsx:43-48 | every probe failure, whatever the fault, gives the same guest state |
| AuthContext.UseAuth | context/AuthContext.tsx:107-111 | the hook throws with its message exactly when there is no provider, and otherwise returns the context |
| SavedBlogsContext.ExtractIds | context/SavedBlogsContext.tsx:25 | the ids kept are exactly the truthy ids of the payload; 0 is never kept |
| SavedBlogsContext.ExtractIdsAppend | context/SavedBlogsContext.tsx:25 | extraction goes element by element, so it keeps the server's order |
| SavedBlogsContext.Fetch | context/SavedBlogsContext.tsx:16-30 | an array payload loads its truthy ids; a non-array loads nothing; a failed request keeps the list |
| SavedBlogsContext.FetchExample | context/SavedBlogsContext.tsx:24-26 | the payload [{id:3},{id:7},{id:9}] marks exactly 3, 7 and 9 as saved |
| SavedBlogsContext.IsSaved | context/SavedBlogsContext.tsx:54 | the scan answers true exactly when the id is in the list |
| SavedBlogsContext.Toggle | context/SavedBlogsContext.tsx:32-52 | the request direction comes from membership before the call; the list changes only on success; an unsave removes the id and only it; a save appends it |
| SavedBlogsContext.UnsaveKeepsOrder | context/SavedBlogsContext.tsx:40 | a successful unsave keeps the other ids in their relative order |
| SavedBlogsContext.ToggleKeepsNoDuplicates | context/SavedBlogsContext.tsx:32-52 | toggling never introduces a duplicate id |
| SavedBlogsContext.ToggleTwiceRestores | context/SavedBlogsContext.tsx:32-52 | two successful toggles restore every id's membership; starting from an unsaved id they restore the list itself |
| SavedBlogsContext.RetryAfterFailureSameDirection | context/SavedBlogsContext.tsx:49-51 | a failed toggle does not flip the direction of the next one |
| SavedBlogsContext.UseSavedBlogs | context/SavedBlogsContext.tsx:67-71 | the hook throws with its message exactly when there is no provider |
| CustomCard.HandleToggle | components/CustomCard.tsx:30-46 | nothing happens while loading; a guest gets the login toast and the sign-in page and no request; a signed-in user toggles, and the toast follows the membership before the click |
| CustomCard.ToggleFailureNeverReported | components/CustomCard.tsx:39-45 | because the context swallows errors, "Failed to toggle saved state" is never shown |
| CustomCard.FailedToggleStillShowsSuccess | components/CustomCard.tsx:39-45 | a rejected request leaves the list as it was but still shows the success toast |
| CustomCard.GuestClickNeverRequests | components/CustomCard.tsx:33-37 | a guest click sends nothing, reports an error and navigates to /signin |
| CustomCard.ButtonTitle | components/CustomCard.tsx:53 | the title reads "Unsave" exactly when the blog is saved, and "Save" exactly when it is not |
| CustomCard.ButtonIcon | components/CustomCard.tsx:55 | the icon is filled exactly when the blog is saved |
| CustomCard.SuccessfulClickFlipsTitle | components/CustomCard.tsx:30-55 | after a successful click the title offers the opposite action |
| SignupPage.Band | src/app/signup/page.tsx:64-73 | scores up to 2 are Weak/red, 3 is Medium/orange, 4 and up is Strong/green |
| SignupPage.CheckPasswordStrength | src/app/signup/page.tsx:42-81 | the score is 0 exactly for fewer than 6 characters; otherwise it is 1 for the length plus one point per criterion met (upper-case letter, digit, special character, 8+ characters), with its band; 5 exactly when all four are met |
| SignupPage.CountMet | src/app/signup/page.tsx:54-61 | the count of criteria met is at most their number; it is the full number exactly when every one is met and 0 exactly when none is |
| SignupPage.CriteriaScore | src/app/signup/page.tsx:54-61 | each of the four criteria adds exactly one to the count of criteria met |
| SignupPage.StrengthMonotone | src/app/signup/page.tsx:42-81 | appending characters to an acceptable password never lowers its score |
| SignupPage.StrengthFor | src/app/signup/page.tsx:29-40 | an empty password shows no strength; any other shows its check; the score is 0 exactly below 6 characters |
| SignupPage.EnabledIffPrechecksPass | src/app/signup/page.tsx:94-100 | the submit button is enabled exactly when the handler's pre-checks would pass |
| SignupPage.FailureText | src/app/signup/page.tsx:118-128 | a 400 always reads "Email already exists"; other statuses show the server's message or the default |
| SignupPage.Submit | src/app/signup/page.tsx:91-147 | a short password, then a mismatch, is rejected without a request; a failure shows the network-error text; a non-201 answer shows the failure text and keeps the form |
| SignupPage.CreatedAccountReportedAsFailure | src/app/signup/page.tsx:131-146 | as written, a 201 ends with the network-error toast, no navigation and the form unchanged |
| SignupPage.SubmitIntended | src/app/signup/page.tsx:131-141 | had the auth context exposed the setter it calls, a 201 would show only the success toast, navigate home, clear the form and sign in |
| SignupPage.IntendedDiffersOnlyOnCreated | src/app/signup/page.tsx:91-147 | the corrected handler agrees with the written one off the 201 path and keeps the session invariant |
| UsersPage.FilterUsers | src/app/dashboard/users/page.tsx:150-153 | exactly the users whose name or e-mail contains the term, ignoring case |
| UsersPage.FilterUsersAppend | src/app/dashboard/users/page.tsx:150-153 | filtering keeps the original order |
| UsersPage.EmptyTermKeepsAll | src/app/dashboard/users/page.tsx:150-153 | an empty search term keeps every user |
| UsersPage.SearchIgnoresCase | src/app/dashboard/users/page.tsx:151-152 | lower-casing the term first changes nothing |
| UsersPage.Paginate | src/app/dashboard/users/page.tsx:155-158 | page p holds at most ten users, those at positions (p-1)*10 up to p*10 |
| UsersPage.PagesTileTheList | src/app/dashboard/users/page.tsx:127-158 | pages 1..k together are exactly the first 10k filtered users, so each user is on exactly one page |
| UsersPage.TotalPages | src/app/dashboard/users/page.tsx:138 | the page count is the least number of ten-user pages that hold the total |
| UsersPage.ShowPagination | src/app/dashboard/users/page.tsx:327 | the pager shows exactly when a second page has users |
| UsersPage.HandleSearch | src/app/dashboard/users/page.tsx:160-163 | a new term goes back to page 1, which shows the first ten hits |
| UsersPage.FetchUsers | src/app/dashboard/users/page.tsx:130-148 | success stores the users and the page count `ceil(totalCount / 10)`: the least number of ten-user pages that holds the total, 0 for no users; failure keeps both and shows the error toast |
| UsersPage.ActivityErrorText | src/app/dashboard/users/page.tsx:184-192 | the server's message for an axios error that has one, the error's message for a plain Error, the default otherwise |
| UsersPage.SetPermission | src/app/dashboard/users/page.tsx:208-210 | exactly the users with the id get the new flag; every other user is unchanged |
| UsersPage.TogglePermission | src/app/dashboard/users/page.tsx:198-217 | the deny or allow request follows the current flag; success flips it with the matching toast; failure changes nothing |
| UsersPage.TogglePermissionTwice | src/app/dashboard/users/page.tsx:198-217 | two successful toggles restore the list |
| UsersPage.HandleRemoveClick | src/app/dashboard/users/page.tsx:219-222 | the confirmation opens on that user |
| UsersPage.HandleCancelDelete | src/app/dashboard/users/page.tsx:242-245 | the confirmation closes without a target |
| UsersPage.ConfirmDelete | src/app/dashboard/users/page.tsx:224-240 | without a target nothing happens; otherwise the request goes out for the target, success removes exactly the users with that id, and the dialog closes |
| UsersPage.RemovalKeepsOrder | src/app/dashboard/users/page.tsx:231 | removal keeps the other users in order |
| SendEmail.FirstAt | src/app/api/send-email.js:21 | the position of the first "@", or none exactly when there is none |
| SendEmail.EmailCheckMatchesPattern | src/app/api/send-email.js:21-26 | the scan accepts exactly the strings the e-mail regular expression matches |
| SendEmail.EmailExamples | src/app/api/send-email.js:21 | "a@b.co" passes; a missing dot, an empty local part, an empty domain label, a space or a second "@" fail |
| SendEmail.ReplaceNewlines | src/app/api/send-email.js:50 | no line feed survives, and each one becomes "<br>" |
| SendEmail.ReplaceNewlinesAppend | src/app/api/send-email.js:50 | the replacement works piecewise over a concatenation |
| SendEmail.Compose | src/app/api/send-email.js:38-54 | the sender, recipient, subject and plain text are built from the fields; the html carries the name, e-mail and the flattened message |
| SendEmail.Post | src/app/api/send-email.js:8-68 | an unreadable body is a 500; a missing field is a 400; a mail goes out exactly for complete fields with a valid address; the answer is 200 exactly when it was sent |
| SendEmail.InvalidAddressRejected | src/app/api/send-email.js:21-26 | complete fields with an address the pattern rejects give the invalid-e-mail answer and no mail |
| PopularPosts.WordCount | components/PopularPosts.tsx:141 | the count is the number of words of the body, or 1 for a blank body |
| PopularPosts.ReadMinutes | components/PopularPosts.tsx:142 | the least number of minutes at 200 words per minute, at least 1 for any word |
| PopularPosts.ReadTime | components/PopularPosts.tsx:142 | the label is a decimal number followed by " min read" |
| PopularPosts.ReadTimeNamesMinutes | components/PopularPosts.tsx:141-142 | the number in the label reads back as the rounded-up reading time |
| PopularPosts.Description | components/PopularPosts.tsx:144-147 | a body up to 150 characters is shown whole; a longer one is the trimmed first 147 characters plus the ellipsis literal |
| PopularPosts.ToCard | components/PopularPosts.tsx:140-174 | each card field comes from the blog as described |
| PopularPosts.ErrorText | components/PopularPosts.tsx:40-46 | the server's message or the default for an axios error, the Error's message, else the default |
| PopularPosts.Fetch | components/PopularPosts.tsx:28-52 | success stores the blogs; failure keeps them and records the error text |
| PopularPosts.Render | components/PopularPosts.tsx:54-174 | skeleton while loading, then the error panel, then the empty state, then one card per blog in order |
| PopularPosts.FailedLoadShowsNoCards | components/PopularPosts.tsx:40-103 | a failed first load never shows cards; an Error with an empty message shows the empty state |
| BlogSection.FetchError | components/BlogSection.tsx:36-41 | a 404 axios error gives the no-blogs marker and every other failure the generic text |
| BlogSection.Fetch | components/BlogSection.tsx:27-48 | success stores the blogs or none; failure records the classified error |
| BlogSection.NotFoundShowsEmpty | components/BlogSection.tsx:36-37 | a 404 shows the empty state, not an error |
| BlogSection.Initial | components/BlogSection.tsx:166 | the first character plus "."; an empty part prints "undefined." |
| BlogSection.Abbreviate | components/BlogSection.tsx:162-168 | the first word becomes its initial and the rest of the name from the first space is kept |
| BlogSection.JoinWithInitialTail | components/BlogSection.tsx:165-167 | joining the fields back after abbreviating the first gives the initial plus the rest of the name |
| BlogSection.FirstFieldEndsAtFirstSpace | components/BlogSection.tsx:165 | the first field of split(" ") ends at the first space |
| BlogSection.AbbreviateKeepsRest | components/BlogSection.tsx:162-168 | the split, map and join of the source equals the direct definition |
| BlogSection.LeadingSpaceGivesUndefined | components/BlogSection.tsx:166 | a name starting with a space is shown as "undefined." and the name |
| BlogSection.FirstWordBecomesInitial | components/BlogSection.tsx:162-168 | a first word without spaces becomes its initial and a dot, and the rest of the name follows unchanged |
| BlogSection.ShortName | components/BlogSection.tsx:162-168 | the abbreviation is used exactly when the author has a name and no photo; with a photo the name itself is shown; with no author or an empty name the line is empty |
| BlogSection.Excerpt | components/BlogSection.tsx:176 | the text before the dots is a prefix of the body: the whole body when it has fewer than 20 fields, otherwise the part before its twentieth space (a prefix followed by a space and holding exactly 19 spaces) |
| BlogSection.AuthorId | components/BlogSection.tsx:179 | the author's id, or 0 when missing |
| BlogSection.ToCard | components/BlogSection.tsx:171-182 | each card field comes from the blog as described |
| BlogSection.Render | components/BlogSection.tsx:50-182 | the view follows the shared list choice, with one card per blog |
| Views.ChooseView | components/BlogSection.tsx:50-78 | spinner while loading; an error box for any error but the marker; the empty state for no blogs or the marker; else the grid |
| Views.MarkerMeansEmpty | src/app/bloglist/page.tsx:111-152 | the no-blogs marker always shows the empty state |
| BloglistPage.FetchError | src/app/bloglist/page.tsx:42-51 | a 404 gives the marker; another axios error gives the server's message or the error's; anything else the generic text |
| BloglistPage.Fetch | src/app/bloglist/page.tsx:35-58 | success stores the blogs or none; failure records the classified error |
| BloglistPage.SilentFailureShowsEmpty | src/app/bloglist/page.tsx:42-51 | an axios failure without any message leaves an empty error and shows the empty state |
| BloglistPage.ConfirmDelete | src/app/bloglist/page.tsx:76-91 | the blog is marked in flight; success removes exactly the blogs with that id; the mark is cleared either way |
| BloglistPage.DeleteDisabled | src/app/bloglist/page.tsx:302 | a button is disabled exactly while its blog is in flight |
| BloglistPage.OnlyDeletedBlogDisabled | src/app/bloglist/page.tsx:76-91 | only the deleted blog's button is disabled, and only while its request runs |
| BloglistPage.DeleteKeepsOrder | src/app/bloglist/page.tsx:82 | the other blogs keep their order |
| BloglistPage.ReplaceCrLf | src/app/bloglist/page.tsx:269 | no CR LF pair is left, a leading CR LF becomes a space, and a text without a CR LF pair (lone carriage returns included) is unchanged |
| BloglistPage.ReplaceCrLfAppend | src/app/bloglist/page.tsx:269 | the replacement works piecewise over a concatenation that does not split a carriage return from its successor |
| BloglistPage.LeadingCrLfBecomesSpace | src/app/bloglist/page.tsx:269 | a CR LF pair at the start becomes one space and the rest is flattened on its own |
| BloglistPage.CrLfBecomesSpace | src/app/bloglist/page.tsx:269 | for every text before and after it, a CR LF pair becomes exactly one space and the text on each side is flattened on its own; with the unchanged-without-pairs clause this pins the replacement |
| BloglistPage.Excerpt | src/app/bloglist/page.tsx:269 | the text before the dots is exactly the first 150 characters of the flattened body (all of a shorter one) and free of CR LF; for a body without CR LF pairs it is the body's own first 150 characters |
| BloglistPage.AvatarLetter | src/app/bloglist/page.tsx:285 | the first character of the name, or nothing for an empty name |
| BloglistPage.Render | src/app/bloglist/page.tsx:103-152 | the shared list choice; only the empty state and the grid are inside the client layout |
| SavedPage.Fetch | src/app/saved/page.tsx:28-45 | an array is stored; a non-array records "No saved blogs found."; a failure records the retry text |
| SavedPage.ErrorIsSticky | src/app/saved/page.tsx:28-45 | once an error is recorded, no retry clears it |
| SavedPage.RetryNeverLeavesErrorView | src/app/saved/page.tsx:78-107 | after an error the page keeps showing the error view through any retries |
| SavedPage.FetchAllEndsLoading | src/app/saved/page.tsx:43 | after at least one fetch the page is not loading |
| SavedPage.Render | src/app/saved/page.tsx:51-183 | skeleton, then error, then empty, then one card per saved blog in order |
| SavedPage.Excerpt | src/app/saved/page.tsx:177 | exactly the first hundred characters of the body (all of a shorter body) and "..."; 103 characters for a longer body |
| SavedPage.ToCard | src/app/saved/page.tsx:172-183 | both pictures are URLs and the reading time is always "5 min read" |
| CreateBlogPage.HandleChange | src/app/createblogform/page.tsx:33-36 | sets exactly the named field |
| CreateBlogPage.FinalCategory | src/app/createblogform/page.tsx:105 | the free text when "Other" is chosen, the option otherwise |
| CreateBlogPage.FinalCategoryFollowsChoice | src/app/createblogform/page.tsx:23-31 | any option but "Other" is sent as is, whatever the free text says |
| CreateBlogPage.FileProblem | src/app/createblogform/page.tsx:49-62 | a file is accepted exactly when it is at most 5 MB and its type starts with "image/"; size is checked first |
| CreateBlogPage.HandleImageChange | src/app/createblogform/page.tsx:38-47 | no file clears the preview; a file shows its data URL |
| CreateBlogPage.HandleFileInputChange | src/app/createblogform/page.tsx:49-62 | as written, the input keeps the picked file even when the image check rejects it |
| CreateBlogPage.HandleFileInputChangeIntended | src/app/createblogform/page.tsx:49-62 | the corrected handler also empties the input on a rejected file |
| CreateBlogPage.HandleDrop | src/app/createblogform/page.tsx:71-91 | dragging ends; a rejected drop only toasts; an accepted one is previewed and put in the input |
| CreateBlogPage.RemoveImage | src/app/createblogform/page.tsx:93-96 | no preview and an empty input; the form is untouched |
| CreateBlogPage.Submit | src/app/createblogform/page.tsx:100-162 | the title, body, final category and the input's file are sent, plus the free-text category field exactly when "Other" is chosen; a 201 resets everything; a failure toasts; submitting ends either way |
| CreateBlogPage.PublishText | src/app/createblogform/page.tsx:312-315 | the button reads "Publishing..." exactly while submitting |
| CreateBlogPage.RejectedPickIsUploaded | src/app/createblogform/page.tsx:49-62 | as written, a 6 MB picked PNG is refused with a toast and then uploaded |
| CreateBlogPage.IntendedStepsKeepInputAcceptable | src/app/createblogform/page.tsx:49-162 | with the corrected handler every upload carries no image or an accepted one |
| ProfilePage.Settle | src/app/profile/page.tsx:48-60 | a "success" answer succeeds; another answer fails with its message or the default; a thrown Error fails with its message |
| ProfilePage.NormalizeBio | src/app/profile/page.tsx:50-53 | an empty bio is stored as absent and nothing else changes |
| ProfilePage.FetchProfile | src/app/profile/page.tsx:40-66 | success loads the normalised user; any failure keeps the user and records the error; loading ends |
| ProfilePage.LoadedBioIsTruthyOrAbsent | src/app/profile/page.tsx:50-53 | a loaded profile never holds an empty bio |
| ProfilePage.ToggleVisibility | src/app/profile/page.tsx:69-74 | flips exactly the named eye |
| ProfilePage.ToggleVisibilityInvolution | src/app/profile/page.tsx:69-74 | toggling twice restores, and toggles commute |
| ProfilePage.HandleChange | src/app/profile/page.tsx:77-81 | without a user nothing changes; otherwise exactly the named field |
| ProfilePage.HandlePasswordChange | src/app/profile/page.tsx:84-87 | sets exactly the named password field |
| ProfilePage.HandleImageUpload | src/app/profile/page.tsx:90-100 | a picked file's data URL becomes the photo when there is a user |
| ProfilePage.PhotoFailed | src/app/profile/page.tsx:275 | a broken avatar clears the photo |
| ProfilePage.HandleSave | src/app/profile/page.tsx:103-143 | the name, e-mail and file are sent; success stores the returned user and leaves edit mode; failure records the message |
| ProfilePage.HandleBioSave | src/app/profile/page.tsx:146-174 | nothing is sent without a user or with an empty bio; success leaves bio editing; failure records the message |
| ProfilePage.ClearedBioCannotBeSaved | src/app/profile/page.tsx:147 | after clearing the bio, the save button does nothing |
| ProfilePage.HandlePasswordSave | src/app/profile/page.tsx:177-215 | a mismatch is refused without a request; success clears the three fields and leaves password editing; failure toasts its message |
| ProfilePage.Render | src/app/profile/page.tsx:217-550 | spinner, then a full-page error outside edit modes, then no profile, then the card with an error banner inside edit modes |
| ProfilePage.ErrorAlwaysShown | src/app/profile/page.tsx:225-264 | a recorded error is always visible, as a page or a banner |
| ProfilePage.FailedBioSaveShowsBanner | src/app/profile/page.tsx:146-174 | a failed bio save shows its message as a banner |
| ProfilePage.MismatchShowsBanner | src/app/profile/page.tsx:182-184 | a mismatch shows the banner and keeps the password buttons |
| ProfilePage.SuccessBannerNeverShows | src/app/profile/page.tsx:255-259 | no event ever sets the success message, so its banner never shows |
| ProfilePage.UploadedPhotoUrlIsBroken | src/app/profile/page.tsx:90-100 | as written, a freshly picked photo is shown at the base URL plus its data URL |
| ProfilePage.AvatarUrlIntended | src/app/profile/page.tsx:270-275 | the corrected avatar uses a data URL as is and prefixes the base onto server paths |
| ProfilePage.IntendedUploadShowsDataUrl | src/app/profile/page.tsx:90-100 | with the corrected avatar a picked photo shows its own data URL |
| AdminBlogsPage.Fetch | src/app/dashboard/blogs/page.tsx:61-78 | success stores the data; any failure records "Failed to load blogs" |
| AdminBlogsPage.OpenModal | src/app/dashboard/blogs/page.tsx:80-83 | the blog is selected and the modal opens |
| AdminBlogsPage.CloseModal | src/app/dashboard/blogs/page.tsx:85-88 | the modal closes and the selection is cleared |
| AdminBlogsPage.OpenDeleteConfirmation | src/app/dashboard/blogs/page.tsx:90-93 | the dialog opens on the blog |
| AdminBlogsPage.CloseDeleteConfirmation | src/app/dashboard/blogs/page.tsx:95-98 | the dialog closes and the target is cleared |
| AdminBlogsPage.OpenCloseRestores | src/app/dashboard/blogs/page.tsx:80-98 | opening and closing either overlay restores a closed state |
| AdminBlogsPage.HandleDelete | src/app/dashboard/blogs/page.tsx:100-116 | without a target nothing happens; otherwise the target is deleted, success refreshes, failure alerts, and the dialog closes |
| AdminBlogsPage.BlogZeroCannotBeDeleted | src/app/dashboard/blogs/page.tsx:101 | the blog with id 0 is never deleted and its dialog stays open |
| AdminBlogsPage.ConfirmedDeleteCloses | src/app/dashboard/blogs/page.tsx:100-116 | any other id is deleted and the dialog ends closed |
| AdminBlogsPage.DeletedBlogStaysListed | src/app/dashboard/blogs/page.tsx:100-116 | a deleted blog stays listed until the data is fetched again |
| AdminBlogsPage.ImageSrc | src/app/dashboard/blogs/page.tsx:183-203 | the placeholder only when the base and the path both print as empty |
| AdminBlogsPage.PlaceholderNeverShownWithBase | src/app/dashboard/blogs/page.tsx:183 | with a base URL the placeholder never shows |
| AdminBlogsPage.PersonAvatar | src/app/dashboard/blogs/page.tsx:282-303 | the photo itself, or the user placeholder |
| AdminBlogsPage.Render | src/app/dashboard/blogs/page.tsx:127-413 | spinner, error, the empty state by count, else the grid with its overlays |
| AdminBlogsPage.CountDecidesEmpty | src/app/dashboard/blogs/page.tsx:154 | the server's count, not the rows, decides the empty state |
| AdminLayout.RunEffect | components/AdminLayout.tsx:14-23 | nothing while loading; non-admins go to "/", admins outside /dashboard go there, and checking ends |
| AdminLayout.Render | components/AdminLayout.tsx:25-41 | spinner while checking, the children only for admins, nothing otherwise |
| AdminLayout.ChildrenOnlyForAdmins | components/AdminLayout.tsx:14-41 | the children appear only for an admin; a non-admin sees nothing and is sent home |
| AdminLayout.RedirectSettles | components/AdminLayout.tsx:18-19 | after the redirect to /dashboard the effect pushes nothing more |
| AdminLayout.PrefixIsTextual | components/AdminLayout.tsx:18 | the /dashboard check is a textual prefix, so "/dashboardx" passes |
| HomePage.Redirect | src/app/page.tsx:15-21 | admins, and only admins, are sent to /dashboard |
| HomePage.Render | src/app/page.tsx:23-45 | loading text, the public page, the admin layout or the client layout |
| HomePage.AdminHomeAgreesWithLayout | src/app/page.tsx:33-39 | the home page and the admin layout agree on admins |
| HomePage.MissingUserIsNotAdmin | src/app/page.tsx:41-45 | a signed-in session without a user gets the client layout |
| NavSwitcher.Choose | components/NavSwitcher.tsx:7-13 | no navbar while loading, then the private or public one by the session flag |
| NavSwitcher.OnlyFlagsMatter | components/NavSwitcher.tsx:10-12 | only the two flags decide the navbar |
| NavSwitcher.AgreesWithHomePage | components/NavSwitcher.tsx:10-12 | the public navbar shows exactly with the public home page |
| DashboardLayout.ActiveLinks | src/app/dashboard/layout.tsx:106-130 | the active links are those whose test holds, and there is at most one |
| DashboardLayout.AtMostOneActive | src/app/dashboard/layout.tsx:106-130 | no two sidebar links are active together |
| DashboardLayout.SectionCoversSubpages | src/app/dashboard/layout.tsx:118-130 | every subpage of users or blogs keeps its section active |
| DashboardLayout.HandleSignOut | src/app/dashboard/layout.tsx:21-54 | a request exactly when confirmed; a 200 toasts and leaves later; a failure toasts; cancelling toasts |
| DashboardLayout.LeavesOnlyOn200 | src/app/dashboard/layout.tsx:41-46 | the layout navigates exactly on a confirmed 200 |
| NavbarPrivate.FetchUser | components/NavbarPrivate.tsx:28-40 | success stores the user; failure keeps the old value |
| NavbarPrivate.FailedFetchLeavesNoUser | components/NavbarPrivate.tsx:28-40 | a failed first fetch leaves no user |
| NavbarPrivate.RenderAvatar | components/NavbarPrivate.tsx:94-117 | the photo, else the first word of the name, else the unknown icon |
| NavbarPrivate.FirstWordShown | components/NavbarPrivate.tsx:94-117 | the first word is shown exactly |
| NavbarPrivate.DesktopLinks | components/NavbarPrivate.tsx:140-146 | the main links plus /dashboard for admins |
| NavbarPrivate.DropdownLinks | components/NavbarPrivate.tsx:194-201 | the profile, plus /dashboard for admins |
| NavbarPrivate.MobileLinks | components/NavbarPrivate.tsx:226-232 | the same links as the desktop bar |
| NavbarPrivate.AdminLinkEverywhereOrNowhere | components/NavbarPrivate.tsx:146-232 | the admin link is in every menu or in none |
| NavbarPrivate.HandleSignout | components/NavbarPrivate.tsx:60-92 | a 200 toasts, goes home and reloads; another success only reloads; a failure toasts |
| NavbarPrivate.SignOutButtonsDisagreeOffStatus200 | components/NavbarPrivate.tsx:80-84 | off status 200 the navbar reloads while the dashboard button does nothing |
| JsText.Slot | src/app/dashboard/blogs/page.tsx:183 | a template slot prints the value itself, or the word for a missing value |
| JsText.Interpolate | src/app/saved/page.tsx:174-178 | the URL starts with the base and continues with the path, or with "null" when there is none |
| JsText.PrefixIfTruthy | components/BlogSection.tsx:154-160 | a URL, the base plus the value, exactly when the value is truthy; otherwise null |
| JsText.Trim | components/PopularPosts.tsx:141 | the trimmed text occurs in the input, has no white space at either end, and is empty exactly for blank input |
| JsText.TrimCutsOnlyBlanks | components/PopularPosts.tsx:141 | what trim() cuts off before and after the kept slice is white space only: exactly the leading blanks and the trailing blanks |
| JsText.TrimUnique | components/PopularPosts.tsx:141 | any slice of the input between two blank runs that neither starts nor ends with white space is the trimmed text, so the contracts above pin trim() |
| JsText.TrimIdempotent | components/PopularPosts.tsx:146 | trimming twice equals trimming once |
| JsText.Lower | src/app/dashboard/users/page.tsx:151-152 | same length, each ASCII capital replaced by its lower-case letter (code point plus 32), every other character kept |
| JsText.JoinSplit | components/BlogSection.tsx:165-167 | joining the fields of split(sep) with sep gives back the string |
| JsText.SplitOnCount | components/BlogSection.tsx:176 | split gives one field more than there are separators |
| JsText.CountCharJoin | components/BlogSection.tsx:176 | joining fields free of the separator puts exactly one separator between neighbours |
| JsText.JoinPrefixThenSeparator | components/BlogSection.tsx:176 | joining the first k of more fields gives a prefix of the full join that is followed by a separator |
| JsText.WordsSurviveTrim | components/PopularPosts.tsx:141 | trimming keeps the number of words |
| JsText.WordCountOfTrim | components/PopularPosts.tsx:141 | trim().split(/\s+/) has as many fields as the text has words |
| JsText.DecimalRoundTrip | components/PopularPosts.tsx:142 | the decimal text of a number reads back as the number |
| Lists.RemoveKey | src/app/dashboard/users/page.tsx:231 | keeps exactly the elements whose key differs, and is shorter when one matches |
| Lists.RemoveKeyAppend | src/app/dashboard/users/page.tsx:231 | filtering distributes over concatenation |
| Lists.RemoveKeyNoDuplicates | context/SavedBlogsContext.tsx:40 | filtering keeps a list free of duplicates |

## Left out

- The network, axios, nodemailer, `localStorage`, `FileReader` and `DataTransfer` are not modelled. Each request is replaced by its outcome (`Http.Reply`), and a file by its size, type and data URL, all passed as parameters.
- React's scheduling, effect re-runs and the interleaving of concurrent requests are not modelled. Each handler runs to completion in one step, and state updates within it apply in order.
- Dates formatted for the locale (`toLocaleDateString`) are parameters.
- Strings are sequences of code points, not UTF-16 code units, so `slice`, `substring` and `charAt` count code points.
- `toLowerCase` is modelled for ASCII letters only.
- The HTML body of the contact e-mail is reduced to its three interpolated slots.
- Console logging is not modelled, and neither are the toast icons (including the garbled cancel icons).
- Purely visual state is not modelled: the theme toggle, the scroll shadow, click-outside handling, the dropdown and mobile-menu toggles, the sidebar open/close, and the drag-over / drag-leave highlight of the image drop zone.
- The users page's `handlePageChange`, the `Pagination` component and `UserModal` are not part of this model.
- ProfilePage.FetchProfile: a "success" answer without a user reads a property of `undefined`. The resulting error text is engine-specific and is modelled as one fixed message.
- CreateBlogPage.Submit: the browser's own constraint validation is not modelled. The `required` inputs (createblogform/page.tsx lines 187, 205, 225 and 301) stop the submit event before the handler runs while a field is empty; the model lets the handler run with any field values, empty ones included.
- SignupPage.Submit: the browser's own constraint validation is not modelled. The `required` inputs (signup/page.tsx lines 173, 202, 236 and 304), `type="email"` (line 198) and `minLength={6}` on both password inputs (lines 237 and 305) stop the submit event before the handler runs. In a browser, the handler's own short-password toast is therefore reached only if that validation is bypassed; the model lets the handler run with any field values.
- UsersPage.ActivityErrorText: for an axios error without a server message, only states that the text is non-empty, not which message it is.
- SendEmail.Compose: the html part is stated through its three slots only.
- SendEmail.Post: request fields are modelled as strings or absent. A truthy field of another JSON type (a number such as 5 as `message`) passes the presence check and then makes `message.replace` throw, which the handler answers with the 500 "Failed to send message" reply and no mail; the model does not represent such bodies.

## Findings

| source | as written | input that shows it | evidently intended | confidence | as-written member | corrected member |
|---|---|---|---|---|---|---|
| src/app/signup/page.tsx:131-133 | after a 201 the handler calls `setIsAuthenticated`, which the auth context does not provide, so the call throws and the catch shows "Signup failed: Network error" | any 201 answer to a valid form | show the success toast, sign in and go home | high, not executed | SignupPage.CreatedAccountReportedAsFailure | SignupPage.IntendedDiffersOnlyOnCreated |
| src/app/createblogform/page.tsx:49-62 | a picked file that fails the size or type check only raises a toast; it stays in the file input and the next submit uploads it | pick a 6 MB image/png, then publish | take the rejected file out of the input | medium, not executed | CreateBlogPage.RejectedPickIsUploaded | CreateBlogPage.IntendedStepsKeepInputAcceptable |
| src/app/profile/page.tsx:270-275 | the avatar `src` prefixes the API base onto the photo, including the data URL of a freshly picked image | pick any image in edit mode | show a data URL as it is | medium, not executed | ProfilePage.UploadedPhotoUrlIsBroken | ProfilePage.IntendedUploadShowsDataUrl |
