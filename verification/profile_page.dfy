/**
 * The profile page: loading the signed-in user's profile, the three edit
 * modes (profile, bio, password) with their saves, the password fields'
 * visibility toggles, and the view each state renders.
 */
module ProfilePage {
  import opened Wrappers
  import opened Http
  import opened Ui
  import JsText

  datatype UserData = UserData(fullName: string, email: string, photo: Option<string>, bio: Option<string>)

  /** The inputs `handleChange` serves, by their `name` attribute. */
  datatype Field = FullName | Email | Bio

  datatype PasswordField = Current | NewPassword | Confirm

  datatype Passwords = Passwords(currentPassword: string, newPassword: string, confirmPassword: string)

  /** Which password inputs show their text. */
  datatype Shown = Shown(current: bool, newPassword: bool, confirm: bool)

  datatype State = State(user: Option<UserData>, loading: bool, editing: bool, editingPassword: bool,
                         editingBio: bool, submitting: bool, error: Option<string>, success: Option<string>,
                         passwords: Passwords, shown: Shown)

  /** The JSON body of the profile endpoints: a `status`, an optional
      `message` and, for the profile reads and edits, the user. */
  datatype Answer = Answer(status: string, message: Option<string>, user: Option<UserData>)

  /** What a save sends. */
  datatype Sent = ProfileForm(fullName: string, email: string, photo: Option<string>)
                | BioForm(bio: string)
                | PasswordForm(passwords: Passwords)

  /** One save: the state while the request runs, the request (none when a
      guard returned early), the state once it settled, and the toasts. */
  datatype Saving = Saving(during: State, sent: Option<Sent>, after: State, effects: seq<Effect>)

  const EmptyPasswords := Passwords("", "", "")
  const Hidden := Shown(false, false, false)
  const Initial := State(None, true, false, false, false, false, None, None, EmptyPasswords, Hidden)

  const Mismatch := "New passwords don't match"
  const FetchFailed := "Failed to fetch profile data"
  const UnknownError := "An unknown error occurred"
  /** The TypeError a success answer without a user raises when its fields
      are read. */
  const ReadOfUndefined := "Cannot read properties of undefined (reading 'fullName')"

  // ---------------------------------------------------------------------
  // Requests

  /** How every handler on this page settles a request: a body whose
      `status` is "success" goes on; any other body throws an Error with the
      body's message or `notSuccess`; a rejection keeps its message when it
      is an Error and becomes `unknown` otherwise. */
  function Settle(reply: Reply<Answer>, notSuccess: string, unknown: string): (r: Result<Answer, string>)
    ensures r.Success? <==> reply.Ok? && reply.body.status == "success"
    ensures r.Success? ==> r.value == reply.body
    ensures reply.Ok? && reply.body.status != "success" ==> r == Failure(JsText.OrElse(reply.body.message, notSuccess))
    ensures reply.Fail? && IsError(reply.fault) ==> r == Failure(ErrorMessage(reply.fault))
    ensures reply.Fail? && !IsError(reply.fault) ==> r == Failure(unknown)
  {
    match reply
    case Ok(a) =>
      if a.status == "success" then Success(a) else Failure(JsText.OrElse(a.message, notSuccess))
    case Fail(f) =>
      if IsError(f) then Failure(ErrorMessage(f)) else Failure(unknown)
  }

  /** `bio || null`: an empty bio is stored as no bio. */
  function NormalizeBio(u: UserData): (v: UserData)
    ensures v.fullName == u.fullName && v.email == u.email && v.photo == u.photo
    ensures JsText.Truthy(u.bio) ==> v.bio == u.bio
    ensures !JsText.Truthy(u.bio) ==> v.bio == None
  {
    u.(bio := if JsText.Truthy(u.bio) then u.bio else None)
  }

  /** `fetchProfile` on mount: the loaded user with its bio normalised, or
      the error text; loading ends either way. */
  function FetchProfile(s: State, reply: Reply<Answer>): (r: State)
    ensures !r.loading
    ensures r.editing == s.editing && r.editingPassword == s.editingPassword && r.editingBio == s.editingBio
    ensures r.success == s.success && r.submitting == s.submitting && r.passwords == s.passwords
    ensures var settled := Settle(reply, FetchFailed, UnknownError);
      && (settled.Success? && settled.value.user.Some? ==>
            r.user == Some(NormalizeBio(settled.value.user.value)) && r.error == s.error)
      && (settled.Success? && settled.value.user.None? ==> r.user == s.user && r.error == Some(ReadOfUndefined))
      && (settled.Failure? ==> r.user == s.user && r.error == Some(settled.error))
  {
    var s1 := s.(loading := false);
    match Settle(reply, FetchFailed, UnknownError)
    case Success(a) =>
      if a.user.Some? then s1.(user := Some(NormalizeBio(a.user.value)))
      else s1.(error := Some(ReadOfUndefined))
    case Failure(m) => s1.(error := Some(m))
  }

  /** After the load the bio is either absent or a non-empty text. */
  lemma LoadedBioIsTruthyOrAbsent(reply: Reply<Answer>)
    ensures var r := FetchProfile(Initial, reply);
      r.user.None? || r.user.value.bio.None? || r.user.value.bio.value != ""
  {
  }

  // ---------------------------------------------------------------------
  // Inputs

  /** `togglePasswordVisibility`: flips the one field named. */
  function ToggleVisibility(v: Shown, field: PasswordField): (r: Shown)
    ensures field == Current ==> r.current == !v.current && r.newPassword == v.newPassword && r.confirm == v.confirm
    ensures field == NewPassword ==> r.newPassword == !v.newPassword && r.current == v.current && r.confirm == v.confirm
    ensures field == Confirm ==> r.confirm == !v.confirm && r.current == v.current && r.newPassword == v.newPassword
  {
    match field
    case Current => v.(current := !v.current)
    case NewPassword => v.(newPassword := !v.newPassword)
    case Confirm => v.(confirm := !v.confirm)
  }

  /** Two clicks on the same eye restore the visibility, and clicks on
      different eyes commute. */
  lemma ToggleVisibilityInvolution(v: Shown, f: PasswordField, g: PasswordField)
    ensures ToggleVisibility(ToggleVisibility(v, f), f) == v
    ensures ToggleVisibility(ToggleVisibility(v, f), g) == ToggleVisibility(ToggleVisibility(v, g), f)
  {
  }

  /** `handleChange`: with no user nothing happens; otherwise the named
      field takes the typed text and the others stay. */
  function HandleChange(s: State, name: Field, value: string): (r: State)
    ensures s.user.None? ==> r == s
    ensures s.user.Some? ==> r.user.Some?
    ensures s.user.Some? && name == FullName ==> r == s.(user := Some(s.user.value.(fullName := value)))
    ensures s.user.Some? && name == Email ==> r == s.(user := Some(s.user.value.(email := value)))
    ensures s.user.Some? && name == Bio ==> r == s.(user := Some(s.user.value.(bio := Some(value))))
  {
    match s.user
    case None => s
    case Some(u) =>
      var v := match name
        case FullName => u.(fullName := value)
        case Email => u.(email := value)
        case Bio => u.(bio := Some(value));
      s.(user := Some(v))
  }

  /** `handlePasswordChange`: the named password input takes the text. */
  function HandlePasswordChange(p: Passwords, name: PasswordField, value: string): (r: Passwords)
    ensures name == Current ==> r == p.(currentPassword := value)
    ensures name == NewPassword ==> r == p.(newPassword := value)
    ensures name == Confirm ==> r == p.(confirmPassword := value)
  {
    match name
    case Current => p.(currentPassword := value)
    case NewPassword => p.(newPassword := value)
    case Confirm => p.(confirmPassword := value)
  }

  /** `handleImageUpload`: with a user and a picked file, the photo becomes
      the data URL the reader yields; otherwise nothing changes. */
  function HandleImageUpload(s: State, picked: bool, dataUrl: string): (r: State)
    ensures s.user.None? || !picked ==> r == s
    ensures s.user.Some? && picked ==> r == s.(user := Some(s.user.value.(photo := Some(dataUrl))))
  {
    if s.user.Some? && picked then s.(user := Some(s.user.value.(photo := Some(dataUrl)))) else s
  }

  /** The avatar's `onError`: the photo is dropped. */
  function PhotoFailed(s: State): (r: State)
    ensures s.user.Some? ==> r.user.Some? && r.user.value.photo.None?
    ensures s.user.None? ==> r == s
  {
    match s.user
    case None => s
    case Some(u) => s.(user := Some(u.(photo := None)))
  }

  // ---------------------------------------------------------------------
  // Saves

  /** `handleSave`: with no user nothing happens. Otherwise both messages
      are cleared, the name, the e-mail and the file input's photo are sent;
      success replaces the user with the server's and leaves edit mode; a
      failure records its message and raises the generic toast. */
  function HandleSave(s: State, file: Option<string>, reply: Reply<Answer>): (r: Saving)
    ensures s.user.None? ==> r == Saving(s, None, s, [])
    ensures s.user.Some? ==>
      && r.during == s.(submitting := true, error := None, success := None)
      && r.sent == Some(ProfileForm(s.user.value.fullName, s.user.value.email, file))
      && !r.after.submitting && r.after.success.None?
    ensures var settled := Settle(reply, "Failed to update profile", "Failed to update profile");
      s.user.Some? && settled.Success? ==>
      && r.after == r.during.(user := settled.value.user, editing := false, submitting := false)
      && r.effects == [ToastSuccess("Profile updated successfully")]
    ensures var settled := Settle(reply, "Failed to update profile", "Failed to update profile");
      s.user.Some? && settled.Failure? ==>
      && r.after == r.during.(error := Some(settled.error), submitting := false)
      && r.effects == [ToastError("Failed to update profile")]
  {
    match s.user
    case None => Saving(s, None, s, [])
    case Some(u) =>
      var during := s.(submitting := true, error := None, success := None);
      var sent := Some(ProfileForm(u.fullName, u.email, file));
      match Settle(reply, "Failed to update profile", "Failed to update profile")
      case Success(a) =>
        Saving(during, sent, during.(user := a.user, editing := false, submitting := false),
               [ToastSuccess("Profile updated successfully")])
      case Failure(m) =>
        Saving(during, sent, during.(error := Some(m), submitting := false), [ToastError("Failed to update profile")])
  }

  /** The bio save's guard: a user with a non-empty bio. */
  predicate CanSaveBio(s: State) {
    s.user.Some? && JsText.Truthy(s.user.value.bio)
  }

  /** `handleBioSave`: without a user or with an empty bio nothing happens.
      Otherwise the bio is sent; success leaves bio-edit mode, a failure
      records its message; either way a toast tells the outcome. */
  function HandleBioSave(s: State, reply: Reply<Answer>): (r: Saving)
    ensures !CanSaveBio(s) <==> r.sent.None?
    ensures !CanSaveBio(s) ==> r == Saving(s, None, s, [])
    ensures CanSaveBio(s) ==>
      && r.during == s.(submitting := true, error := None, success := None)
      && r.sent == Some(BioForm(s.user.value.bio.value))
      && !r.after.submitting && r.after.user == s.user
    ensures var settled := Settle(reply, "Failed to update bio", "Failed to update bio");
      CanSaveBio(s) && settled.Success? ==>
      && r.after == r.during.(editingBio := false, submitting := false)
      && r.effects == [ToastSuccess("Bio updated successfully")]
    ensures var settled := Settle(reply, "Failed to update bio", "Failed to update bio");
      CanSaveBio(s) && settled.Failure? ==>
      && r.after == r.during.(error := Some(settled.error), submitting := false)
      && r.effects == [ToastError("Failed to update bio")]
  {
    if !CanSaveBio(s) then Saving(s, None, s, [])
    else
      var during := s.(submitting := true, error := None, success := None);
      var sent := Some(BioForm(s.user.value.bio.value));
      match Settle(reply, "Failed to update bio", "Failed to update bio")
      case Success(_) =>
        Saving(during, sent, during.(editingBio := false, submitting := false), [ToastSuccess("Bio updated successfully")])
      case Failure(m) =>
        Saving(during, sent, during.(error := Some(m), submitting := false), [ToastError("Failed to update bio")])
  }

  /** Emptying the bio box makes "Save" do nothing: no request, no toast,
      and the bio editor stays open. */
  lemma ClearedBioCannotBeSaved(s: State, reply: Reply<Answer>)
    requires s.user.Some?
    ensures var cleared := HandleChange(s, Bio, "");
      HandleBioSave(cleared, reply) == Saving(cleared, None, cleared, [])
  {
  }

  /** `handlePasswordSave`: the error is cleared (the success message is
      not); a confirmation that differs from the new password fails before
      any request; otherwise the three fields are sent. Success leaves
      password-edit mode and empties the fields; any failure records its
      message and shows it in the toast. */
  function HandlePasswordSave(s: State, reply: Reply<Answer>): (r: Saving)
    ensures r.during == s.(submitting := true, error := None)
    ensures !r.after.submitting && r.after.user == s.user && r.after.success == s.success
    ensures r.sent.None? <==> s.passwords.newPassword != s.passwords.confirmPassword
    ensures r.sent.None? ==>
      r.after == r.during.(error := Some(Mismatch), submitting := false) && r.effects == [ToastError(Mismatch)]
    ensures r.sent.Some? ==> r.sent.value == PasswordForm(s.passwords)
    ensures var settled := Settle(reply, "Failed to change password", "Failed to change password");
      r.sent.Some? && settled.Success? ==>
      && r.after == r.during.(editingPassword := false, passwords := EmptyPasswords, submitting := false)
      && r.effects == [ToastSuccess("Password changed successfully")]
    ensures var settled := Settle(reply, "Failed to change password", "Failed to change password");
      r.sent.Some? && settled.Failure? ==>
      && r.after == r.during.(error := Some(settled.error), submitting := false)
      && r.effects == [ToastError(settled.error)]
  {
    var during := s.(submitting := true, error := None);
    if s.passwords.newPassword != s.passwords.confirmPassword then
      Saving(during, None, during.(error := Some(Mismatch), submitting := false), [ToastError(Mismatch)])
    else
      var sent := Some(PasswordForm(s.passwords));
      match Settle(reply, "Failed to change password", "Failed to change password")
      case Success(_) =>
        Saving(during, sent, during.(editingPassword := false, passwords := EmptyPasswords, submitting := false),
               [ToastSuccess("Password changed successfully")])
      case Failure(m) =>
        Saving(during, sent, during.(error := Some(m), submitting := false), [ToastError(m)])
  }

  // ---------------------------------------------------------------------
  // Rendering

  /** The buttons at the bottom of the card. */
  datatype Actions = PasswordButtons | ProfileButtons | StartButtons

  datatype View =
    | Spinner
      /** The full-page error with its "Retry" reload button. */
    | ErrorPage(message: string)
    | NoProfile
    | Profile(successBanner: Option<string>, errorBanner: Option<string>, avatar: Option<string>,
              bioText: string, editBioButton: bool, actions: Actions)

  /** True when some edit mode is on. */
  predicate InEditMode(s: State) {
    s.editing || s.editingPassword || s.editingBio
  }

  /** The page: the spinner while loading; a non-empty error outside every
      edit mode takes the whole page; no user shows the placeholder;
      otherwise the card, with the error as a banner inside edit modes. */
  function Render(s: State, base: string): (v: View)
    ensures s.loading <==> v == Spinner
    ensures v.ErrorPage? <==> !s.loading && JsText.Truthy(s.error) && !InEditMode(s)
    ensures v.ErrorPage? ==> v.message == s.error.value
    ensures v == NoProfile <==> !s.loading && s.user.None? && !(JsText.Truthy(s.error) && !InEditMode(s))
    ensures v.Profile? ==>
      && s.user.Some?
      && (v.errorBanner.Some? <==> JsText.Truthy(s.error) && InEditMode(s))
      && (v.successBanner.Some? <==> JsText.Truthy(s.success))
      && v.avatar == JsText.PrefixIfTruthy(base, s.user.value.photo)
      && v.bioText == JsText.OrElse(s.user.value.bio, "No bio provided")
      && (v.editBioButton <==> !s.editingBio && !s.editing)
      && (v.actions == PasswordButtons <==> s.editingPassword)
      && (v.actions == ProfileButtons <==> !s.editingPassword && s.editing)
  {
    if s.loading then Spinner
    else if JsText.Truthy(s.error) && !InEditMode(s) then ErrorPage(s.error.value)
    else if s.user.None? then NoProfile
    else
      var u := s.user.value;
      Profile(if JsText.Truthy(s.success) then s.success else None,
              if JsText.Truthy(s.error) && InEditMode(s) then s.error else None,
              JsText.PrefixIfTruthy(base, u.photo),
              JsText.OrElse(u.bio, "No bio provided"),
              !s.editingBio && !s.editing,
              if s.editingPassword then PasswordButtons else if s.editing then ProfileButtons else StartButtons)
  }

  /** Once loaded with a user, a non-empty error is always on screen: as the
      full page outside edit modes, as a banner inside them. */
  lemma ErrorAlwaysShown(s: State, base: string)
    requires !s.loading && s.user.Some? && JsText.Truthy(s.error)
    ensures var v := Render(s, base);
      (v.ErrorPage? && v.message == s.error.value) || (v.Profile? && v.errorBanner == s.error)
  {
  }

  /** A failed bio save keeps the bio editor open and shows its message as a
      banner in the card. */
  lemma FailedBioSaveShowsBanner(s: State, base: string, f: Fault)
    requires CanSaveBio(s) && s.editingBio && !s.loading
    requires IsError(f) && ErrorMessage(f) != ""
    ensures var v := Render(HandleBioSave(s, Fail(f)).after, base);
      v.Profile? && v.errorBanner == Some(ErrorMessage(f))
  {
  }

  /** A mismatched confirmation outside password-edit mode (a state the
      buttons do not offer) would take the whole page. Inside it, the
      mismatch shows as a banner and the form stays open. */
  lemma MismatchShowsBanner(s: State, base: string, reply: Reply<Answer>)
    requires s.editingPassword && !s.loading && s.user.Some?
    requires s.passwords.newPassword != s.passwords.confirmPassword
    ensures var v := Render(HandlePasswordSave(s, reply).after, base);
      v.Profile? && v.errorBanner == Some(Mismatch) && v.actions == PasswordButtons
  {
  }

  // ---------------------------------------------------------------------
  // The success message

  /** Everything the user can do on the page. */
  datatype Event =
    | Loaded(reply: Reply<Answer>)
    | ToggleEye(field: PasswordField)
    | Typed(name: Field, value: string)
    | TypedPassword(pname: PasswordField, pvalue: string)
    | PickedPhoto(picked: bool, dataUrl: string)
    | AvatarBroke
    | SaveProfile(file: Option<string>, saveReply: Reply<Answer>)
    | SaveBio(bioReply: Reply<Answer>)
    | SavePassword(passwordReply: Reply<Answer>)
    | SetEditing(on: bool)
    | SetEditingPassword(onPassword: bool)
    | SetEditingBio(onBio: bool)

  function Step(s: State, e: Event): State {
    match e
    case Loaded(reply) => FetchProfile(s, reply)
    case ToggleEye(f) => s.(shown := ToggleVisibility(s.shown, f))
    case Typed(n, v) => HandleChange(s, n, v)
    case TypedPassword(n, v) => s.(passwords := HandlePasswordChange(s.passwords, n, v))
    case PickedPhoto(p, d) => HandleImageUpload(s, p, d)
    case AvatarBroke => PhotoFailed(s)
    case SaveProfile(file, reply) => HandleSave(s, file, reply).after
    case SaveBio(reply) => HandleBioSave(s, reply).after
    case SavePassword(reply) => HandlePasswordSave(s, reply).after
    case SetEditing(on) => s.(editing := on)
    case SetEditingPassword(on) => s.(editingPassword := on)
    case SetEditingBio(on) => s.(editingBio := on)
  }

  function Run(s: State, events: seq<Event>): State
    decreases |events|
  {
    if |events| == 0 then s else Run(Step(s, events[0]), events[1..])
  }

  /** No handler ever sets the success message, so from the initial state
      the green banner never appears, and no request is left marked as
      running once it settled. */
  lemma {:induction false} SuccessBannerNeverShows(s: State, events: seq<Event>, base: string)
    requires s.success.None? && !s.submitting
    ensures var r := Run(s, events);
      r.success.None? && !r.submitting && (Render(r, base).Profile? ==> Render(r, base).successBanner.None?)
    decreases |events|
  {
    if |events| > 0 {
      StepKeepsQuiet(s, events[0]);
      SuccessBannerNeverShows(Step(s, events[0]), events[1..], base);
    }
  }

  /** One event never sets the success message and never leaves a request
      marked as running. */
  lemma StepKeepsQuiet(s: State, e: Event)
    requires s.success.None? && !s.submitting
    ensures Step(s, e).success.None? && !Step(s, e).submitting
  {
  }

  // ---------------------------------------------------------------------
  // The uploaded photo's preview

  /** As written, a picked photo is stored as a data URL and the avatar
      prefixes the API base to it, so the preview points at a URL that does
      not exist (its `onError` then drops the photo). */
  lemma UploadedPhotoUrlIsBroken(s: State, base: string, dataUrl: string)
    requires s.user.Some? && !s.loading && !JsText.Truthy(s.error) && dataUrl != "" && base != ""
    ensures var v := Render(HandleImageUpload(s, true, dataUrl), base);
      v.Profile? && v.avatar == Some(base + dataUrl) && v.avatar != Some(dataUrl)
  {
    assert |base + dataUrl| > |dataUrl|;
  }

  /** The avatar source as evidently intended: a data URL from the reader is
      used as it is, a stored path is prefixed with the API base. */
  function AvatarUrlIntended(base: string, photo: Option<string>): (url: Option<string>)
    ensures url.None? <==> !JsText.Truthy(photo)
    ensures url.Some? && JsText.StartsWith(photo.value, "data:") ==> url.value == photo.value
    ensures url.Some? && !JsText.StartsWith(photo.value, "data:") ==> url == JsText.PrefixIfTruthy(base, photo)
  {
    if JsText.Truthy(photo) && JsText.StartsWith(photo.value, "data:") then photo else JsText.PrefixIfTruthy(base, photo)
  }

  /** With the intended source, the preview after a pick is the picked
      image itself, and stored photos keep their server URL. */
  lemma IntendedUploadShowsDataUrl(s: State, base: string, dataUrl: string)
    requires s.user.Some? && JsText.StartsWith(dataUrl, "data:")
    ensures var r := HandleImageUpload(s, true, dataUrl);
      AvatarUrlIntended(base, r.user.value.photo) == Some(dataUrl)
  {
  }
}
