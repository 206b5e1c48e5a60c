/**
 * The "Create New Blog Post" form: field edits, the category choice with its
 * free-text "Other", the image checks on pick and on drop, and the
 * multipart submit.
 */
module CreateBlogPage {
  import opened Wrappers
  import opened Http
  import opened Ui
  import JsText

  /** A file as the browser describes it: its size in bytes and MIME type. */
  datatype File = File(name: string, size: nat, mimeType: string)

  datatype FormFields = FormFields(title: string, body: string, category: string, otherCategory: string)

  datatype FieldName = Title | Body | Category | OtherCategory

  /** The form's state: its fields, the preview's data URL ("" for none),
      the file the hidden file input holds, and the two flags. */
  datatype Editor = Editor(form: FormFields, preview: string, inputFile: Option<File>,
                           isSubmitting: bool, isDragging: bool)

  /** What the submit sends as multipart fields. The form data is built from
      the form element, so besides the fields set explicitly it carries the
      free-text category input, which is rendered only while "Other" is
      chosen. */
  datatype Upload = Upload(title: string, body: string, category: string, otherCategory: Option<string>,
                           image: Option<File>)

  datatype Picked = Picked(editor: Editor, effects: seq<Effect>)

  datatype Submitted = Submitted(during: Editor, sent: Upload, after: Editor, effects: seq<Effect>)

  const EmptyFields := FormFields("", "", "", "")
  const Initial := Editor(EmptyFields, "", None, false, false)
  const MaxImageBytes: nat := 5 * 1024 * 1024
  const TooLarge := "Image size should be less than 5MB"
  const NotImage := "Only image files are allowed"

  /** The options of the category select, "Other" last. */
  const Categories := ["Technology", "Travel", "Food", "Lifestyle", "Health", "Finance", "Other"]

  // ---------------------------------------------------------------------
  // Fields

  /** `handleChange`: sets the named field and nothing else. */
  function HandleChange(f: FormFields, name: FieldName, value: string): (r: FormFields)
    ensures name == Title ==> r == f.(title := value)
    ensures name == Body ==> r == f.(body := value)
    ensures name == Category ==> r == f.(category := value)
    ensures name == OtherCategory ==> r == f.(otherCategory := value)
  {
    match name
    case Title => f.(title := value)
    case Body => f.(body := value)
    case Category => f.(category := value)
    case OtherCategory => f.(otherCategory := value)
  }

  /** The category sent: the free text when "Other" is chosen, the chosen
      option otherwise. */
  function FinalCategory(f: FormFields): (c: string)
    ensures f.category == "Other" ==> c == f.otherCategory
    ensures f.category != "Other" ==> c == f.category
  {
    if f.category == "Other" then f.otherCategory else f.category
  }

  /** The free-text box shows exactly when "Other" is chosen. */
  predicate ShowsOtherCategory(f: FormFields) {
    f.category == "Other"
  }

  /** A text typed in the free-text box is ignored unless "Other" is chosen,
      and for every option but "Other" the option itself is sent. */
  lemma FinalCategoryFollowsChoice(f: FormFields, other: string, i: nat)
    requires i < |Categories| - 1
    ensures FinalCategory(HandleChange(f, Category, Categories[i]).(otherCategory := other)) == Categories[i]
    ensures FinalCategory(HandleChange(f, Category, "Other")) == f.otherCategory
  {
  }

  // ---------------------------------------------------------------------
  // Image checks

  /** The image check applied to a picked or dropped file: the size first, then
      the MIME type. */
  function FileProblem(file: File): (p: Option<string>)
    ensures p.None? <==> file.size <= MaxImageBytes && JsText.StartsWith(file.mimeType, "image/")
    ensures file.size > MaxImageBytes ==> p == Some(TooLarge)
    ensures file.size <= MaxImageBytes && !JsText.StartsWith(file.mimeType, "image/") ==> p == Some(NotImage)
  {
    if file.size > MaxImageBytes then Some(TooLarge)
    else if !JsText.StartsWith(file.mimeType, "image/") then Some(NotImage)
    else None
  }

  /** `handleImageChange`: no file clears the preview; a file shows the data
      URL the reader yields. */
  function HandleImageChange(e: Editor, file: Option<File>, dataUrl: string): (r: Editor)
    ensures file.None? ==> r == e.(preview := "")
    ensures file.Some? ==> r == e.(preview := dataUrl)
  {
    if file.None? then e.(preview := "") else e.(preview := dataUrl)
  }

  /** `handleFileInputChange` as written. The browser has already put the
      picked file in the input; a file that fails the image check only raises a
      toast, so the input still holds it and the next submit uploads it. */
  function HandleFileInputChange(e: Editor, picked: Option<File>, dataUrl: string): (r: Picked)
    ensures r.editor.inputFile == picked
    ensures picked.None? ==> r == Picked(e.(inputFile := None), [])
    ensures picked.Some? && FileProblem(picked.value).Some? ==>
      r.editor == e.(inputFile := picked) && r.effects == [ToastError(FileProblem(picked.value).value)]
    ensures picked.Some? && FileProblem(picked.value).None? ==>
      r.editor == e.(inputFile := picked, preview := dataUrl) && r.effects == []
  {
    var held := e.(inputFile := picked);
    match picked
    case None => Picked(held, [])
    case Some(file) =>
      match FileProblem(file)
      case Some(problem) => Picked(held, [ToastError(problem)])
      case None => Picked(HandleImageChange(held, picked, dataUrl), [])
  }

  /** `handleFileInputChange` as evidently intended: a rejected file is also
      taken out of the input. */
  function HandleFileInputChangeIntended(e: Editor, picked: Option<File>, dataUrl: string): (r: Picked)
    ensures picked.Some? && FileProblem(picked.value).Some? ==>
      r.editor == e.(inputFile := None) && r.effects == [ToastError(FileProblem(picked.value).value)]
    ensures !(picked.Some? && FileProblem(picked.value).Some?) ==>
      r == HandleFileInputChange(e, picked, dataUrl)
  {
    if picked.Some? && FileProblem(picked.value).Some? then
      Picked(e.(inputFile := None), [ToastError(FileProblem(picked.value).value)])
    else HandleFileInputChange(e, picked, dataUrl)
  }

  /** `handleDrop`: dragging ends; a dropped file that fails the image check only
      raises a toast; one that passes is previewed and put in the input. */
  function HandleDrop(e: Editor, dropped: Option<File>, dataUrl: string): (r: Picked)
    ensures !r.editor.isDragging
    ensures dropped.Some? && FileProblem(dropped.value).Some? ==>
      r.editor == e.(isDragging := false) && r.effects == [ToastError(FileProblem(dropped.value).value)]
    ensures dropped.Some? && FileProblem(dropped.value).None? ==>
      r.editor == e.(isDragging := false, preview := dataUrl, inputFile := dropped) && r.effects == []
    ensures dropped.None? ==> r == Picked(e.(isDragging := false), [])
  {
    var e1 := e.(isDragging := false);
    match dropped
    case None => Picked(e1, [])
    case Some(file) =>
      match FileProblem(file)
      case Some(problem) => Picked(e1, [ToastError(problem)])
      case None => Picked(HandleImageChange(e1, dropped, dataUrl).(inputFile := dropped), [])
  }

  /** `removeImage`: no preview, empty input. */
  function RemoveImage(e: Editor): (r: Editor)
    ensures r.preview == "" && r.inputFile.None?
    ensures r.form == e.form && r.isSubmitting == e.isSubmitting
  {
    e.(preview := "", inputFile := None)
  }

  // ---------------------------------------------------------------------
  // Submit

  /** `handleSubmit`: submitting is raised, the fields with the final
      category, the free-text input while it is shown, and the input's file
      are sent; a 201 answer resets the form,
      the preview and the input; a failure raises the error toast; any
      other success status changes nothing. Submitting is cleared after. */
  function Submit(e: Editor, reply: Reply<int>): (r: Submitted)
    ensures r.during == e.(isSubmitting := true)
    ensures r.sent.title == e.form.title && r.sent.body == e.form.body && r.sent.image == e.inputFile
    ensures r.sent.category == FinalCategory(e.form)
    ensures r.sent.otherCategory.Some? <==> e.form.category == "Other"
    ensures r.sent.otherCategory.Some? ==> r.sent.otherCategory.value == e.form.otherCategory
    ensures !r.after.isSubmitting
    ensures reply.Ok? && reply.body == 201 ==>
      && r.after == Initial.(isDragging := e.isDragging)
      && r.effects == [ToastSuccess("Blog published successfully!")]
    ensures reply.Ok? && reply.body != 201 ==> r.after == e.(isSubmitting := false) && r.effects == []
    ensures reply.Fail? ==> r.after == e.(isSubmitting := false) && r.effects == [ToastError("Failed to publish blog")]
  {
    var during := e.(isSubmitting := true);
    var shown := if e.form.category == "Other" then Some(e.form.otherCategory) else None;
    var sent := Upload(e.form.title, e.form.body, FinalCategory(e.form), shown, e.inputFile);
    match reply
    case Ok(status) =>
      if status == 201 then
        Submitted(during, sent, Editor(EmptyFields, "", None, false, e.isDragging),
                  [ToastSuccess("Blog published successfully!")])
      else Submitted(during, sent, during.(isSubmitting := false), [])
    case Fail(_) =>
      Submitted(during, sent, during.(isSubmitting := false), [ToastError("Failed to publish blog")])
  }

  /** The publish button's text; the button is disabled while it reads
      "Publishing...". */
  function PublishText(e: Editor): (text: string)
    ensures e.isSubmitting <==> text == "Publishing..."
  {
    if e.isSubmitting then "Publishing..." else "Publish Blog"
  }

  /** As written, a file the pick check rejected is uploaded by the next
      submit: a six-megabyte PNG raises "Image size should be less than
      5MB" and is then sent. */
  lemma RejectedPickIsUploaded(e: Editor, dataUrl: string, reply: Reply<int>)
    ensures var big := File("photo.png", 6 * 1024 * 1024, "image/png");
      var picked := HandleFileInputChange(e, Some(big), dataUrl);
      && picked.effects == [ToastError(TooLarge)]
      && Submit(picked.editor, reply).sent.image == Some(big)
  {
  }

  /** The input holds no file, or one that passes the image check. */
  predicate InputAcceptable(e: Editor) {
    e.inputFile.None? || FileProblem(e.inputFile.value).None?
  }

  /** With the intended pick handler every step keeps the input acceptable,
      so every upload carries no image or one that passes the image check. */
  lemma IntendedStepsKeepInputAcceptable(e: Editor, file: Option<File>, dataUrl: string, reply: Reply<int>)
    requires InputAcceptable(e)
    ensures InputAcceptable(HandleFileInputChangeIntended(e, file, dataUrl).editor)
    ensures InputAcceptable(HandleDrop(e, file, dataUrl).editor)
    ensures InputAcceptable(RemoveImage(e))
    ensures InputAcceptable(Submit(e, reply).after)
    ensures var img := Submit(e, reply).sent.image; img.None? || FileProblem(img.value).None?
  {
  }
}
