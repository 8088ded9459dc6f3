/** The new-post dialog (components/post/createPostDialog.tsx): the image
    picker's checks, the submit checks on the trimmed text, the request it
    sends and the reset after a created post. */
module CreatePostDialog {
  import opened Common
  import opened Domain
  import PostsApi

  /** 5 MB. */
  const MAX_FILE_SIZE: nat := 5 * 1024 * 1024
  const MAX_TEXT := 280

  /** The picked file's name, MIME type and size in bytes. */
  datatype FileInfo = FileInfo(name: string, mimeType: string, size: nat)

  /** The `handleFileChange` checks: the error shown for a picked file, if any. */
  function FileError(f: FileInfo): (e: Option<string>)
    ensures e.None? <==> StartsWith(f.mimeType, "image/") && f.size <= MAX_FILE_SIZE
    ensures !StartsWith(f.mimeType, "image/") ==> e == Some("Only image files are allowed.")
    ensures StartsWith(f.mimeType, "image/") && f.size > MAX_FILE_SIZE ==> e == Some("Image is too large. Max 5MB.")
  {
    if !StartsWith(f.mimeType, "image/") then Some("Only image files are allowed.")
    else if f.size > MAX_FILE_SIZE then Some("Image is too large. Max 5MB.")
    else None
  }

  /** The size limit is inclusive: exactly 5 MB passes, one byte more does not. */
  lemma SizeLimitInclusive(name: string)
    ensures FileError(FileInfo(name, "image/png", MAX_FILE_SIZE)).None?
    ensures FileError(FileInfo(name, "image/png", MAX_FILE_SIZE + 1)) == Some("Image is too large. Max 5MB.")
  {
    assert StartsWith("image/png", "image/");
  }

  /** The `submit` checks, on the trimmed text; its `length` counts UTF-16 code units. */
  function TextError(content: string): (e: Option<string>)
    ensures e.None? <==> Trim(content) != [] && Utf16Length(Trim(content)) <= MAX_TEXT
    ensures Trim(content) == [] ==> e == Some("Post content can't be empty.")
    ensures Trim(content) != [] && Utf16Length(Trim(content)) > MAX_TEXT ==>
      e == Some("Post content can't exceed 280 characters.")
  {
    if Trim(content) == [] then Some("Post content can't be empty.")
    else if Utf16Length(Trim(content)) > MAX_TEXT then Some("Post content can't exceed 280 characters.")
    else None
  }

  /** The JSON body sent to the posts route. */
  datatype Payload = Payload(content: string, imageUrl: Option<string>, category: Category, authorId: UserId)

  /** The enum name the dialog sends for a category. */
  function CategoryName(c: Category): (s: string)
    ensures ParseCategory(s) == Some(c)
  {
    match c
    case GENERAL => "GENERAL"
    case ANNOUNCEMENT => "ANNOUNCEMENT"
    case QUESTION => "QUESTION"
  }

  /** Text trimmed by the dialog is not blank when trimmed again. */
  lemma TrimmedStaysNonBlank(t: string)
    requires t != [] && !IsSpace(t[0])
    ensures Trim(t) != []
  {
    TrimEmptyIff(t);
  }

  /** Whatever the dialog lets through, the server's content checks accept:
      the dialog sends the trimmed text, which is non-blank and at most 280
      characters long. A client that sends untrimmed text can be refused for
      the same post. */
  lemma DialogPayloadPassesServer(content: string)
    requires TextError(content).None?
    ensures PostsApi.NewPostGuard(Some(Trim(content))).None?
  {
    TrimmedStaysNonBlank(Trim(content));
  }

  /** Both 280 limits count UTF-16 code units: 141 characters outside the
      Basic Multilingual Plane (emoji, say) are 282 units, so the dialog and
      the route both refuse them. */
  lemma AstralTextRefused()
    ensures var c := seq(141, _ => '\U{1F600}');
      && |c| == 141
      && TextError(c) == Some("Post content can't exceed 280 characters.")
      && PostsApi.NewPostGuard(Some(c)) == Some(Outcome(400, "Content too long"))
  {
    var c := seq(141, _ => '\U{1F600}');
    assert !IsSpace(c[0]) && !IsSpace(c[140]);
    assert Trim(c) == c;
    Utf16LengthAstral(c);
  }

  /** The storage path of the uploaded image: `${userId}/${now}.${ext}`, where
      `ext` is the text after the file name's last dot. */
  function UploadPath(userId: UserId, now: nat, fileName: string): (p: string)
    ensures StartsWith(p, userId + "/")
    ensures LastSegment(p, '.') == LastSegment(fileName, '.')
  {
    JoinedPath(userId + "/", NatToString(now), '.', LastSegment(fileName, '.'));
    userId + "/" + NatToString(now) + ['.'] + LastSegment(fileName, '.')
  }

  /** The "bin" fallback never applies: a name without a dot is its own extension. */
  lemma UndottedNameIsItsOwnExtension(fileName: string)
    requires '.' !in fileName
    ensures LastSegment(fileName, '.') == fileName
  {
  }

  /** What the image upload gave: the public URL (which may be missing), or
      the storage error's message. */
  datatype Upload = Uploaded(publicUrl: Option<string>) | UploadFailed(message: string)

  /** The server's answer: accepted, or refused with a status and perhaps a message. */
  datatype Answer = Accepted | Refused(status: nat, message: Option<string>)

  /** The message of the error thrown for a refused request. */
  function RefusalMessage(status: nat, message: Option<string>): (m: string)
    ensures m != []
    ensures message.Some? && message.value != [] ==> m == message.value
  {
    if message.Some? && message.value != [] then message.value
    else "Failed to create post (status " + NatToString(status) + ")"
  }

  class Dialog {
    var content: string
    var file: Option<FileInfo>
    var preview: Option<string>
    var category: Category
    var submitting: bool
    var error: Option<string>

    constructor()
      ensures content == [] && file.None? && preview.None? && category == GENERAL
      ensures !submitting && error.None?
    {
      content := [];
      file := None;
      preview := None;
      category := GENERAL;
      submitting := false;
      error := None;
    }

    /** `handleFileChange`: clearing the picker clears file and preview; a
        refused file only sets the error; an accepted one replaces the file
        and gets a preview URL (`objectUrl`). */
    method HandleFileChange(f: Option<FileInfo>, objectUrl: string)
      modifies this
      ensures f.None? ==> file.None? && preview.None? && error.None?
      ensures f.Some? && FileError(f.value).Some? ==>
        error == FileError(f.value) && file == old(file) && preview == old(preview)
      ensures f.Some? && FileError(f.value).None? ==>
        error.None? && file == f && preview == Some(objectUrl)
      ensures content == old(content) && category == old(category) && submitting == old(submitting)
    {
      error := None;
      if f.None? {
        file := None;
        preview := None;
        return;
      }
      var e := FileError(f.value);
      if e.Some? {
        error := e;
        return;
      }
      file := f;
      preview := Some(objectUrl);
    }

    /** `submit`: refused text sends nothing; otherwise the image (if any) is
        uploaded, the trimmed text is posted, and on success the form resets.
        `payload` is the request body, when one was sent. */
    method Submit(authorId: UserId, upload: Upload, answer: Answer) returns (payload: Option<Payload>)
      modifies this
      ensures TextError(old(content)).Some? ==>
        && payload.None? && error == TextError(old(content))
        && content == old(content) && file == old(file) && preview == old(preview) && category == old(category)
        && submitting == old(submitting)
      ensures payload.Some? ==>
        && TextError(old(content)).None?
        && payload.value.content == Trim(old(content))
        && payload.value.category == old(category) && payload.value.authorId == authorId
        && payload.value.imageUrl == (if old(file).Some? && upload.Uploaded? then upload.publicUrl else None)
      ensures TextError(old(content)).None? && (old(file).None? || upload.Uploaded?) ==> payload.Some?
      ensures TextError(old(content)).None? && old(file).Some? && upload.UploadFailed? ==>
        payload.None? && error == Some(if upload.message != [] then upload.message else "Unknown error")
      ensures payload.Some? && answer.Accepted? ==>
        content == [] && file.None? && preview.None? && category == GENERAL && error.None?
      ensures payload.Some? && answer.Refused? ==>
        error == Some(RefusalMessage(answer.status, answer.message))
        && content == old(content) && file == old(file) && preview == old(preview) && category == old(category)
      ensures TextError(old(content)).None? ==> !submitting
    {
      error := None;
      payload := None;
      var problem := TextError(content);
      if problem.Some? {
        error := problem;
        return;
      }
      payload := Send(Trim(content), authorId, upload, answer);
    }

    /** The part of `submit` after the text checks passed, sending the
        trimmed `text`: the upload, the request and the reset or the error. */
    method Send(text: string, authorId: UserId, upload: Upload, answer: Answer) returns (payload: Option<Payload>)
      modifies this
      ensures payload.Some? <==> old(file).None? || upload.Uploaded?
      ensures payload.Some? ==>
        payload.value == Payload(text, if old(file).Some? && upload.Uploaded? then upload.publicUrl else None,
                                 old(category), authorId)
      ensures payload.None? ==>
        && upload.UploadFailed? && error == Some(if upload.message != [] then upload.message else "Unknown error")
        && content == old(content) && file == old(file) && preview == old(preview) && category == old(category)
      ensures payload.Some? && answer.Accepted? ==>
        content == [] && file.None? && preview.None? && category == GENERAL && error == old(error)
      ensures payload.Some? && answer.Refused? ==>
        error == Some(RefusalMessage(answer.status, answer.message))
        && content == old(content) && file == old(file) && preview == old(preview) && category == old(category)
      ensures !submitting
    {
      submitting := true;
      var imageUrl: Option<string> := None;
      if file.Some? {
        match upload {
          case UploadFailed(m) =>
            error := Some(if m != [] then m else "Unknown error");
            submitting := false;
            return None;
          case Uploaded(url) =>
            imageUrl := url;
        }
      }
      payload := Some(Payload(text, imageUrl, category, authorId));
      Settle(answer);
    }

    /** The server's answer: an accepted post resets the form, a refusal
        shows its message; either way submitting ends. */
    method Settle(answer: Answer)
      modifies this
      ensures answer.Accepted? ==>
        content == [] && file.None? && preview.None? && category == GENERAL && error == old(error)
      ensures answer.Refused? ==>
        error == Some(RefusalMessage(answer.status, answer.message))
        && content == old(content) && file == old(file) && preview == old(preview) && category == old(category)
      ensures !submitting
    {
      match answer {
        case Refused(status, message) =>
          error := Some(RefusalMessage(status, message));
        case Accepted =>
          content := [];
          file := None;
          preview := None;
          category := GENERAL;
      }
      submitting := false;
    }
  }
}
