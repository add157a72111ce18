/**
 * The `POST` handler of `app/api/upload/route.ts`: an ordered chain of checks
 * on the uploaded image, then a generated file name and public URL. The file
 * system write is reduced to its outcome.
 */
module UploadRoute {
  import opened Wrappers

  datatype UploadFile = UploadFile(name: string, mimeType: string, size: int)

  /** The request as `request.formData()` sees it: unreadable, or a form whose `file` may be missing. */
  datatype UploadRequest = Unreadable(message: string) | Form(file: Option<UploadFile>)

  /** What storing the bytes does: succeed, fail in `writeFile`, or fail before it (directory, buffer). */
  datatype StoreOutcome = Written | WriteFailed(message: string) | StoreThrew(message: string)

  datatype UploadReply = UploadReply(status: int, imageUrl: Option<string>, error: Option<string>)

  /** The reply and the file name written, if the write was attempted. */
  datatype Handled = Handled(reply: UploadReply, written: Option<string>)

  const ValidTypes: seq<string> := ["image/jpeg", "image/png", "image/webp", "image/gif"]

  /** 5 MiB. */
  const MaxSize: int := 5 * 1024 * 1024

  const NoFileMessage: string := "No file found for upload"
  const BadTypeMessage: string := "Unsupported file format. Please use JPEG, PNG, WebP or GIF formats"
  const TooLargeMessage: string := "File size exceeds limit (maximum 5MB)"

  /** `name.split(".").pop()`: the text after the last ".", or the whole name when it has none. */
  function Extension(name: string): (ext: string)
    ensures '.' !in ext
    ensures |ext| <= |name| && ext == name[|name| - |ext|..]
    ensures '.' in name ==> |ext| < |name| && name[|name| - |ext| - 1] == '.'
    ensures '.' !in name ==> ext == name
  {
    if name == [] then []
    else if name[|name| - 1] == '.' then []
    else
      var init := name[..|name| - 1];
      var last := name[|name| - 1];
      var e := Extension(init);
      assert e + [last] == name[|name| - |e| - 1..] by {
        assert name == init + [last];
      }
      assert '.' in name ==> '.' in init by {
        if '.' in name {
          var k :| 0 <= k < |name| && name[k] == '.';
          assert k < |init| && init[k] == '.';
        }
      }
      assert '.' in init ==> name[|name| - |e| - 2] == '.' by {
        if '.' in init {
          assert name[|name| - |e| - 2] == init[|init| - |e| - 1];
        }
      }
      e + [last]
  }

  /** `${uuidv4()}.${fileExtension}`: the generated id, a dot, and the upload's extension. */
  function FileName(uuid: string, file: UploadFile): (name: string)
    ensures |name| > |uuid| && name[..|uuid| + 1] == uuid + "."
    // the stored file keeps the upload's extension
    ensures Extension(name) == Extension(file.name)
  {
    ExtensionAfterLastDot(uuid, Extension(file.name));
    uuid + "." + Extension(file.name)
  }

  function ErrorReply(status: int, message: string): (r: UploadReply)
    ensures r.imageUrl.None? && r.error == Some(message)
  {
    UploadReply(status, None, Some(message))
  }

  /** The handler: missing file, then MIME type, then size, then the write. */
  function Post(request: UploadRequest, uuid: string, store: StoreOutcome): (h: Handled)
    ensures request.Unreadable? ==>
      h == Handled(ErrorReply(500, "Error uploading file: " + request.message), None)
    ensures request == Form(None) ==> h == Handled(ErrorReply(400, NoFileMessage), None)
    ensures request.Form? && request.file.Some? ==>
      var f := request.file.value;
      && (f.mimeType !in ValidTypes ==> h == Handled(ErrorReply(400, BadTypeMessage), None))
      && (f.mimeType in ValidTypes && f.size > MaxSize ==> h == Handled(ErrorReply(400, TooLargeMessage), None))
      && (f.mimeType in ValidTypes && f.size <= MaxSize ==>
            && h.written == (if store.StoreThrew? then None else Some(FileName(uuid, f)))
            && (store.Written? ==>
                  h.reply == UploadReply(201, Some("/uploads/" + FileName(uuid, f)), None))
            && (store.WriteFailed? ==> h.reply == ErrorReply(500, "Error saving file: " + store.message))
            && (store.StoreThrew? ==> h.reply == ErrorReply(500, "Error uploading file: " + store.message)))
    ensures h.reply.status == 201 <==> h.reply.imageUrl.Some?
    // nothing is written, and no URL handed out, for a file that failed a check
    ensures h.written.Some? ==>
      request.Form? && request.file.Some? && request.file.value.mimeType in ValidTypes
      && request.file.value.size <= MaxSize && !store.StoreThrew?
    ensures h.reply.status == 201 ==> h.written.Some? && store.Written?
    ensures h.reply.status in {201, 400, 500}
  {
    match request
    case Unreadable(message) => Handled(ErrorReply(500, "Error uploading file: " + message), None)
    case Form(None) => Handled(ErrorReply(400, NoFileMessage), None)
    case Form(Some(file)) =>
      if file.mimeType !in ValidTypes then Handled(ErrorReply(400, BadTypeMessage), None)
      else if file.size > MaxSize then Handled(ErrorReply(400, TooLargeMessage), None)
      else
        var fileName := FileName(uuid, file);
        match store
        case StoreThrew(message) => Handled(ErrorReply(500, "Error uploading file: " + message), None)
        case WriteFailed(message) => Handled(ErrorReply(500, "Error saving file: " + message), Some(fileName))
        case Written => Handled(UploadReply(201, Some("/uploads/" + fileName), None), Some(fileName))
  }

  /** A file of exactly 5 MiB of an accepted type is stored. */
  lemma ExactlyFiveMiBIsAccepted(uuid: string)
    ensures Post(Form(Some(UploadFile("a.png", "image/png", 5242880))), uuid, Written).reply.status == 201
  {
  }

  /** The type check comes first: a too-large file of a refused type is reported as a type error. */
  lemma TypeCheckedBeforeSize(name: string, uuid: string, store: StoreOutcome)
    ensures Post(Form(Some(UploadFile(name, "application/pdf", MaxSize + 1))), uuid, store).reply.error
            == Some(BadTypeMessage)
  {
  }

  /** Whatever precedes the last ".", the extension is the text after it. */
  lemma {:induction false} ExtensionAfterLastDot(stem: string, ext: string)
    requires '.' !in ext
    ensures Extension(stem + "." + ext) == ext
    decreases |ext|
  {
    var name := stem + "." + ext;
    if ext == [] {
      assert name[|name| - 1] == '.';
    } else {
      var init := ext[..|ext| - 1];
      assert name[..|name| - 1] == stem + "." + init;
      assert name[|name| - 1] == ext[|ext| - 1];
      ExtensionAfterLastDot(stem, init);
      assert init + [ext[|ext| - 1]] == ext;
    }
  }

  /** "photo.final.JPG" gives "JPG", "archive." gives "", "README" gives itself. */
  lemma ExtensionExamples()
    ensures Extension("photo.final.JPG") == "JPG"
    ensures Extension("archive.") == ""
    ensures Extension("README") == "README"
  {
    assert "photo.final.JPG" == "photo.final" + "." + "JPG";
    ExtensionAfterLastDot("photo.final", "JPG");
    assert "archive." == "archive" + "." + "";
    ExtensionAfterLastDot("archive", "");
  }
}
