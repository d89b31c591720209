/** The upload endpoint (backend/routes/upload.js): the MIME allow-list, the
    size limit, the stored file name and the answer. Errors raised by the
    upload middleware reach the error handler. */
module Upload {
  import opened Common
  import opened Text
  import ErrorHandler

  /** The nine accepted MIME types. */
  const Allowed: seq<string> := [
    "application/pdf",
    "application/msword",
    "application/vnd.openxmlformats-officedocument.wordprocessingml.document",
    "application/vnd.ms-excel",
    "application/vnd.openxmlformats-officedocument.spreadsheetml.sheet",
    "text/plain",
    "image/png",
    "image/jpeg",
    "image/webp"
  ]

  const RejectMessage: string := "File type not allowed. Accepted: PDF, Word, Excel, TXT, PNG, JPG, WebP"

  /** `20 * 1024 * 1024` bytes. */
  const MaxFileSize: nat := 20 * 1024 * 1024

  datatype Verdict = Accepted | Rejected(message: string)

  /** `fileFilter`: `cb(null, true)` for a listed type, otherwise
      `cb(new Error(...), false)`. */
  function FileFilter(mimetype: string): (v: Verdict)
    ensures v.Accepted? <==> mimetype in Allowed
    ensures v.Rejected? ==> v.message == RejectMessage
  {
    if mimetype in Allowed then Accepted else Rejected(RejectMessage)
  }

  // ---------------------------------------------------------------------------
  // path.extname

  /** The last position of `c` in `s`. */
  function LastIndexOf(s: string, c: char): (r: Option<nat>)
    ensures r.None? <==> c !in s
    ensures r.Some? ==> r.value < |s| && s[r.value] == c && c !in s[r.value + 1..]
  {
    if s == [] then None
    else if s[|s| - 1] == c then Some(|s| - 1)
    else
      var r := LastIndexOf(s[..|s| - 1], c);
      assert s == s[..|s| - 1] + [s[|s| - 1]];
      if r.Some? then assert s[r.value + 1..] == s[..|s| - 1][r.value + 1..] + [s[|s| - 1]]; r
      else r
  }

  function StripTrailingSlashes(s: string): (r: string)
    ensures |r| <= |s| && r == s[..|r|]
    ensures r == [] || r[|r| - 1] != '/'
  {
    if s != [] && s[|s| - 1] == '/' then StripTrailingSlashes(s[..|s| - 1]) else s
  }

  function LastSegment(s: string): (r: string)
    ensures '/' !in r
  {
    match LastIndexOf(s, '/')
    case None => s
    case Some(i) => s[i + 1..]
  }

  /** The extension of one path segment: from its last dot to the end,
      unless there is no dot, the dot opens the segment, or the segment is
      `..`. */
  function SegmentExt(p: string): string {
    match LastIndexOf(p, '.')
    case None => ""
    case Some(d) => if d == 0 || p == ".." then "" else p[d..]
  }

  /** Node's `path.extname` on POSIX paths. */
  function Extname(path: string): string {
    SegmentExt(LastSegment(StripTrailingSlashes(path)))
  }

  /** An extension is empty or a dot followed by neither a dot nor a slash. */
  lemma ExtnameShape(path: string)
    ensures var e := Extname(path);
            e == [] || (e[0] == '.' && '.' !in e[1..] && '/' !in e)
  {
    var p := LastSegment(StripTrailingSlashes(path));
    match LastIndexOf(p, '.')
    case None =>
    case Some(d) =>
      if d != 0 && p != ".." {
        assert p[d..][1..] == p[d + 1..];
        assert forall k :: 0 <= k < |p[d..]| ==> p[d..][k] == p[d + k];
      }
  }

  /** A name made of `prefix` (no dot, no slash, not empty) and an extension
      has that extension. */
  lemma {:induction false} ExtnameAfterPlainPrefix(prefix: string, e: string)
    requires prefix != [] && '.' !in prefix && '/' !in prefix
    requires e == [] || (e[0] == '.' && '.' !in e[1..] && '/' !in e)
    ensures Extname(prefix + e) == e
  {
    var f := prefix + e;
    assert f[|f| - 1] != '/' by {
      if e == [] { assert f[|f| - 1] == prefix[|prefix| - 1]; } else { assert f[|f| - 1] == e[|e| - 1]; }
    }
    assert StripTrailingSlashes(f) == f;
    assert '/' !in f by {
      forall k | 0 <= k < |f| ensures f[k] != '/' {
        if k < |prefix| { assert f[k] == prefix[k]; } else { assert f[k] == e[k - |prefix|]; }
      }
    }
    assert LastSegment(f) == f;
    if e == [] {
      assert f == prefix;
    } else {
      assert f[|prefix|] == '.';
      assert f[|prefix| + 1..] == e[1..];
      var d := LastIndexOf(f, '.').value;
      assert f[0] == prefix[0] != '.';
      assert f[d..] == e;
    }
  }

  // ---------------------------------------------------------------------------
  // the stored file and the answer

  /** `` `${Date.now()}-${Math.round(Math.random() * 1e9)}${ext}` ``; the clock
      reading and the random number are inputs. */
  function StoredName(stamp: int, random: nat, originalname: string): string {
    IntToString(stamp) + "-" + NatToString(random) + Extname(originalname)
  }

  lemma {:induction false} NumberHasNoDotOrSlash(stamp: int, random: nat)
    ensures var p := IntToString(stamp) + "-" + NatToString(random);
            p != [] && '.' !in p && '/' !in p
  {
    var a, b := NatToString(if stamp < 0 then -stamp else stamp), NatToString(random);
    assert forall k :: 0 <= k < |a| ==> IsDigit(a[k]);
    assert forall k :: 0 <= k < |b| ==> IsDigit(b[k]);
  }

  /** The stored name keeps the original file's extension. */
  lemma StoredNameKeepsExtension(stamp: int, random: nat, originalname: string)
    ensures Extname(StoredName(stamp, random, originalname)) == Extname(originalname)
  {
    var p := IntToString(stamp) + "-" + NatToString(random);
    NumberHasNoDotOrSlash(stamp, random);
    ExtnameShape(originalname);
    ExtnameAfterPlainPrefix(p, Extname(originalname));
    assert StoredName(stamp, random, originalname) == p + Extname(originalname);
  }

  /** The file part of the multipart request, as the client sent it. */
  datatype Incoming = Incoming(originalname: string, mimetype: string, size: nat)

  datatype Answer =
    | Stored(fileUrl: string, filename: string, originalName: string, bytes: nat, mimeType: string)
    | Failed(response: ErrorHandler.Response)

  /** A request through the upload middleware and the handler: a rejected
      type and an oversized file become errors for the error handler; a
      request without a file is answered 400. */
  function Receive(file: Option<Incoming>, stamp: int, random: nat): Answer {
    if file.None? then
      Failed(ErrorHandler.Response(400, ErrorHandler.ErrorBody("No file uploaded")))
    else
      var f := file.value;
      match FileFilter(f.mimetype)
      case Rejected(msg) =>
        Failed(ErrorHandler.Handle(ErrorHandler.Failure("Error", ErrorHandler.NoCode, [], [], "", 0, msg)))
      case Accepted =>
        if f.size > MaxFileSize then
          Failed(ErrorHandler.Handle(ErrorHandler.Failure("MulterError", ErrorHandler.StrCode("LIMIT_FILE_SIZE"),
                                                          [], [], "", 0, "File too large")))
        else
          var name := StoredName(stamp, random, f.originalname);
          Stored("/files/" + name, name, f.originalname, f.size, f.mimetype)
  }

  /** A request without a file, with a type off the list, or with a file
      over the limit fails with 400, 500 (the filter's message) or 413. */
  lemma ReceiveFailures(file: Option<Incoming>, stamp: int, random: nat)
    ensures var a := Receive(file, stamp, random);
            (file.None? ==> a.Failed? && a.response.status == 400 && a.response.body.error == "No file uploaded")
            && (file.Some? && file.value.mimetype !in Allowed ==>
                  a.Failed? && a.response.status == 500 && a.response.body.error == RejectMessage)
            && (file.Some? && file.value.mimetype in Allowed && file.value.size > MaxFileSize ==>
                  a.Failed? && a.response.status == 413)
            && (a.Failed? ==> !a.response.body.success)
  {
    var a := Receive(file, stamp, random);
    if file.Some? && file.value.mimetype !in Allowed {
      var e := ErrorHandler.Failure("Error", ErrorHandler.NoCode, [], [], "", 0, RejectMessage);
      assert e.name != "ValidationError" && e.name != "CastError";
      assert a.response == ErrorHandler.Handle(e);
    } else if file.Some? && file.value.size > MaxFileSize {
      var e := ErrorHandler.Failure("MulterError", ErrorHandler.StrCode("LIMIT_FILE_SIZE"), [], [], "", 0, "File too large");
      assert e.name != "ValidationError" && e.name != "CastError";
      assert a.response == ErrorHandler.Handle(e);
    }
  }

  /** A listed type within the limit is stored under a fresh name with the
      original extension and served from `/files/<name>`. */
  lemma ReceiveStores(file: Option<Incoming>, stamp: int, random: nat)
    ensures var a := Receive(file, stamp, random);
            (a.Stored? <==> file.Some? && file.value.mimetype in Allowed && file.value.size <= MaxFileSize)
            && (a.Stored? ==> a.fileUrl == "/files/" + a.filename
                              && Extname(a.filename) == Extname(file.value.originalname)
                              && a.bytes == file.value.size && a.originalName == file.value.originalname)
  {
    if file.Some? {
      StoredNameKeepsExtension(stamp, random, file.value.originalname);
    }
  }
}
