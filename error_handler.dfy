/** The Express error middleware (backend/middleware/errorHandler.js): an
    ordered chain of checks mapping an error to a status and a JSON body. */
module ErrorHandler {
  import opened Text

  /** `err.code`: absent, a number (Mongo's 11000) or a string (Multer's
      `'LIMIT_FILE_SIZE'`). */
  datatype Code = NoCode | NumCode(n: int) | StrCode(s: string)

  /** The fields of a thrown error the handler reads. `fieldMessages` is
      `Object.values(err.errors).map(e => e.message)`, `keyFields` is
      `Object.keys(err.keyValue)`; an absent `statusCode` is 0 and an absent
      `message` is `''`. */
  datatype Failure = Failure(name: string, code: Code, fieldMessages: seq<string>, keyFields: seq<string>,
                             value: string, statusCode: int, message: string)

  /** The JSON body; `messages` is present on validation errors only. */
  datatype Body = Body(success: bool, error: string, messages: seq<string>, hasMessages: bool)

  datatype Response = Response(status: int, body: Body)

  function ErrorBody(error: string): Body {
    Body(false, error, [], false)
  }

  const DuplicatePrefix: string := "Duplicate value for: "
  const CastPrefix: string := "Invalid ID format: "

  /** The first matching kind decides: validation, duplicate key, bad id,
      file too large, then the error's own status (default 500). */
  function Handle(e: Failure): (r: Response)
    ensures !r.body.success
  {
    if e.name == "ValidationError" then
      Response(400, Body(false, "Validation Error", e.fieldMessages, true))
    else if e.code == NumCode(11000) then
      Response(409, ErrorBody(DuplicatePrefix + Join(e.keyFields, ", ")))
    else if e.name == "CastError" then
      Response(400, ErrorBody(CastPrefix + e.value))
    else if e.code == StrCode("LIMIT_FILE_SIZE") then
      Response(413, ErrorBody("File too large. Maximum size is 20MB."))
    else
      Response(if e.statusCode != 0 then e.statusCode else 500,
               ErrorBody(if e.message != "" then e.message else "Internal Server Error"))
  }

  /** Which kind an error is taken for, by the order of the checks. */
  datatype Kind = Validation | Duplicate | BadId | TooLarge | Generic

  function KindOf(e: Failure): Kind {
    if e.name == "ValidationError" then Validation
    else if e.code == NumCode(11000) then Duplicate
    else if e.name == "CastError" then BadId
    else if e.code == StrCode("LIMIT_FILE_SIZE") then TooLarge
    else Generic
  }

  /** Every kind has its own status and body; only validation errors carry
      the per-field messages, one per field error. */
  lemma HandleByKind(e: Failure)
    ensures var r := Handle(e);
            match KindOf(e)
            case Validation => r.status == 400 && r.body.error == "Validation Error"
                               && r.body.hasMessages && r.body.messages == e.fieldMessages
            case Duplicate => r.status == 409 && !r.body.hasMessages
                              && r.body.error == DuplicatePrefix + Join(e.keyFields, ", ")
            case BadId => r.status == 400 && !r.body.hasMessages && r.body.error == CastPrefix + e.value
            case TooLarge => r.status == 413 && !r.body.hasMessages
            case Generic => !r.body.hasMessages
                            && (e.statusCode != 0 ==> r.status == e.statusCode)
                            && (e.statusCode == 0 ==> r.status == 500)
                            && (e.message != "" ==> r.body.error == e.message)
                            && (e.message == "" ==> r.body.error == "Internal Server Error")
  {
  }

  /** The first check wins: a validation error that also carries the
      duplicate-key code is still a 400. */
  lemma FirstMatchWins(e: Failure)
    requires e.name == "ValidationError" && e.code == NumCode(11000)
    ensures Handle(e).status == 400 && Handle(e).body.error == "Validation Error"
  {
  }

  /** The duplicate-key message names the key fields: when no field name
      contains a comma, splitting the text after the prefix at commas gives
      back the first field and, after a leading space, every other one. */
  lemma DuplicateFieldsRecoverable(e: Failure)
    requires KindOf(e) == Duplicate && |e.keyFields| >= 1
    requires forall i :: 0 <= i < |e.keyFields| ==> ',' !in e.keyFields[i]
    ensures var msg := Handle(e).body.error;
            StartsWith(msg, DuplicatePrefix)
            && var parts := Split(msg[|DuplicatePrefix|..], ',');
               |parts| == |e.keyFields| && parts[0] == e.keyFields[0]
               && forall i :: 1 <= i < |parts| ==> parts[i] == " " + e.keyFields[i]
  {
    var msg := Handle(e).body.error;
    assert msg[|DuplicatePrefix|..] == Join(e.keyFields, ", ");
    SplitJoinSpaced(e.keyFields);
  }
}
