/** The terminal error middleware (src/middleware/errorHandler.js) and the error values that
    reach it: the custom error classes of src/errors, Mongoose validation errors, MongoDB
    duplicate-key errors, cast errors and the plain errors of library code. */
module ErrorHandler {
  import opened Common
  import opened Text

  /** One entry of a Mongoose ValidationError's `errors` object: the path and its message. */
  datatype FieldFailure = FieldFailure(path: string, message: string)

  /** The properties of a thrown JavaScript error that the handlers read.
      `statusCode` is what the custom error classes set; `status` is what the User pre-save
      hook sets and nothing reads; `errors` stands for `Object.values(err.errors)`, `keyValue`
      for `Object.keys(err.keyValue)` and `value` for the rendered `err.value`. */
  datatype ErrorValue = ErrorValue(
    name: string,
    message: string,
    statusCode: Option<int>,
    status: Option<int>,
    code: Option<int>,
    errors: seq<FieldFailure>,
    keyValue: seq<string>,
    value: string)

  /** The custom error classes exported by src/errors/index.js. */
  datatype ErrorKind = Unauthenticated | NotFound | BadRequest | Conflict

  const StatusBadRequest := 400
  const StatusUnauthorized := 401
  const StatusNotFound := 404
  const StatusConflict := 409
  const StatusInternal := 500

  /** The status code each custom error class fixes in its constructor. */
  function KindStatus(kind: ErrorKind): int {
    match kind
    case Unauthenticated => StatusUnauthorized
    case NotFound => StatusNotFound
    case BadRequest => StatusBadRequest
    case Conflict => StatusConflict
  }

  /** `new XError(message)` for one of the custom classes (an omitted message is ""). */
  function CustomError(kind: ErrorKind, message: string): ErrorValue {
    ErrorValue("Error", message, Some(KindStatus(kind)), None, None, [], [], "")
  }

  /** `const error = new Error(message); error.status = status`. */
  function PlainError(message: string, status: int): ErrorValue {
    ErrorValue("Error", message, None, Some(status), None, [], [], "")
  }

  /** An error raised by library code, such as jsonwebtoken's verification errors. */
  function LibraryError(name: string, message: string): ErrorValue {
    ErrorValue(name, message, None, None, None, [], [], "")
  }

  /** `Object.values(err.errors).map((item) => item.message)`. */
  function Messages(failures: seq<FieldFailure>): seq<string> {
    seq(|failures|, i requires 0 <= i < |failures| => failures[i].message)
  }

  /** Each failure as Mongoose renders it in the error's message. */
  function Described(failures: seq<FieldFailure>): seq<string> {
    seq(|failures|, i requires 0 <= i < |failures| => failures[i].path + ": " + failures[i].message)
  }

  /** Mongoose's ValidationError: its message is the summary ("User validation failed",
      "Validation failed", ...) followed by every "path: message", joined by ", ". */
  function ValidationError(summary: string, failures: seq<FieldFailure>): ErrorValue {
    ErrorValue("ValidationError", summary + ": " + Join(Described(failures), ", "),
               None, None, None, failures, [], "")
  }

  /** The MongoDB driver's E11000 error for a unique index; `keys` are the offending fields. */
  function DuplicateKeyError(keys: seq<string>): ErrorValue {
    ErrorValue("MongoServerError", "E11000 duplicate key error", None, None, Some(11000), [], keys, "")
  }

  /** Mongoose's CastError for a value that is not a valid identifier. */
  function CastError(message: string, value: string): ErrorValue {
    ErrorValue("CastError", message, None, None, None, [], [], value)
  }

  /** The message Mongoose gives a CastError for a string that is not an ObjectId. */
  function CastMessage(value: string, path: string, model: string): string {
    "Cast to ObjectId failed for value \"" + value + "\" (type string) at path \"" + path
      + "\" for model \"" + model + "\""
  }

  /** The only thing the handler sends: a status code and a body holding just `msg`. */
  datatype ErrorResponse = ErrorResponse(statusCode: int, msg: string)

  const DefaultMessage := "Something went wrong, try again later."

  function DuplicateMessage(keys: seq<string>): string {
    Join(keys, ",") + " already exist, please choose another " + Join(keys, ",")
  }

  /** The response read off by priority: the LAST branch of the handler whose test holds
      decides both fields, and the defaults survive only when no branch holds. */
  function Respond(err: ErrorValue): ErrorResponse {
    if err.name == "CastError" then
      if Contains(err.message, "User") || Contains(err.message, "user") then
        ErrorResponse(StatusNotFound, "User not found")
      else
        ErrorResponse(StatusNotFound, "No item found with id : " + err.value)
    else if err.code == Some(11000) then
      ErrorResponse(StatusConflict, DuplicateMessage(err.keyValue))
    else if err.name == "ValidationError" then
      ErrorResponse(StatusBadRequest, Join(Messages(err.errors), ", "))
    else
      ErrorResponse(
        if err.statusCode.Some? && err.statusCode.value != 0 then err.statusCode.value else StatusInternal,
        if err.message != "" then err.message else DefaultMessage)
  }

  /** `errorHandlerMiddleware`: start from the defaults, then let each of the three tests in
      turn overwrite the status and the message. */
  method ErrorHandlerMiddleware(err: ErrorValue) returns (res: ErrorResponse)
    ensures res == Respond(err)
  {
    var statusCode := if err.statusCode.Some? && err.statusCode.value != 0 then err.statusCode.value else StatusInternal;
    var msg := if err.message != "" then err.message else DefaultMessage;

    if err.name == "ValidationError" {
      msg := Join(Messages(err.errors), ", ");
      statusCode := StatusBadRequest;
    }

    if err.code.Some? && err.code.value != 0 && err.code.value == 11000 {
      msg := DuplicateMessage(err.keyValue);
      statusCode := StatusConflict;
    }

    if err.name == "CastError" {
      if Contains(err.message, "User") || Contains(err.message, "user") {
        msg := "User not found";
        statusCode := StatusNotFound;
      } else {
        msg := "No item found with id : " + err.value;
        statusCode := StatusNotFound;
      }
    }

    res := ErrorResponse(statusCode, msg);
  }

  /** A custom error keeps its class's status code, and its message unless that is empty. */
  lemma CustomErrorResponse(kind: ErrorKind, message: string)
    ensures Respond(CustomError(kind, message))
         == ErrorResponse(KindStatus(kind), if message != "" then message else DefaultMessage)
  {
  }

  /** A validation error is a 400 whose message lists the field messages only. */
  lemma ValidationErrorResponse(summary: string, failures: seq<FieldFailure>)
    ensures Respond(ValidationError(summary, failures))
         == ErrorResponse(StatusBadRequest, Join(Messages(failures), ", "))
  {
  }

  /** A duplicate key is a 409 naming the fields. */
  lemma DuplicateKeyResponse(keys: seq<string>)
    ensures Respond(DuplicateKeyError(keys)) == ErrorResponse(StatusConflict, DuplicateMessage(keys))
  {
  }

  /** Any error the handler does not recognise, without a status code, becomes a 500. */
  lemma UnrecognisedIsInternal(err: ErrorValue)
    requires err.name != "CastError" && err.name != "ValidationError" && err.code != Some(11000)
    requires err.statusCode.None?
    ensures Respond(err).statusCode == StatusInternal
  {
  }

  /** A cast error on the User model is 404 "User not found"; a cast error whose message
      mentions neither "User" nor "user" is 404 naming the rejected value. */
  lemma CastErrorResponses(value: string, path: string, message: string)
    ensures Respond(CastError(CastMessage(value, path, "User"), value)) == ErrorResponse(StatusNotFound, "User not found")
    ensures !Contains(message, "User") && !Contains(message, "user") ==>
              Respond(CastError(message, value)) == ErrorResponse(StatusNotFound, "No item found with id : " + value)
  {
    var m := CastMessage(value, path, "User");
    var p := "Cast to ObjectId failed for value \"" + value + "\" (type string) at path \"" + path + "\" for model \"";
    assert m == p + "User" + "\"";
    ContainsInfix(p, "User", "\"");
  }

  /** The test is on the whole message, which quotes the rejected value: an item id that merely
      contains "user" is answered with "User not found". */
  lemma CastValueMentioningUser(before: string, after: string, path: string, model: string)
    ensures var value := before + "user" + after;
            Respond(CastError(CastMessage(value, path, model), value)) == ErrorResponse(StatusNotFound, "User not found")
  {
    var value := before + "user" + after;
    var p := "Cast to ObjectId failed for value \"" + before;
    var q := after + "\" (type string) at path \"" + path + "\" for model \"" + model + "\"";
    assert CastMessage(value, path, model) == p + "user" + q;
    ContainsInfix(p, "user", q);
  }

  /** The cast branch wins over the duplicate-key branch, which wins over the validation branch. */
  lemma LaterBranchesWin(err: ErrorValue)
    ensures err.name == "CastError" ==> Respond(err).statusCode == StatusNotFound
    ensures err.name != "CastError" && err.code == Some(11000) ==> Respond(err).statusCode == StatusConflict
  {
  }
}
