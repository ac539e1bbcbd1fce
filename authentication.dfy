/** src/middleware/authentication.js: the bearer-header check, the token extraction, and the
    effect of verification on the request. Token verification itself is a parameter. */
module Authentication {
  import opened Common
  import opened Text
  import opened ErrorHandler

  const BearerPrefix := "Bearer "
  const AuthenticationInvalid := "Authentication Invalid"

  /** The claims a verified token carries. */
  datatype Payload = Payload(userId: Id, username: string)

  /** What `jwt.verify(token, secret)` does: return the payload or throw a library error
      (JsonWebTokenError, TokenExpiredError, NotBeforeError). */
  datatype Verification = Verified(payload: Payload) | VerifyFailed(name: string, message: string)

  /** How `next` was called: with no argument, or with an error. */
  datatype NextCall = Proceed | Forward(error: ErrorValue)

  /** The parts of an Express request the middleware reads and writes. */
  class Request {
    const authorization: Option<string>
    var user: Option<Payload>
    var next: Option<NextCall>

    constructor (authorization: Option<string>)
      ensures this.authorization == authorization && user == None && next == None
    {
      this.authorization := authorization;
      user := None;
      next := None;
    }
  }

  /** The header check and `authHeader.split(" ")[1]`. A missing or empty header, or one not
      starting with "Bearer " (case and trailing space included), is rejected; otherwise the
      token is the text after the prefix up to the next space, and may be empty. */
  function HeaderToken(header: Option<string>): (r: Result<string, ErrorValue>)
    ensures r.Err? <==> !Truthy(header) || !StartsWith(header.value, BearerPrefix)
    ensures r.Err? ==> r.error == CustomError(Unauthenticated, AuthenticationInvalid)
    ensures r.Ok? ==> r.value == Split(header.value[|BearerPrefix|..], ' ')[0] && ' ' !in r.value
  {
    if !Truthy(header) || !StartsWith(header.value, BearerPrefix) then
      Err(CustomError(Unauthenticated, AuthenticationInvalid))
    else
      var h := header.value;
      assert h == "Bearer" + [' '] + h[|BearerPrefix|..];
      SplitAfterFirst("Bearer", ' ', h[|BearerPrefix|..]);
      Ok(Split(h, ' ')[1])
  }

  /** A token without spaces sent as "Bearer <token>" is extracted unchanged. */
  lemma BearerRoundTrip(token: string)
    requires ' ' !in token
    ensures HeaderToken(Some(BearerPrefix + token)) == Ok(token)
  {
    var h := BearerPrefix + token;
    assert StartsWith(h, BearerPrefix);
    assert h[|BearerPrefix|..] == token;
    SplitWithoutSeparator(token, ' ');
  }

  /** Two spaces after "Bearer" give the empty token; "bearer" in lower case is rejected. */
  lemma HeaderExamples()
    ensures HeaderToken(Some("Bearer  x")) == Ok("")
    ensures HeaderToken(Some("bearer x")).Err?
    ensures HeaderToken(Some("Bearer")).Err?
  {
    var h := "Bearer  x";
    assert StartsWith(h, BearerPrefix);
    assert h[|BearerPrefix|..] == [' '] + "x";
    SplitAfterFirst([], ' ', "x");
    assert !StartsWith("bearer x", BearerPrefix) by {
      assert "bearer x"[0] != BearerPrefix[0];
    }
  }

  /** `auth`: on a good header and a verified token, `req.user` becomes the payload's
      `{ userId, username }` and `next()` is called; otherwise `req.user` is left alone and the
      error is handed to `next`. */
  method Auth(req: Request, verify: string -> Verification)
    modifies req
    ensures HeaderToken(req.authorization).Err? ==>
              req.user == old(req.user) && req.next == Some(Forward(HeaderToken(req.authorization).error))
    ensures HeaderToken(req.authorization).Ok? ==>
              match verify(HeaderToken(req.authorization).value)
              case Verified(p) =>
                req.user == Some(Payload(p.userId, p.username)) && req.next == Some(Proceed)
              case VerifyFailed(name, message) =>
                req.user == old(req.user) && req.next == Some(Forward(LibraryError(name, message)))
  {
    var checked := HeaderToken(req.authorization);
    if checked.Err? {
      req.next := Some(Forward(checked.error));
      return;
    }
    var token := checked.value;
    var outcome := verify(token);
    match outcome {
      case VerifyFailed(name, message) =>
        req.next := Some(Forward(LibraryError(name, message)));
      case Verified(payload) =>
        req.user := Some(Payload(payload.userId, payload.username));
        req.next := Some(Proceed);
    }
  }

  /** A rejected header reaches the client as 401 "Authentication Invalid". */
  lemma RejectedHeaderResponse(header: Option<string>)
    requires HeaderToken(header).Err?
    ensures Respond(HeaderToken(header).error) == ErrorResponse(StatusUnauthorized, AuthenticationInvalid)
  {
    CustomErrorResponse(Unauthenticated, AuthenticationInvalid);
  }

  /** A token that fails verification carries no status code, so the error handler answers
      500 with the library's message, not 401. */
  lemma FailedVerificationResponse(name: string, message: string)
    requires name in {"JsonWebTokenError", "TokenExpiredError", "NotBeforeError"}
    ensures Respond(LibraryError(name, message))
         == ErrorResponse(StatusInternal, if message != "" then message else DefaultMessage)
  {
  }
}
