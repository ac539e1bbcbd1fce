/** src/models/User.js: the User record, the schema's setters and validators, the ordered checks
    of the `pre("save")` hook and `isPasswordStrongEnough`. */
module UserModel {
  import opened Common
  import opened Text
  import opened ErrorHandler
  import PasswordStrength

  /** A stored user; `password` holds the bcrypt hash once the document has been saved. */
  datatype User = User(id: Id, username: string, email: string, password: string, location: Option<string>)

  /** The user fields of a request body the model follows, each possibly absent; a
      client-chosen `_id` is a separate argument of signup. */
  datatype UserFields = UserFields(
    username: Option<string>, email: Option<string>, password: Option<string>, location: Option<string>)

  /** The library code the model does not look into. */
  datatype Externals = Externals(
    isAlphanumeric: string -> bool,   // validator.isAlphanumeric
    isEmail: string -> bool,          // validator.isEmail
    emailPattern: string -> bool,     // the schema's `match` regular expression for email
    hash: string -> string,           // bcrypt.hash with a fresh salt
    sign: (Id, string) -> string)     // jwt.sign({ userId, username }, secret, { expiresIn })

  const UsernameMinLength := 3
  const UsernameMaxLength := 50
  const UsernameRequired := "Please provide your username"
  const EmailRequired := "Please provide an email"
  const EmailInvalid := "Please provide a valid email"
  const PasswordRequired := "Please provide a password"
  const ValidationSummary := "User validation failed"

  function TrimField(s: Option<string>): Option<string> {
    if s.Some? then Some(Trim(s.value)) else None
  }

  /** The schema's setters, run as the document is built: `trim` on username and location,
      `trim` and `lowercase` on email; the password is kept as given. */
  function ApplySetters(body: UserFields): UserFields {
    UserFields(
      TrimField(body.username),
      if body.email.Some? then Some(ToLower(Trim(body.email.value))) else None,
      body.password,
      TrimField(body.location))
  }

  /** Mongoose tries a path's validators in order and reports the first that fails. */
  function UsernameFailures(username: Option<string>): seq<FieldFailure> {
    if !Truthy(username) then [FieldFailure("username", UsernameRequired)]
    else if |username.value| < UsernameMinLength then
      [FieldFailure("username", "Path `username` (`" + username.value + "`) is shorter than the minimum allowed length (3).")]
    else if |username.value| > UsernameMaxLength then
      [FieldFailure("username", "Path `username` (`" + username.value + "`) is longer than the maximum allowed length (50).")]
    else []
  }

  function EmailFailures(email: Option<string>, emailPattern: string -> bool): seq<FieldFailure> {
    if !Truthy(email) then [FieldFailure("email", EmailRequired)]
    else if !emailPattern(email.value) then [FieldFailure("email", EmailInvalid)]
    else []
  }

  function PasswordFailures(password: Option<string>): seq<FieldFailure> {
    if !Truthy(password) then [FieldFailure("password", PasswordRequired)] else []
  }

  /** Document validation, path by path in schema order. */
  function SchemaFailures(doc: UserFields, emailPattern: string -> bool): seq<FieldFailure> {
    UsernameFailures(doc.username) + EmailFailures(doc.email, emailPattern) + PasswordFailures(doc.password)
  }

  /** The schema's constraints on a document, stated declaratively. */
  predicate ConformsToSchema(doc: UserFields, emailPattern: string -> bool) {
    && doc.username.Some? && UsernameMinLength <= |doc.username.value| <= UsernameMaxLength
    && Truthy(doc.email) && emailPattern(doc.email.value)
    && Truthy(doc.password)
  }

  /** Validation passes exactly on conforming documents; otherwise each failing path is
      reported once, in schema order. */
  lemma SchemaValidationMeaning(doc: UserFields, emailPattern: string -> bool)
    ensures SchemaFailures(doc, emailPattern) == [] <==> ConformsToSchema(doc, emailPattern)
    ensures (SchemaFailures(doc, emailPattern) != [] && SchemaFailures(doc, emailPattern)[0].path == "username")
            <==> !(doc.username.Some? && UsernameMinLength <= |doc.username.value| <= UsernameMaxLength)
  {
    var u := UsernameFailures(doc.username);
    var e := EmailFailures(doc.email, emailPattern);
    var p := PasswordFailures(doc.password);
    assert SchemaFailures(doc, emailPattern) == u + e + p;
    if u == [] && e != [] {
      assert (u + e + p)[0] == e[0];
    }
    if u == [] && e == [] && p != [] {
      assert (u + e + p)[0] == p[0];
    }
  }

  /** A stored username is trimmed and 3 to 50 characters long; a stored email is trimmed,
      lowercase, non-empty and matches the schema's pattern. */
  lemma SettersThenValidation(body: UserFields, emailPattern: string -> bool)
    requires ConformsToSchema(ApplySetters(body), emailPattern)
    ensures var doc := ApplySetters(body);
      && doc.username.Some? && UsernameMinLength <= |doc.username.value| <= UsernameMaxLength
      && IsTrimmed(doc.username.value)
      && doc.email.Some? && doc.email.value != "" && emailPattern(doc.email.value)
      && IsTrimmed(doc.email.value) && ToLower(doc.email.value) == doc.email.value
      && Truthy(doc.password)
  {
    var doc := ApplySetters(body);
    assert body.username.Some? && body.email.Some?;
    var name, mail := Trim(body.username.value), Trim(body.email.value);
    assert doc.username == Some(name) && doc.email == Some(ToLower(mail));
    TrimProperties(body.username.value);
    TrimProperties(body.email.value);
    LowerKeepsTrim(mail);
  }

  const StrengthMessage :=
    "Password must be at least 8 characters long and contain at least one digit, one lowercase letter, and one uppercase letter"

  /** `isPasswordStrongEnough`: the strength regular expression. */
  predicate IsPasswordStrongEnough(password: string)
    ensures IsPasswordStrongEnough(password) <==> PasswordStrength.StrongEnough(password)
  {
    PasswordStrength.StrengthPatternMeaning(password);
    PasswordStrength.MatchesStrengthPattern(password)
  }

  /** The checks of the pre-save hook. */
  datatype SaveCheck = AlphanumericUsername | ValidEmail | UniqueUser | StrongPassword

  /** The order in which the hook runs its checks. */
  const SaveChecks: seq<SaveCheck> := [AlphanumericUsername, ValidEmail, UniqueUser, StrongPassword]

  /** Some stored user already has the document's username or its email. */
  predicate Taken(existing: map<string, User>, doc: User) {
    exists k :: k in existing && (existing[k].username == doc.username || existing[k].email == doc.email)
  }

  predicate Passes(check: SaveCheck, existing: map<string, User>, doc: User, ext: Externals) {
    match check
    case AlphanumericUsername => ext.isAlphanumeric(doc.username)
    case ValidEmail => ext.isEmail(doc.email)
    case UniqueUser => !Taken(existing, doc)
    case StrongPassword => IsPasswordStrongEnough(doc.password)
  }

  function CheckMessage(check: SaveCheck): string {
    match check
    case AlphanumericUsername => "Username must be alphanumeric"
    case ValidEmail => "Please provide a valid email"
    case UniqueUser => "Username or email already exists"
    case StrongPassword => StrengthMessage
  }

  /** The check that decides the outcome: the first one, in order, that fails. */
  function FirstFailure(checks: seq<SaveCheck>, existing: map<string, User>, doc: User, ext: Externals)
    : (r: Option<SaveCheck>)
    ensures r.None? <==> forall i :: 0 <= i < |checks| ==> Passes(checks[i], existing, doc, ext)
    ensures r.Some? ==> exists i :: 0 <= i < |checks| && checks[i] == r.value
                          && !Passes(checks[i], existing, doc, ext)
                          && forall j :: 0 <= j < i ==> Passes(checks[j], existing, doc, ext)
    decreases |checks|
  {
    if checks == [] then None
    else if !Passes(checks[0], existing, doc, ext) then Some(checks[0])
    else
      var rest := FirstFailure(checks[1..], existing, doc, ext);
      assert forall i :: 1 <= i < |checks| ==> checks[i] == checks[1..][i - 1];
      rest
  }

  /** The `pre("save")` hook: each check in turn, the first failure short-circuiting with a
      plain Error carrying `status = 400`; the password is replaced by its hash only once
      every check has passed. */
  method PreSave(existing: map<string, User>, doc: User, ext: Externals) returns (r: Result<User, ErrorValue>)
    ensures FirstFailure(SaveChecks, existing, doc, ext).None? ==> r == Ok(doc.(password := ext.hash(doc.password)))
    ensures FirstFailure(SaveChecks, existing, doc, ext).Some? ==>
              r == Err(PlainError(CheckMessage(FirstFailure(SaveChecks, existing, doc, ext).value), 400))
  {
    if !ext.isAlphanumeric(doc.username) {
      return Err(PlainError("Username must be alphanumeric", 400));
    }
    if !ext.isEmail(doc.email) {
      return Err(PlainError("Please provide a valid email", 400));
    }
    var userExists := exists k :: k in existing && (existing[k].username == doc.username || existing[k].email == doc.email);
    if userExists {
      return Err(PlainError("Username or email already exists", 400));
    }
    if !IsPasswordStrongEnough(doc.password) {
      return Err(PlainError(StrengthMessage, 400));
    }
    var hashed := ext.hash(doc.password);
    return Ok(doc.(password := hashed));
  }

  /** The hook lets a document through only if it passes all four checks, and a rejection
      names the first check that fails. */
  lemma SaveCheckOrder(existing: map<string, User>, doc: User, ext: Externals)
    ensures FirstFailure(SaveChecks, existing, doc, ext).None? <==>
              ext.isAlphanumeric(doc.username) && ext.isEmail(doc.email) && !Taken(existing, doc)
              && PasswordStrength.StrongEnough(doc.password)
    ensures !ext.isAlphanumeric(doc.username) ==> FirstFailure(SaveChecks, existing, doc, ext) == Some(AlphanumericUsername)
    ensures (ext.isAlphanumeric(doc.username) && !ext.isEmail(doc.email))
              ==> FirstFailure(SaveChecks, existing, doc, ext) == Some(ValidEmail)
    ensures (ext.isAlphanumeric(doc.username) && ext.isEmail(doc.email) && Taken(existing, doc))
              ==> FirstFailure(SaveChecks, existing, doc, ext) == Some(UniqueUser)
  {
    var f := FirstFailure(SaveChecks, existing, doc, ext);
    assert SaveChecks[0] == AlphanumericUsername && SaveChecks[1] == ValidEmail;
    assert SaveChecks[2] == UniqueUser && SaveChecks[3] == StrongPassword;
    if f.Some? {
      var i :| 0 <= i < |SaveChecks| && SaveChecks[i] == f.value && !Passes(SaveChecks[i], existing, doc, ext)
               && forall j :: 0 <= j < i ==> Passes(SaveChecks[j], existing, doc, ext);
      if !ext.isAlphanumeric(doc.username) { assert i == 0; }
      else if !ext.isEmail(doc.email) { assert i == 1; }
      else if Taken(existing, doc) { assert i == 2; }
    } else {
      assert Passes(SaveChecks[0], existing, doc, ext) && Passes(SaveChecks[1], existing, doc, ext);
      assert Passes(SaveChecks[2], existing, doc, ext) && Passes(SaveChecks[3], existing, doc, ext);
    }
  }

  /** A document the hook lets through shares neither username nor email with a stored user. */
  lemma HookPassedNotTaken(existing: map<string, User>, doc: User, ext: Externals)
    requires FirstFailure(SaveChecks, existing, doc, ext).None?
    ensures !Taken(existing, doc)
  {
    SaveCheckOrder(existing, doc, ext);
  }
}
