/** src/controllers/userController.js: signup, profile lookup, update and deletion over the
    User collection, which is held here as a map from username to record. */
module UserController {
  import opened Common
  import opened Text
  import opened ErrorHandler
  import opened UserModel

  /** The JSON bodies the handlers send. None of them carries a password. */
  datatype UserReply =
    | SignedUp(username: string, email: string, location: Option<string>, token: string)
    | Profile(username: string, email: string, location: Option<string>)
    | ProfileUpdated(message: string, username: string, email: string, location: Option<string>)
    | ProfileDeleted(message: string, username: string, email: string, location: Option<string>)
    | ErrorBody(error: string)

  const UserNotFound := "User not found"
  const InternalError := "Internal Server Error"
  const UsernameMismatch := "Username in request body is different from username in route"
  const EmailInUse := "Email is already in use."

  /** The record `User.create` builds from the document the setters produced. */
  function NewUser(id: Id, doc: UserFields): User {
    User(id, doc.username.GetOr(""), doc.email.GetOr(""), doc.password.GetOr(""), doc.location)
  }

  /** `findOneAndUpdate` without validators: the schema's setters still run on the update, and
      every field present in the body then replaces the stored one; in particular a new
      password is stored without hashing. */
  function MergeUser(user: User, update: UserFields): User {
    var given := ApplySetters(update);
    User(user.id,
         given.username.GetOr(user.username),
         given.email.GetOr(user.email),
         given.password.GetOr(user.password),
         if given.location.Some? then given.location else user.location)
  }

  /** Another stored user holds the merged record's username or email, so a unique index rejects the write. */
  predicate Collides(users: map<string, User>, route: string, merged: User) {
    exists k :: k in users && k != route && (users[k].username == merged.username || users[k].email == merged.email)
  }

  /** The catch block of `signup`: a ValidationError is a 400 with its message, a duplicate key
      a 409, anything else a 500. */
  method SignupErrorStatus(err: ErrorValue) returns (statusCode: int, errorMessage: string)
    ensures err.name == "ValidationError" ==> statusCode == 400 && errorMessage == err.message
    ensures err.name != "ValidationError" && err.code == Some(11000) ==> statusCode == 409 && errorMessage == EmailInUse
    ensures err.name != "ValidationError" && err.code != Some(11000) ==> statusCode == 500 && errorMessage == InternalError
  {
    statusCode := 500;
    errorMessage := InternalError;
    if err.name == "ValidationError" {
      statusCode := 400;
      errorMessage := err.message;
    } else if err.code == Some(11000) {
      statusCode := 409;
      errorMessage := EmailInUse;
    }
  }

  /** Records are keyed by their username; every stored id is below the counter, whether the
      counter or the body supplied it; the unique indexes keep emails and ids distinct. */
  predicate UsersValid(users: map<string, User>, nextId: Id) {
    && (forall k :: k in users ==> users[k].username == k && users[k].id < nextId)
    && (forall k1, k2 :: k1 in users && k2 in users && k1 != k2 ==>
          users[k1].email != users[k2].email && users[k1].id != users[k2].id)
  }

  /** Some stored user already has that id, so the `_id` index rejects a second one. */
  predicate IdInUse(users: map<string, User>, id: Id) {
    exists k :: k in users && users[k].id == id
  }

  /** The counter is above every stored id, so it is never in use. */
  lemma CounterNotInUse(users: map<string, User>, nextId: Id)
    requires UsersValid(users, nextId)
    ensures !IdInUse(users, nextId)
  {
  }

  /** Inserting a document no stored user clashes with, under an id not in use, keeps the store
      valid once the counter has moved past that id. */
  lemma InsertKeepsValid(users: map<string, User>, nextId: Id, user: User)
    requires UsersValid(users, nextId) && !IdInUse(users, user.id) && !Taken(users, user)
    ensures user.username !in users
    ensures UsersValid(users[user.username := user], Advance(nextId, user.id))
  {
  }

  /** Re-keying a record under its merged username keeps the store valid when no other record
      shares the merged username or email. */
  lemma UpdateKeepsValid(users: map<string, User>, nextId: Id, route: string, merged: User)
    requires UsersValid(users, nextId) && route in users && merged.id == users[route].id
    requires !Collides(users, route, merged)
    ensures UsersValid((users - {route})[merged.username := merged], nextId)
  {
    var rest := users - {route};
    assert forall k :: k in rest ==> k in users && k != route && rest[k] == users[k];
  }

  /** Removing one record keeps the store valid. */
  lemma DeleteKeepsValid(users: map<string, User>, nextId: Id, key: string)
    requires UsersValid(users, nextId)
    ensures UsersValid(users - {key}, nextId)
  {
    var rest := users - {key};
    assert forall k :: k in rest ==> k in users && rest[k] == users[k];
  }

  class UserStore {
    var users: map<string, User>
    var nextId: Id
    const ext: Externals

    /** Records are keyed by their username; every stored id is below the counter, whether the
        counter or the body supplied it; the unique indexes keep emails and ids distinct. */
    ghost predicate Valid()
      reads this
    {
      UsersValid(users, nextId)
    }

    constructor (ext: Externals)
      ensures Valid() && users == map[] && this.ext == ext
    {
      users := map[];
      nextId := 0;
      this.ext := ext;
    }

    /** `signup`: build the document, validate it, run the pre-save hook, insert the hashed
        record under the `_id` the body names, if any, or else a new one, and answer with a
        token; any failure leaves the store as it was. */
    method Signup(body: UserFields, requestedId: Option<Id>) returns (status: int, reply: UserReply)
      requires Valid()
      modifies this
      ensures Valid()
      ensures var doc := ApplySetters(body);
              var user := NewUser(requestedId.GetOr(old(nextId)), doc);
              var verdict := FirstFailure(SaveChecks, old(users), user, ext);
              if SchemaFailures(doc, ext.emailPattern) != [] then
                && status == 400
                && reply == ErrorBody(ValidationError(ValidationSummary, SchemaFailures(doc, ext.emailPattern)).message)
                && users == old(users) && nextId == old(nextId)
              else if verdict.Some? then
                status == 500 && reply == ErrorBody(InternalError) && users == old(users) && nextId == old(nextId)
              else if IdInUse(old(users), user.id) then
                status == 409 && reply == ErrorBody(EmailInUse) && users == old(users) && nextId == old(nextId)
              else
                && status == 201
                && user.username !in old(users)
                && users == old(users)[user.username := user.(password := ext.hash(user.password))]
                && nextId == Advance(old(nextId), user.id)
                && reply == SignedUp(user.username, user.email, user.location, ext.sign(user.id, user.username))
      ensures status == 201 ==>
                && UsernameMinLength <= |reply.username| <= UsernameMaxLength && IsTrimmed(reply.username)
                && IsTrimmed(reply.email) && ToLower(reply.email) == reply.email
      ensures requestedId.None? ==> status != 409
    {
      var doc := ApplySetters(body);
      var failures := SchemaFailures(doc, ext.emailPattern);
      if failures != [] {
        var code, message := SignupErrorStatus(ValidationError(ValidationSummary, failures));
        status, reply := code, ErrorBody(message);
        return;
      }
      var user := NewUser(requestedId.GetOr(nextId), doc);
      if requestedId.None? {
        CounterNotInUse(users, nextId);
      }
      var saved := Save(user);
      if saved.Err? {
        var code, message := SignupErrorStatus(saved.error);
        status, reply := code, ErrorBody(message);
        return;
      }
      SchemaValidationMeaning(doc, ext.emailPattern);
      SettersThenValidation(body, ext.emailPattern);
      var token := ext.sign(user.id, user.username);
      status := 201;
      reply := SignedUp(user.username, user.email, user.location, token);
    }

    /** `document.save()` after validation: the pre-save hook, then the insertion. The hook's
        first failing check is a plain error; an `_id` another user has is a duplicate key;
        otherwise the record is stored with its password hashed. */
    method Save(user: User) returns (r: Result<User, ErrorValue>)
      requires Valid()
      modifies this
      ensures Valid()
      ensures var verdict := FirstFailure(SaveChecks, old(users), user, ext);
              if verdict.Some? then
                r == Err(PlainError(CheckMessage(verdict.value), 400)) && users == old(users) && nextId == old(nextId)
              else if IdInUse(old(users), user.id) then
                r == Err(DuplicateKeyError(["_id"])) && users == old(users) && nextId == old(nextId)
              else
                && r == Ok(user.(password := ext.hash(user.password)))
                && user.username !in old(users) && users == old(users)[user.username := r.value]
                && nextId == Advance(old(nextId), user.id)
    {
      r := PreSave(users, user, ext);
      if r.Err? {
        return;
      }
      // The hook has already ruled out a clash on username or email, so only the `_id` index
      // can reject the insertion.
      HookPassedNotTaken(users, user, ext);
      var inserted := Insert(r.value);
      if !inserted {
        r := Err(DuplicateKeyError(["_id"]));
      }
    }

    /** The collection's insertion: the unique indexes on `_id`, `username` and `email` reject
        a record that shares any of them with a stored one (E11000); otherwise the record is
        stored under its username and the counter moves past its id. */
    method Insert(user: User) returns (inserted: bool)
      requires Valid()
      modifies this
      ensures Valid()
      ensures inserted <==> !IdInUse(old(users), user.id) && !Taken(old(users), user)
      ensures inserted ==> user.username !in old(users) && users == old(users)[user.username := user]
                           && nextId == Advance(old(nextId), user.id)
      ensures !inserted ==> users == old(users) && nextId == old(nextId)
    {
      if IdInUse(users, user.id) || Taken(users, user) {
        return false;
      }
      InsertKeepsValid(users, nextId, user);
      users := users[user.username := user];
      nextId := Advance(nextId, user.id);
      inserted := true;
    }

    /** `getUserByUsername`: the public fields of the user, or 404. The filter value passes
        through the schema's `trim` setter before it is matched. */
    method GetUserByUsername(username: string) returns (status: int, reply: UserReply)
      ensures var key := Trim(username);
              key in users ==>
                status == 200 && reply == Profile(users[key].username, users[key].email, users[key].location)
      ensures Trim(username) !in users ==> status == 404 && reply == ErrorBody(UserNotFound)
    {
      var key := Trim(username);
      if key !in users {
        return 404, ErrorBody(UserNotFound);
      }
      var user := users[key];
      status := 200;
      reply := Profile(user.username, user.email, user.location);
    }

    /** `updateUser`: a truthy body username must equal the route's as written; the record
        found by the route's username, trimmed by the schema's setter, is merged with the body
        as given and re-keyed under the merged username, unless a unique index rejects the
        write. */
    method UpdateUser(route: string, update: UserFields) returns (status: int, reply: UserReply)
      requires Valid()
      modifies this
      ensures Valid() && nextId == old(nextId)
      ensures Truthy(update.username) && update.username.value != route ==>
                status == 400 && reply == ErrorBody(UsernameMismatch) && users == old(users)
      ensures !(Truthy(update.username) && update.username.value != route) && Trim(route) !in old(users) ==>
                status == 404 && reply == ErrorBody(UserNotFound) && users == old(users)
      ensures var key := Trim(route);
              !(Truthy(update.username) && update.username.value != route) && key in old(users) ==>
                var merged := MergeUser(old(users)[key], update);
                if Collides(old(users), key, merged) then
                  status == 500 && reply == ErrorBody(InternalError) && users == old(users)
                else
                  && status == 200
                  && users == (old(users) - {key})[merged.username := merged]
                  && reply == ProfileUpdated("User updated successfully", merged.username, merged.email, merged.location)
      ensures status == 200 ==>
                && reply.username == (if update.username.Some? then Trim(update.username.value) else Trim(route))
                && (Truthy(update.username) ==> reply.username == Trim(route))
                && (update.password.Some? ==> users[reply.username].password == update.password.value)
    {
      if Truthy(update.username) && update.username.value != route {
        return 400, ErrorBody(UsernameMismatch);
      }
      var key := Trim(route);
      if key !in users {
        return 404, ErrorBody(UserNotFound);
      }
      var merged := MergeUser(users[key], update);
      var clash := exists k :: k in users && k != key && (users[k].username == merged.username || users[k].email == merged.email);
      if clash {
        // E11000 from a unique index, caught by the handler's catch block.
        return 500, ErrorBody(InternalError);
      }
      UpdateKeepsValid(users, nextId, key, merged);
      users := (users - {key})[merged.username := merged];
      status := 200;
      reply := ProfileUpdated("User updated successfully", merged.username, merged.email, merged.location);
    }

    /** `deleteUser`: remove exactly the user whose username is the route's, trimmed by the
        schema's setter, and echo its public fields. */
    method DeleteUser(route: string) returns (status: int, reply: UserReply)
      requires Valid()
      modifies this
      ensures Valid() && nextId == old(nextId)
      ensures Trim(route) !in old(users) ==> status == 404 && reply == ErrorBody(UserNotFound) && users == old(users)
      ensures var key := Trim(route);
              key in old(users) ==>
                && status == 200
                && users == old(users) - {key}
                && reply == ProfileDeleted("User deleted successfully",
                                           old(users)[key].username, old(users)[key].email, old(users)[key].location)
    {
      var key := Trim(route);
      if key !in users {
        return 404, ErrorBody(UserNotFound);
      }
      var user := users[key];
      DeleteKeepsValid(users, nextId, key);
      users := users - {key};
      status := 200;
      reply := ProfileDeleted("User deleted successfully", user.username, user.email, user.location);
    }
  }
}
