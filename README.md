# Lost-and-found API: a Dafny model

This project models the core of a lost-and-found web API (Node.js, Express and Mongoose). On
that API, users sign up, report lost items, claim items someone else has reported, and
confirm or delete items. The request handlers and middleware are modelled over in-memory
stores:

- The Item collection is a class holding `map<Id, Item>`. Its methods are the nine item
  handlers. Each handler is a lookup restricted by ownership, followed by a merge or a
  removal.
- The User collection is a class holding `map<string, User>`, keyed by username. Its methods
  are the four user handlers plus `Save` and `Insert`, the save path of signup: the
  `pre("save")` hook followed by the insertion under the unique indexes. Signup runs the schema's setters and validators, then the
  ordered `pre("save")` checks, then hashes the password.
- The password-strength regular expression is spelt out character by character. It is
  proved equal to a declarative statement: no line terminator, at least 8 characters, and
  at least one digit, one lower-case and one upper-case ASCII letter.
- The error middleware is a function from an error value to (status, msg). A method
  reproduces its three sequential overwrites.
- The authentication middleware is modelled in two parts: the `Bearer ` header check with
  `split(" ")[1]`, and its effect on the request. Token verification is a parameter.

Modules, one per source file, plus three helpers:

| module | file | models |
|---|---|---|
| `Common` | common.dfy | `Option`, `Result`, Javascript truthiness of a string field |
| `Text` | text.dfy | `String.prototype.trim`, ASCII `toLowerCase`, `startsWith`, `includes`, `split` on one character, `join` |
| `ErrorHandler` | error_handler.dfy | src/middleware/errorHandler.js and the error values that reach it |
| `PasswordStrength` | password_strength.dfy | the regular expression `/^(?=.*\d)(?=.*[a-z])(?=.*[A-Z]).{8,}$/` |
| `PasswordValidation` | password_validation.dfy | src/middleware/updatePasswordValidation.js |
| `UserModel` | user_model.dfy | src/models/User.js |
| `UserController` | user_controller.dfy | src/controllers/userController.js |
| `Authentication` | authentication.dfy | src/middleware/authentication.js |
| `ItemModel` | item_model.dfy | src/models/Item.js and the Mongoose query semantics the item handlers rely on |
| `ItemController` | item_controller.dfy | src/controllers/itemController.js |

Library behaviour the handlers depend on is modelled explicitly:

- Schema setters (`trim`, `lowercase`) run when the document is built, before validation,
  and on the fields of an update query.
- Document validation runs before the `pre("save")` hook. Mongoose reports every failing
  path; for each path it reports only the first failing validator.
- With `runValidators: true`, the update validators of `findOneAndUpdate` run before the
  query. They check only the paths the update sets.
- A unique index rejects a write that collides with another document. That includes the
  `_id` index, when a body names an `_id` already in use.
- The values of a query filter pass through the schema's setters. So the username in the
  filter of `findOne`, `findOneAndUpdate` and `findOneAndDelete` is trimmed first.

### Behaviour of the code a reader may not expect (the model follows the code)

- `updateItem`: the required validators reject `title`, `description` or `location` set to
  `""` before the query runs. The client then gets a 400 listing the field messages, even
  when no item matches. The three `BadRequestError` checks after the write
  (itemController.js:98-104) can never fire.
- `auth`: a token that fails `jwt.verify` goes to `next` unchanged. That error carries no
  `statusCode`, so the error handler answers 500 with the library's message, not 401.
- `signup`: the pre-save hook's errors are plain `Error`s with `status = 400`. The signup
  catch block reads only `name` and `code`, so these errors come out as 500 "Internal Server
  Error".
- `updateUser` runs the setters but no validators, and does not hash. A new password is
  stored as sent, and a username of any length is accepted. A
  change of username or email that collides with another user is rejected by the unique
  index, and the catch turns that into a 500.
- `claimItem` forces `lost`, `claimedBy` and `dateClaimed` but passes the rest of the body
  through, `claimConfirmed` included. A claimer who sends `claimConfirmed: true` confirms
  their own claim. They can then delete the item with `deleteConfirmedItem`, and the
  reporter never takes part.
- `claimItem` does not clear `claimConfirmed`. When someone claims an item again after the
  reporter confirmed the first claim, the new claimer can delete it at once with
  `deleteConfirmedItem`.
- The CastError branch of the error handler tests the whole message, and that message quotes
  the rejected value. So a malformed item id that contains "user" is answered with "User not
  found" (errorHandler.js:24).
- `dateReported` defaults to a single constant: `Date.now()` is evaluated once, when the
  schema is built. The creation reply's `dateReported` is the record's `createdAt`, not that
  field.

## Model

| member | source | states |
|---|---|---|
| ItemModel.CreateValidationMeaning | src/models/Item.js:3-47 | creation validation passes exactly when `reportedBy` is present and the record built has non-empty title, description and location. The stored record then has the body's `reportedBy`, `lost` defaulting to true, `dateReported` defaulting to the load-time constant, and `createdAt` equal to the time of the write |
| ItemModel.UpdateKeepsWellFormed | src/models/Item.js:5-16 | an update that passes the update validators keeps the three required strings non-empty |
| ItemModel.ClaimCanConfirmItself | src/controllers/itemController.js:116-127 | a claim body carrying `claimConfirmed: true` leaves the item claimed by the caller and confirmed in one write |
| ItemModel.ClaimOverwrites | src/controllers/itemController.js:116-127 | after a claim, the caller is the claimer, whoever claimed before; `lost` is false and `dateClaimed` is now; an existing confirmation stays; the item is no longer in the reported phase |
| ItemModel.ConfirmIgnoresClaim | src/controllers/itemController.js:152-163 | a confirmation makes the item confirmed whether or not anyone claimed it, and keeps the claimer |
| ItemModel.FirstExists | src/controllers/itemController.js:50 | every non-empty store has a record that comes first in `createdAt` order |
| ItemModel.PrependFirst | src/controllers/itemController.js:50 | putting the first record before a sorted enumeration of the rest gives a sorted enumeration of all |
| ItemModel.ByCreation | src/controllers/itemController.js:50 | the result lists every record of the map exactly once and nothing else, in ascending `createdAt` order |
| ItemModel.OfReporterMembers | src/controllers/itemController.js:64 | an entry is in a listing filtered by reporter exactly when it is in the listing and has that reporter |
| ItemModel.OfReporterInOrder | src/controllers/itemController.js:64 | filtering a `createdAt`-ordered listing keeps it ordered |
| ItemModel.EnumerationTail | src/controllers/itemController.js:50 | dropping the first record of an ordered enumeration enumerates the rest of the store |
| ItemModel.EnumerationHead | src/controllers/itemController.js:50 | two ordered enumerations of one store are empty together and start with the same record |
| ItemModel.EnumerationUnique | src/controllers/itemController.js:50 | a store has exactly one ordered enumeration, so the sorted listing is determined by the records alone |
| ItemModel.ListingByReporter | src/controllers/itemController.js:64 | the `createdAt`-sorted listing of one user's items equals the full sorted listing filtered by `reportedBy`: the same records in the same order |
| ItemController.NotFoundResponses | src/controllers/itemController.js:68 | a `NotFoundError` reaches the client as 404: with the fallback message when it has none, and with its own message otherwise |
| ItemController.ItemStore.constructor | src/models/Item.js:22-26 | the store starts empty, and the `dateReported` default is fixed when the schema is built |
| ItemController.ItemStore.CreateItem | src/controllers/itemController.js:7-26 | `reportedBy` is the caller whatever the body says. An invalid body is a ValidationError and the store is unchanged. If the body names an `_id` already in use, the insertion fails with a duplicate key on `_id` and the store is unchanged; without one, this never happens. Otherwise exactly one new record is added, under the body's `_id` or else a fresh id from the counter, and the counter moves past it. The 201 reply echoes the record with `createdAt` as `dateReported` |
| ItemController.ItemStore.GetItem | src/controllers/itemController.js:29-45 | returns the stored record with that id, or NotFound when there is none; the store is not touched |
| ItemController.ItemStore.GetAllItems | src/controllers/itemController.js:48-55 | every stored record exactly once, in `createdAt` order, with `count` equal to the number returned |
| ItemController.ItemStore.GetAllItemsByUser | src/controllers/itemController.js:58-79 | NotFound naming the id when the user does not exist, whatever items reference it. A message-only reply when the user has no items. Otherwise exactly that user's records, in `createdAt` order, with their count; that list is the full listing filtered by reporter |
| ItemController.ItemStore.UpdateItem | src/controllers/itemController.js:82-111 | an empty required string is a ValidationError and the store is unchanged. Then NotFound, with the store unchanged, unless the id matches an item reported by the caller. Otherwise only that record changes, to the merge of the body |
| ItemController.ItemStore.ClaimItem | src/controllers/itemController.js:114-147 | any caller may claim any existing item. It becomes not lost, claimed by the caller at the current time, and merged with the rest of the body. An unknown id is NotFound with the store unchanged |
| ItemController.ItemStore.ConfirmClaim | src/controllers/itemController.js:150-182 | only the reporter's item matches, and it gets `claimConfirmed == true` whether or not it is claimed. Any other caller or id gets NotFound and the store is unchanged |
| ItemController.ItemStore.DeleteItem | src/controllers/itemController.js:185-205 | removes exactly the record with that id when the caller reported it. Otherwise NotFound and the store is unchanged |
| ItemController.ItemStore.DeleteConfirmedItem | src/controllers/itemController.js:209-230 | removes exactly that record when the caller claimed it and the claim is confirmed. Otherwise NotFound and nothing is removed |
| ItemController.SelfConfirmedClaim | src/controllers/itemController.js:114-230 | B claims A's item with `claimConfirmed: true` in the body, and B's `deleteConfirmedItem` then succeeds and empties the store without any step from A |
| ItemController.WalletLifecycle | src/controllers/itemController.js:7-230 | a report by A, a claim by B, a confirmation by A and a deletion by B all succeed in that order: 201 on creation, the item marked not lost and claimed by B, confirmed, and finally removed |
| UserModel.SchemaValidationMeaning | src/models/User.js:6-34 | document validation passes exactly on documents with a 3-50 character username, a non-empty email matching the pattern and a non-empty password. The first failure names the username exactly when the username is missing or has the wrong length |
| UserModel.SettersThenValidation | src/models/User.js:7-25 | a document that validates has a trimmed username of 3 to 50 characters and a trimmed, lower-case, non-empty email matching the pattern |
| UserModel.IsPasswordStrongEnough | src/models/User.js:99-101 | holds exactly when the password has no line terminator, at least 8 characters, a digit, a lower-case and an upper-case letter |
| UserModel.FirstFailure | src/models/User.js:38-67 | None exactly when every check passes. Otherwise it is a check that fails when every earlier check passed |
| UserModel.PreSave | src/models/User.js:36-75 | the first failing check, in hook order, gives an Error with that check's message and `status` 400. Only when all four pass is the document returned, with its password replaced by the hash |
| UserModel.SaveCheckOrder | src/models/User.js:38-67 | the hook accepts exactly the documents whose username is alphanumeric and email valid, where no stored user has that username or that email, and whose password is strong. A non-alphanumeric username is reported before the email, and the email before uniqueness |
| PasswordStrength.DotsToEndMeaning | src/models/User.js:100 | `.{n,}$` matches from the start exactly when the string has no line terminator and at least n characters |
| PasswordStrength.LookaheadMeaning | src/models/User.js:100 | a lookahead `(?=.*[class])` succeeds only when the class occurs, and always does so on a string without line terminators |
| PasswordStrength.StrengthPatternMeaning | src/models/User.js:94-101 | the pattern matches exactly the strong passwords: no line terminator, at least 8 characters, and at least one `[0-9]`, one `[a-z]` and one `[A-Z]` |
| PasswordValidation.IsPasswordStrongEnough | src/middleware/updatePasswordValidation.js:13-15 | holds exactly when the password is strong in the same sense |
| PasswordValidation.CopiesAgree | src/middleware/updatePasswordValidation.js:13-15 | the two copies of the strength predicate agree on every string |
| PasswordValidation.ValidatePassword | src/middleware/updatePasswordValidation.js:3-11 | fails exactly on a non-empty password that is not strong, with a BadRequestError carrying the strength message. In every other case, including an absent or empty password, it returns true |
| PasswordValidation.WeakPasswordResponse | src/middleware/updatePasswordValidation.js:5-9 | the rejection reaches the client as 400 with the strength message |
| UserController.SignupErrorStatus | src/controllers/userController.js:13-29 | a ValidationError gives 400 with its message. Otherwise code 11000 gives 409 "Email is already in use.", and anything else 500 "Internal Server Error" |
| UserController.InsertKeepsValid | src/models/User.js:7-25 | a new user stored under an id no stored user has, sharing neither username nor email with a stored user, keeps records keyed by username, with distinct emails and ids, all below the advanced counter |
| UserController.DeleteKeepsValid | src/controllers/userController.js:86 | removing a record keeps records keyed by username, with distinct emails and ids |
| UserModel.HookPassedNotTaken | src/models/User.js:50-58 | a document the pre-save hook lets through shares neither username nor email with a stored user |
| UserController.UpdateKeepsValid | src/controllers/userController.js:63-65 | re-keying an updated record under its merged username keeps that invariant when no other user holds the merged username or email |
| UserController.UserStore.constructor | src/controllers/userController.js:1 | the store starts empty |
| UserController.UserStore.Signup | src/controllers/userController.js:3-31 | a document that fails validation gives 400 with the validation message, and one the hook rejects gives 500; either way the store is unchanged. If the body names an `_id` another user has, the insertion fails with E11000 and the reply is 409 "Email is already in use."; without one, a 409 never happens. Otherwise exactly one user is added, keyed by its trimmed username, with the hashed password, under the body's `_id` or else a fresh id from the counter. The 201 reply carries username, email, location and token, never the password |
| UserController.UserStore.Save | src/models/User.js:36-75 | the pre-save hook's first failing check gives its plain 400 error and leaves the store unchanged. A record that passes but whose id another user has gives a duplicate key on `_id`, also with the store unchanged. Any other record is stored under its username with the hashed password, and the counter moves past its id |
| UserController.UserStore.Insert | src/models/User.js:7-25 | the unique indexes on `_id`, `username` and `email`: the insertion succeeds exactly when no stored user shares any of them, and then adds just that record |
| UserController.UserStore.GetUserByUsername | src/controllers/userController.js:32-50 | the route's username is trimmed, as the schema's setter does to a filter value. The reply is 200 with only the username, email and location of the user stored under the trimmed name, or 404 "User not found" |
| UserController.UserStore.UpdateUser | src/controllers/userController.js:52-81 | a truthy body username other than the route's, compared untrimmed, gives 400 with the store unchanged. The record is then looked up by the trimmed route username; an unknown user gives 404. A collision with another user's username or email gives 500. Otherwise the record is merged with the body after the trim and lowercase setters, with the password stored as sent and not hashed, and re-keyed under the merged username |
| UserController.UserStore.DeleteUser | src/controllers/userController.js:83-102 | the route's username is trimmed, as the schema's setter does to a filter value. The reply is 404 with the store unchanged when no user has the trimmed name. Otherwise exactly that user is removed and its public fields are echoed |
| ErrorHandler.ErrorHandlerMiddleware | src/middleware/errorHandler.js:3-34 | the three sequential overwrites give the priority reading: a cast error decides over a duplicate key, a duplicate key over a validation error, and a validation error over the defaults |
| ErrorHandler.CustomErrorResponse | src/middleware/errorHandler.js:4-7 | a custom error keeps its class's status code, and its message unless the message is empty |
| ErrorHandler.ValidationErrorResponse | src/middleware/errorHandler.js:9-14 | a ValidationError gives 400 with the field messages joined by ", " |
| ErrorHandler.DuplicateKeyResponse | src/middleware/errorHandler.js:16-21 | code 11000 gives 409 with a message naming the duplicated keys |
| ErrorHandler.UnrecognisedIsInternal | src/middleware/errorHandler.js:5 | an error that matches no branch and has no status code gives 500 |
| ErrorHandler.CastErrorResponses | src/middleware/errorHandler.js:23-31 | a cast error on the User model gives 404 "User not found"; a cast error whose message mentions neither "User" nor "user" gives 404 "No item found with id : " followed by the value |
| ErrorHandler.CastValueMentioningUser | src/middleware/errorHandler.js:24-26 | a cast error on any model whose rejected value contains "user" gives 404 "User not found" |
| ErrorHandler.LaterBranchesWin | src/middleware/errorHandler.js:16-31 | a cast error is always 404, and a duplicate key that is not a cast error is always 409 |
| Authentication.HeaderToken | src/middleware/authentication.js:9-13 | rejected exactly when the header is missing, empty or does not start with the case-sensitive "Bearer "; the rejection is "Authentication Invalid". Otherwise the token is the text after the prefix up to the next space |
| Authentication.BearerRoundTrip | src/middleware/authentication.js:13 | "Bearer " followed by a token without spaces yields that token |
| Authentication.HeaderExamples | src/middleware/authentication.js:9-13 | "Bearer  x" yields the empty token, while "bearer x" and "Bearer" are rejected |
| Authentication.RejectedHeaderResponse | src/middleware/authentication.js:9-11 | a rejected header reaches the client as 401 "Authentication Invalid" |
| Authentication.FailedVerificationResponse | src/middleware/authentication.js:15-23 | a token that fails verification reaches the client as 500 with the library's message |
| Authentication.Request.constructor | src/middleware/authentication.js:6 | a request with the given header, no user and no call to `next` yet |
| Authentication.Auth | src/middleware/authentication.js:5-24 | a rejected header forwards its error and leaves `req.user` alone. A failed verification forwards the library's error and leaves `req.user` alone. A verified token sets `req.user` to the payload's userId and username and calls `next()` with no error |
| Text.TrimStartSuffix | src/models/User.js:13 | what dropping the leading whitespace keeps is a suffix of the string |
| Text.TrimProperties | src/models/User.js:13 | the trimmed string starts and ends with no whitespace; a trimmed string is its own trim; trimming is idempotent |
| Text.SplitJoin | src/middleware/authentication.js:13 | joining the parts of a split with the separator gives back the string |
| Text.ContainsInfix | src/middleware/errorHandler.js:24 | `includes` finds a string anywhere it occurs as an infix |
| Text.SplitAfterFirst | src/middleware/authentication.js:13 | splitting text with no separator before the first one gives that text, followed by the split of the rest |

## Left out

- I/O, HTTP and the database are left out. Each handler is a method on an in-memory store; a
  reply is a datatype, and a status code is an integer or the reply's kind. `console.error`
  is not modelled.
- `bcrypt.hash` (with its salt), `jwt.sign`, `jwt.verify`, `validator.isAlphanumeric`,
  `validator.isEmail` and the schema's email regular expression are left out as opaque
  parameters. The stores receive them as functions.
- `Date.now()` becomes a `now` parameter. The `dateReported` default is the constructor's
  `schemaBuiltAt`.
- ObjectId casting is left out. Ids are natural numbers, never malformed. They come from a
  counter, or from the `_id` a creation body names. A CastError arises only as an input to
  the error-handler model.
- Fields that are not strings are left out: a body that sends `title` as a number or
  `lost` as a string is not modelled, and neither is Mongoose's casting of such values.
- Concurrency is left out. The handlers run one at a time, so the race between two claims
  does not arise.
- The routers, Swagger docs, app bootstrapping, database connection, multer configuration
  and `uploadItemImages` are left out: they are wiring, not logic.
- The custom error class files `customError`, `notFound` and `badRequest` are not part of
  this model. The model takes their `statusCode` to be 404 and 400, their `name` "Error",
  and an omitted message to be empty.
- Only the first failing validator of each path is reported. The order Mongoose uses to
  list failures across paths is taken to be schema order.
- String lengths count Unicode code points, not UTF-16 code units. The username bounds
  therefore differ from the source on characters outside the Basic Multilingual Plane, and
  so does `.{8,}` in the strength pattern, which without the `u` flag counts code units.
  `toLowerCase` is modelled on ASCII letters only.
- PasswordStrength.StrengthPatternMeaning, UserModel.IsPasswordStrongEnough,
  PasswordValidation.IsPasswordStrongEnough: each character counts once; "Aa1" followed by
  three characters outside the Basic Multilingual Plane is 9 code units, strong in the
  source, but 6 characters, weak in the model.
- ItemController.ItemStore.CreateItem: a body's `createdAt` and `updatedAt` are not modelled.
  Both timestamps are always the time of the write. Users carry no timestamps: the User
  schema has no `timestamps` option, and strict mode drops such body fields. In both creations a
  body's `_id` is modelled as a separate optional argument.
- ItemController.ItemStore.UpdateItem, ItemController.ItemStore.ClaimItem,
  ItemController.ItemStore.ConfirmClaim, UserController.UserStore.UpdateUser: an `_id` in an
  update body is not modelled. MongoDB rejects a change to `_id`.
- UserController.UserStore.UpdateUser: the MongoDB duplicate-key message is not modelled,
  because the handler's catch block replaces it with "Internal Server Error".
- ItemModel.ByCreation: ties in `createdAt` are broken by id. Counter ids grow with
  insertion, but a client's `_id` need not, so this is not always insertion order. MongoDB
  leaves the order of equal keys unspecified.
- ItemController.ItemStore.GetAllItemsByUser: the existing users' ids are passed in as a
  set. The lookup in the User collection is not modelled.
- UserController.UserStore.UpdateUser: the handler is modelled as if its route parameter were
  named `username`. The router mounts it on `/:userId` (src/routes/userRouter.js:14), so in
  the wired application `req.params.username` is undefined. Routing is not modelled.
