/** src/middleware/updatePasswordValidation.js: `validatePassword` and its own copy of the
    strength test. */
module PasswordValidation {
  import opened Common
  import opened ErrorHandler
  import PasswordStrength
  import UserModel

  const StrengthMessage :=
    "Password must be at least 8 characters long and contain at least one digit, one lowercase letter, and one uppercase letter"

  /** This file's `isPasswordStrongEnough`: the same regular expression as the model's. */
  predicate IsPasswordStrongEnough(password: string)
    ensures IsPasswordStrongEnough(password) <==> PasswordStrength.StrongEnough(password)
  {
    PasswordStrength.StrengthPatternMeaning(password);
    PasswordStrength.MatchesStrengthPattern(password)
  }

  /** The middleware's copy and the User model's copy agree on every string. */
  lemma CopiesAgree(password: string)
    ensures IsPasswordStrongEnough(password) == UserModel.IsPasswordStrongEnough(password)
  {
  }

  /** `validatePassword(reqBody)` with `reqBody.password`: an absent or empty password is let
      through, a present one must be strong enough, and the result on success is `true`. */
  function ValidatePassword(password: Option<string>): (r: Result<bool, ErrorValue>)
    ensures r.Ok? ==> r.value
    ensures r.Err? <==> Truthy(password) && !PasswordStrength.StrongEnough(password.value)
    ensures r.Err? ==> r.error == CustomError(BadRequest, StrengthMessage)
  {
    if Truthy(password) && !IsPasswordStrongEnough(password.value) then
      Err(CustomError(BadRequest, StrengthMessage))
    else
      Ok(true)
  }

  /** The weak-password error reaches the client as a 400 carrying the strength message. */
  lemma WeakPasswordResponse(password: Option<string>)
    requires ValidatePassword(password).Err?
    ensures Respond(ValidatePassword(password).error) == ErrorResponse(StatusBadRequest, StrengthMessage)
  {
    CustomErrorResponse(BadRequest, StrengthMessage);
  }
}
