/** Values shared by every part of the model. */
module Common {

  /** Database identifiers (MongoDB ObjectIds). The model only compares and allocates them. */
  type Id = nat

  datatype Option<T> = None | Some(value: T) {
    function GetOr(default: T): T {
      if Some? then value else default
    }
  }

  /** The id counter once `used` has been taken: never below the old counter and above `used`,
      so every id handed out so far stays below it. */
  function Advance(counter: Id, used: Id): (next: Id)
    ensures counter <= next && used < next
    ensures used < counter ==> next == counter
  {
    if used < counter then counter else used + 1
  }

  /** The outcome of a handler: its reply, or the error it throws or hands to `next`. */
  datatype Result<T, E> = Ok(value: T) | Err(error: E)

  /** JavaScript truthiness of a string that may be undefined: undefined and "" are falsy. */
  predicate Truthy(s: Option<string>) {
    s.Some? && s.value != ""
  }
}
