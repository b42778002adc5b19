/** Values shared by every route handler: optional values, JavaScript truthiness of an
    optional string, and the shape of a JSON reply (a payload, or an HTTP status with an
    error message). */
module Http {

  datatype Option<+T> = None | Some(value: T)

  /** `!x` in the handlers: an absent value and the empty string are both falsy. */
  predicate Truthy(s: Option<string>)
  {
    s.Some? && s.value != ""
  }

  /** An error reply. `detail` carries the one extra field some replies add next to
      `error`: the `code` of a 409 conflict, or the `hint` of a missing provider key. */
  datatype Failure = Failure(status: int, error: string, detail: Option<string>)

  datatype Reply<+T> = Ok(value: T) | Fail(failure: Failure)

  function Error<T>(status: int, error: string): Reply<T>
  {
    Fail(Failure(status, error, None))
  }

  /** The reply of every handler that needs a signed-in user and has none. */
  function Unauthorized<T>(): Reply<T>
  {
    Error(401, "Unauthorized")
  }

  /** The session the authentication provider hands to a route: the user's email and name,
      each possibly absent. */
  datatype Session = Session(email: Option<string>, name: Option<string>)
}
