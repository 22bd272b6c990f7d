/** Types shared by every part of the model: optional values, identifiers
    and the reply a request handler produces. */
module Common {

  /** Primary keys of the store's tables. */
  type Id = int

  datatype Option<+T> = None | Some(value: T) {
    function GetOr(default: T): T {
      if Some? then value else default
    }
  }

  /** What a request handler ends with: the HTTP status and the payload of a
      successful response, or the status and message of the ApiError it throws. */
  datatype Reply<+T> = Success(status: int, data: T) | Failure(status: int, message: string)

  /** What a middleware ends with: it calls `next()`, it throws an ApiError
      with this status and message, or the runtime throws a TypeError (which
      carries no status of its own). */
  datatype Outcome = Next | Reject(status: int, message: string) | Fault

  /** JavaScript truthiness of an optional string: `undefined` and `""` are falsy. */
  predicate Truthy(s: Option<string>) {
    s.Some? && s.value != ""
  }

  /** `x || fallback` on an optional string. */
  function OrElse(s: Option<string>, fallback: string): (r: string)
    ensures Truthy(s) ==> r == s.value
    ensures !Truthy(s) ==> r == fallback
  {
    if Truthy(s) then s.value else fallback
  }
}
