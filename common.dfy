// Shared vocabulary of the storefront model: optional values, the HTTP
// status codes the Express handlers answer with, and JavaScript truthiness
// of the string fields the handlers test with `!x`.

module Common {

  datatype Option<T> = None | Some(value: T)

  /** The status codes the server code sends. */
  datatype Status = Ok200 | Created201 | BadRequest400 | Unauthorized401
                  | Forbidden403 | NotFound404 | ServerError500
  {
    function Code(): (c: int)
      ensures 200 <= c < 600
      ensures (c < 400) <==> (this == Ok200 || this == Created201)
    {
      match this
      case Ok200 => 200
      case Created201 => 201
      case BadRequest400 => 400
      case Unauthorized401 => 401
      case Forbidden403 => 403
      case NotFound404 => 404
      case ServerError500 => 500
    }
  }

  /** A string field read from a request body: absent, or present with a value.
      JavaScript treats an absent field and the empty string alike as falsy. */
  predicate Truthy(s: Option<string>)
  {
    s.Some? && s.value != ""
  }
}
