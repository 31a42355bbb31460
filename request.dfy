/**
 * The Express request: what the client sent, and the properties the
 * middlewares attach to it on the way to the handler.
 */
module Requests {
  import opened Wrappers
  import opened Jwt

  /** A JSON body value that should hold an integer: a JSON number or a string. */
  datatype Json = Str(s: string) | Num(n: int)

  /** `req.body`; an absent property is `None`. */
  datatype Form = Form(
    title: Option<string>,
    author: Option<string>,
    content: Option<string>,
    rating: Option<Json>,
    bookId: Option<Json>,
    username: Option<string>,
    email: Option<string>,
    password: Option<string>,
    confirmPassword: Option<string>)

  /**
   * What the client sent: the `Authorization` header, and `parseInt` of the
   * `:id` path parameter and of the `page` and `limit` query parameters
   * (`None` for `NaN`).
   */
  datatype Incoming = Incoming(
    authorization: Option<string>,
    id: Option<int>,
    page: Option<int>,
    limit: Option<int>,
    body: Form)

  /** What the middlewares have attached: `req.user`, `req.userId` and the validation results. */
  datatype Context = Context(user: Option<Claims>, userId: Option<int>, errors: seq<string>)

  const Untouched: Context := Context(None, None, [])

  class Request {
    const incoming: Incoming
    var user: Option<Claims>
    var userId: Option<int>
    var validationErrors: seq<string>

    function Attached(): Context
      reads this
    {
      Context(user, userId, validationErrors)
    }

    constructor (incoming: Incoming)
      ensures this.incoming == incoming
      ensures Attached() == Untouched
    {
      this.incoming := incoming;
      user, userId, validationErrors := None, None, [];
    }
  }

  /** `!id` on a `parseInt` result is false exactly for a number other than 0. */
  predicate Present(id: Option<int>)
  {
    id.Some? && id.value != 0
  }
}
