/** What a middleware or a handler answers: an HTTP status and a JSON body. */
module Http {
  import opened Wrappers
  import opened Db

  /** `validationErrors` as rendered: a list of messages, or the single string some call sites pass. */
  datatype ErrorValue = Messages(items: seq<string>) | Text(text: string)

  datatype PageMeta = PageMeta(totalBooks: int, totalPages: int, currentPage: int, perPage: int)

  /** A listed user: the selected columns, never the password. */
  datatype UserView = UserView(username: string, email: string, roles: seq<string>)

  /** The JSON bodies the application sends. */
  datatype Body =
    | Message(message: string)
    | Failure(message: string, validationErrors: ErrorValue)
    | Session(message: string, token: string, roles: seq<string>)
    | BookPage(data: seq<int>, meta: PageMeta)
    | BookDetail(id: int, book: Book, reviews: map<int, Review>)
    | BookCreated(id: int, book: Book)
    | BookUpdated(message: string, id: int, title: string, author: string)
    | ReviewCreated(message: string, id: int, review: Review)
    | UserList(users: map<int, UserView>)
    | UserDeleted(message: string, id: int, username: string, email: string, password: string)
    | Profile(username: string, email: string)
    | ProfileUpdated(message: string, username: string, email: string)

  datatype Reply = Reply(status: int, body: Body)

  /** What a handler leaves behind: the response the client sees, and the database after it. */
  datatype Outcome = Outcome(reply: Reply, tables: Tables)

  /** A middleware either calls `next()` or answers, which ends the chain. */
  datatype Step = Next | Respond(reply: Reply)

  /** A gate that, on success, also yields the value it attaches to the request. */
  datatype Verdict<T> = Pass(value: T) | Halt(reply: Reply)

  /**
   * Sending on `res`: once a response has gone out, later ones are lost, so
   * the first one sent is the one the client sees.
   */
  function Emit(sent: Option<Reply>, r: Reply): Option<Reply>
  {
    if sent.Some? then sent else Some(r)
  }

  /** Sending each of `replies` in turn, after `sent`. */
  function EmitAll(sent: Option<Reply>, replies: seq<Reply>): Option<Reply>
    decreases |replies|
  {
    if replies == [] then sent else EmitAll(Emit(sent, replies[0]), replies[1..])
  }

  /**
   * However many responses a handler goes on to send, the client sees the
   * first one: the one already sent, or else the first of them.
   */
  lemma {:induction false} FirstResponseWins(sent: Option<Reply>, replies: seq<Reply>)
    requires sent.Some? || replies != []
    ensures EmitAll(sent, replies) == if sent.Some? then sent else Some(replies[0])
    decreases |replies|
  {
    if replies != [] {
      FirstResponseWins(Emit(sent, replies[0]), replies[1..]);
    }
  }
}

