/**
 * The book handlers. Most error paths call `next(err)` without returning, so
 * the handler goes on; the client sees the first response sent, while later
 * database writes still happen.
 */
module BookController {
  import opened Wrappers
  import opened Jwt
  import opened Db
  import opened Http
  import opened Errors
  import opened Requests

  // ---------------------------------------------------------------- getAllBooks

  const DefaultPage: int := 1
  const DefaultLimit: int := 8
  const MaxLimit: int := 15

  /** `parseInt(x) || fallback`: `NaN` and 0 both fall back. */
  function OrDefault(v: Option<int>, fallback: int): int
  {
    if v.Some? && v.value != 0 then v.value else fallback
  }

  datatype Paging = Window(page: int, limit: int) | Invalid(message: string)

  /** The page and limit `getAllBooks` uses, or the first complaint it sends. */
  function Normalize(pageParam: Option<int>, limitParam: Option<int>): (r: Paging)
    ensures r.Window? <==> (pageParam.None? || pageParam.value >= 0) && (limitParam.None? || limitParam.value >= 0)
    ensures r.Window? ==> 1 <= r.page && 1 <= r.limit <= MaxLimit
    ensures r.Window? && (pageParam.None? || pageParam == Some(0)) ==> r.page == DefaultPage
    ensures r.Window? && (limitParam.None? || limitParam == Some(0)) ==> r.limit == DefaultLimit
    ensures r.Window? && pageParam.Some? && pageParam.value > 0 ==> r.page == pageParam.value
    ensures r.Window? && limitParam.Some? && 0 < limitParam.value ==> r.limit == Min(limitParam.value, MaxLimit)
    ensures pageParam.Some? && pageParam.value < 0 ==> r == Invalid("Page number must be greater than 0")
    ensures (pageParam.None? || pageParam.value >= 0) && limitParam.Some? && limitParam.value < 0 ==>
              r == Invalid("Limit must be greater than 0")
  {
    var page := OrDefault(pageParam, DefaultPage);
    var limit := OrDefault(limitParam, DefaultLimit);
    if page < 1 then Invalid("Page number must be greater than 0")
    else if limit < 1 then Invalid("Limit must be greater than 0")
    else Window(page, if limit > MaxLimit then MaxLimit else limit)
  }

  function Min(a: int, b: int): int
  {
    if a < b then a else b
  }

  /** `Math.ceil(total / limit)`. */
  function TotalPages(total: nat, limit: int): (n: nat)
    requires limit >= 1
    ensures total <= n * limit
    ensures n == 0 || (n - 1) * limit < total
  {
    var n := (total + limit - 1) / limit;
    assert n * limit <= total + limit - 1 < (n + 1) * limit;
    n
  }

  /** `offset = (page - 1) * limit`: the number of books before the page. */
  function Offset(page: int, limit: int): nat
    requires page >= 1 && limit >= 1
  {
    MulMonotone(0, page - 1, limit);
    (page - 1) * limit
  }

  /** `findMany({ skip, take })` over the books in title order. */
  function Slice(listing: seq<int>, skip: nat, take: nat): (page: seq<int>)
    ensures |page| <= take
  {
    var from := Min(skip, |listing|);
    listing[from..Min(skip + take, |listing|)]
  }

  /**
   * `getAllBooks`; `listing` is the book ids in title order as the database
   * returns them (their count is `totalBooks`).
   */
  function GetAllBooks(pageParam: Option<int>, limitParam: Option<int>, listing: seq<int>, storeFails: bool): (r: Reply)
    ensures Normalize(pageParam, limitParam).Invalid? ==>
              r == GlobalErrorHandler(ValidationException(Text(Normalize(pageParam, limitParam).message)))
    ensures r.status == 200 <==> Normalize(pageParam, limitParam).Window? && !storeFails
    ensures r.status == 200 ==>
              && r.body.BookPage?
              && r.body.meta.totalBooks == |listing|
              && r.body.meta.currentPage == Normalize(pageParam, limitParam).page
              && r.body.meta.perPage == Normalize(pageParam, limitParam).limit
              && |r.body.data| <= r.body.meta.perPage
              && (forall i | 0 <= i < |r.body.data| :: r.body.data[i] in listing)
    ensures r.status == 200 ==>
              && r.body.meta.totalPages == TotalPages(|listing|, r.body.meta.perPage)
              && r.body.data == Slice(listing, Offset(r.body.meta.currentPage, r.body.meta.perPage), r.body.meta.perPage)
  {
    match Normalize(pageParam, limitParam)
    case Invalid(message) => GlobalErrorHandler(ValidationException(Text(message)))
    case Window(page, limit) =>
      if storeFails then GlobalErrorHandler(ServerErrorException("Error fetching books"))
      else
        Reply(200, BookPage(Slice(listing, Offset(page, limit), limit), PageMeta(|listing|, TotalPages(|listing|, limit), page, limit)))
  }

  /**
   * Paging loses nothing: for any accepted limit, the book at position `k`
   * of the listing is served at position `k % limit` of page `k / limit + 1`,
   * and that page is one of the `totalPages` pages the reply announces.
   */
  lemma EveryBookOnItsPage(listing: seq<int>, limit: int, k: int)
    requires 1 <= limit <= MaxLimit
    requires 0 <= k < |listing|
    ensures var r := GetAllBooks(Some(k / limit + 1), Some(limit), listing, false);
            && r.status == 200
            && k / limit + 1 <= r.body.meta.totalPages
            && k % limit < |r.body.data|
            && r.body.data[k % limit] == listing[k]
  {
    PageOf(listing, limit, k);
    assert k / limit >= 0;
    assert Normalize(Some(k / limit + 1), Some(limit)) == Window(k / limit + 1, limit);
  }

  lemma PageOf(listing: seq<int>, limit: int, k: int)
    requires limit >= 1 && 0 <= k < |listing|
    ensures var page := k / limit + 1;
            && 1 <= page <= TotalPages(|listing|, limit)
            && k % limit < |Slice(listing, (page - 1) * limit, limit)|
            && Slice(listing, (page - 1) * limit, limit)[k % limit] == listing[k]
  {
    var q, r := k / limit, k % limit;
    var n := TotalPages(|listing|, limit);
    assert k == q * limit + r && 0 <= r < limit;
    assert 0 <= q by {
      if q < 0 {
        MulMonotone(q, -1, limit);
      }
    }
    if q >= n {
      MulMonotone(n, q, limit);
      assert false;
    }
    var page := Slice(listing, q * limit, limit);
    assert (q + 1 - 1) * limit == q * limit;
    assert page == listing[q * limit..Min(q * limit + limit, |listing|)];
  }

  lemma MulMonotone(a: int, b: int, c: int)
    requires a <= b && c >= 0
    ensures a * c <= b * c
  {
    assert b * c - a * c == (b - a) * c;
  }

  // ---------------------------------------------------------------- getBook

  /** The reviews `include: { reviews }` brings along with a book. */
  function ReviewsOf(t: Tables, bookId: int): (reviews: map<int, Review>)
    ensures forall v :: v in reviews <==> v in t.reviews && t.reviews[v].bookId == bookId
    ensures forall v | v in reviews :: reviews[v] == t.reviews[v]
  {
    map v | v in t.reviews && t.reviews[v].bookId == bookId :: t.reviews[v]
  }

  /** `getBook`: read only. */
  function GetBook(id: Option<int>, t: Tables, storeFails: bool): (r: Reply)
    ensures !Present(id) ==> r == GlobalErrorHandler(ValidationException(Text("Book ID is required")))
    ensures Present(id) && !storeFails && id.value !in t.books ==> r == GlobalErrorHandler(NotFoundException("Book not found."))
    ensures r.status == 200 <==> Present(id) && !storeFails && id.value in t.books
    ensures r.status == 200 ==> r.body == BookDetail(id.value, t.books[id.value], ReviewsOf(t, id.value))
  {
    if !Present(id) then GlobalErrorHandler(ValidationException(Text("Book ID is required")))
    else if storeFails then GlobalErrorHandler(ServerErrorException("Error fetching book"))
    else if id.value !in t.books then GlobalErrorHandler(NotFoundException("Book not found."))
    else
      Reply(200, BookDetail(id.value, t.books[id.value], ReviewsOf(t, id.value)))
  }

  // ---------------------------------------------------------------- createBook

  /**
   * `createBook`: a validation failure is answered 400, yet the insert still
   * runs; it succeeds when title and author are present and the owner, the
   * caller's `req.userId`, is an existing user.
   */
  function CreateBookResult(errors: seq<string>, body: Form, userId: Option<int>, t: Tables, storeFails: bool): (r: Outcome)
    requires WellFormed(t)
    ensures WellFormed(r.tables)
    ensures r.tables.users == t.users && r.tables.reviews == t.reviews
    ensures t.books.Keys <= r.tables.books.Keys
    ensures forall id | id in t.books :: r.tables.books[id] == t.books[id]
    ensures forall id | id in r.tables.books && id !in t.books ::
              Some(r.tables.books[id].userId) == userId && userId.value in t.users
    ensures r.tables != t <==>
              body.title.Some? && body.author.Some? && userId.Some? && userId.value in t.users && !storeFails
    ensures r.tables != t ==>
              r.tables.books == t.books[t.nextBookId := Book(body.title.value, body.author.value, userId.value)]
    ensures r.reply.status == 201 <==> errors == [] && r.tables != t
    ensures r.reply.status == 201 ==> r.reply.body == BookCreated(t.nextBookId, r.tables.books[t.nextBookId])
    ensures errors != [] ==> r.reply == GlobalErrorHandler(ValidationException(Messages(errors)))
  {
    var inserts := body.title.Some? && body.author.Some? && userId.Some? && userId.value in t.users && !storeFails;
    var tables :=
      if inserts then t.(books := t.books[t.nextBookId := Book(body.title.value, body.author.value, userId.value)],
                         nextBookId := t.nextBookId + 1)
      else t;
    var reply :=
      if errors != [] then GlobalErrorHandler(ValidationException(Messages(errors)))
      else if inserts then Reply(201, BookCreated(t.nextBookId, tables.books[t.nextBookId]))
      else GlobalErrorHandler(ServerErrorException("Error creating book"));
    Outcome(reply, tables)
  }

  method CreateBook(db: Store, req: Request, storeFails: bool) returns (reply: Reply)
    requires db.Valid()
    modifies db`books, db`nextBookId
    ensures db.Valid()
    ensures Outcome(reply, db.Snapshot())
         == CreateBookResult(req.validationErrors, req.incoming.body, req.userId, old(db.Snapshot()), storeFails)
  {
    var sent: Option<Reply> := None;
    if req.validationErrors != [] {
      sent := Emit(sent, GlobalErrorHandler(ValidationException(Messages(req.validationErrors))));
    }
    var title, author := req.incoming.body.title, req.incoming.body.author;
    var userId := req.userId;
    if title.Some? && author.Some? && userId.Some? && userId.value in db.users && !storeFails {
      var id := db.nextBookId;
      var book := Book(title.value, author.value, userId.value);
      db.books := db.books[id := book];
      db.nextBookId := id + 1;
      sent := Emit(sent, Reply(201, BookCreated(id, book)));
    } else {
      sent := Emit(sent, GlobalErrorHandler(ServerErrorException("Error creating book")));
    }
    reply := sent.value;
  }

  // ---------------------------------------------------------------- updateBook

  /** `if (x) updateData.x = x`: only non-empty values are set. */
  function Truthy(v: Option<string>): Option<string>
  {
    if v.Some? && v.value != "" then v else None
  }

  /** The book after `update({ data: updateData })`: the owner is not part of the data. */
  function Changed(book: Book, body: Form): Book
  {
    Book(Truthy(body.title).GetOr(book.title), Truthy(body.author).GetOr(book.author), book.userId)
  }

  /** `!currentUserId || book.userId !== currentUserId`, with `currentUserId = req.user?.id`. */
  predicate NotOwner(user: Option<Claims>, book: Book)
  {
    user.None? || user.value.id == 0 || book.userId != user.value.id
  }

  /**
   * `updateBook`, as the client and the database see it. It never reads the
   * validation results. A caller who is not the owner is answered 401, but
   * the update is still written.
   */
  function UpdateBookResult(id: Option<int>, body: Form, user: Option<Claims>, t: Tables, storeFails: bool): (r: Outcome)
    requires WellFormed(t)
    ensures WellFormed(r.tables)
    ensures r.tables.users == t.users && r.tables.reviews == t.reviews
    ensures r.tables.books.Keys == t.books.Keys
    ensures forall b | b in t.books :: r.tables.books[b].userId == t.books[b].userId
    ensures forall b | b in t.books && Some(b) != id :: r.tables.books[b] == t.books[b]
    ensures r.reply.status == 200 ==> id.Some? && id.value in t.books && !NotOwner(user, t.books[id.value])
    ensures !Present(id) ==>
              r == Outcome(GlobalErrorHandler(ValidationException(Text("Book ID is required"))), t)
    ensures Present(id) && Truthy(body.title).None? && Truthy(body.author).None? ==>
              r == Outcome(GlobalErrorHandler(ValidationException(Text("No new data provided to update the book."))), t)
    ensures Present(id) && (Truthy(body.title).Some? || Truthy(body.author).Some?) && id.value !in t.books ==>
              r.reply.status == 404 && r.tables == t
    ensures Present(id) && id.value in t.books && NotOwner(user, t.books[id.value])
            && (Truthy(body.title).Some? || Truthy(body.author).Some?) && !storeFails ==>
              r.reply.status == 401 && r.tables.books[id.value] == Changed(t.books[id.value], body)
    ensures Present(id) && id.value in t.books && !NotOwner(user, t.books[id.value])
            && (Truthy(body.title).Some? || Truthy(body.author).Some?) && !storeFails ==>
              && r.reply.status == 200
              && r.tables.books == t.books[id.value := Changed(t.books[id.value], body)]
    ensures Present(id) && id.value in t.books && (Truthy(body.title).Some? || Truthy(body.author).Some?) && storeFails ==>
              r.reply.status != 200 && r.tables == t
  {
    if !Present(id) then Outcome(GlobalErrorHandler(ValidationException(Text("Book ID is required"))), t)
    else if Truthy(body.title).None? && Truthy(body.author).None? then
      Outcome(GlobalErrorHandler(ValidationException(Text("No new data provided to update the book."))), t)
    else if id.value !in t.books then Outcome(GlobalErrorHandler(NotFoundException("Book not found.")), t)
    else
      var book := t.books[id.value];
      var after := Changed(book, body);
      var tables := if storeFails then t else t.(books := t.books[id.value := after]);
      var reply :=
        if NotOwner(user, book) then GlobalErrorHandler(UnauthorizedException("You are not authorized to update this book."))
        else if storeFails then GlobalErrorHandler(ServerErrorException("Error updating book"))
        else Reply(200, BookUpdated("Book updated successfully", id.value, after.title, after.author));
      Outcome(reply, tables)
  }

  method UpdateBook(db: Store, req: Request, storeFails: bool) returns (reply: Reply)
    requires db.Valid()
    modifies db`books
    ensures db.Valid()
    ensures Outcome(reply, db.Snapshot())
         == UpdateBookResult(req.incoming.id, req.incoming.body, req.user, old(db.Snapshot()), storeFails)
  {
    var sent: Option<Reply> := None;
    var bookId := req.incoming.id;
    var title, author := req.incoming.body.title, req.incoming.body.author;
    if !Present(bookId) {
      sent := Emit(sent, GlobalErrorHandler(ValidationException(Text("Book ID is required"))));
    }
    var newTitle, newAuthor := Truthy(title), Truthy(author);
    if newTitle.Some? || newAuthor.Some? {
      if bookId.None? {
        // findUnique rejects NaN as an id: the catch block answers
        sent := Emit(sent, GlobalErrorHandler(ServerErrorException("Error updating book")));
      } else if bookId.value !in db.books {
        sent := Emit(sent, GlobalErrorHandler(NotFoundException("Book not found.")));
        // reading `book.userId` of null throws: the catch block answers
        sent := Emit(sent, GlobalErrorHandler(ServerErrorException("Error updating book")));
      } else {
        var book := db.books[bookId.value];
        if NotOwner(req.user, book) {
          sent := Emit(sent, GlobalErrorHandler(UnauthorizedException("You are not authorized to update this book.")));
        }
        if storeFails {
          sent := Emit(sent, GlobalErrorHandler(ServerErrorException("Error updating book")));
        } else {
          var after := Book(newTitle.GetOr(book.title), newAuthor.GetOr(book.author), book.userId);
          db.books := db.books[bookId.value := after];
          sent := Emit(sent, Reply(200, BookUpdated("Book updated successfully", bookId.value, after.title, after.author)));
        }
      }
    } else {
      sent := Emit(sent, GlobalErrorHandler(ValidationException(Text("No new data provided to update the book."))));
    }
    reply := sent.value;
  }

  // ---------------------------------------------------------------- deleteBook

  /**
   * `deleteBook`, as the client and the database see it. A caller who is not
   * the owner is answered 401, but the book is still deleted.
   */
  function DeleteBookResult(id: Option<int>, userId: Option<int>, t: Tables, storeFails: bool): (r: Outcome)
    requires WellFormed(t)
    ensures WellFormed(r.tables)
    ensures r.tables.users == t.users && r.tables.reviews == t.reviews
    ensures r.tables.books.Keys <= t.books.Keys
    ensures forall b | b in t.books && Some(b) != id :: b in r.tables.books && r.tables.books[b] == t.books[b]
    ensures r.reply.status == 200 ==> id.Some? && id.value in t.books && Some(t.books[id.value].userId) == userId
    ensures !Present(id) ==>
              r == Outcome(GlobalErrorHandler(ValidationException(Text("Book ID is required"))), t)
    ensures Present(id) && id.value !in t.books ==> r.reply.status == 404 && r.tables == t
    ensures Present(id) && id.value in t.books && Some(t.books[id.value].userId) != userId && !storeFails ==>
              r.reply.status == 401 && id.value !in r.tables.books
    ensures Present(id) && id.value in t.books && Some(t.books[id.value].userId) == userId && !storeFails ==>
              r.reply.status == 200 && r.tables.books == t.books - {id.value}
    ensures Present(id) && id.value in t.books && storeFails ==> r.reply.status != 200 && r.tables == t
  {
    if !Present(id) then Outcome(GlobalErrorHandler(ValidationException(Text("Book ID is required"))), t)
    else if id.value !in t.books then Outcome(GlobalErrorHandler(NotFoundException("Book not found.")), t)
    else
      var tables := if storeFails then t else t.(books := t.books - {id.value});
      var reply :=
        if Some(t.books[id.value].userId) != userId then
          GlobalErrorHandler(UnauthorizedException("You are not authorized to delete this book."))
        else if storeFails then GlobalErrorHandler(ServerErrorException("Error deleting book."))
        else Reply(200, Message("Book deleted successfully."));
      Outcome(reply, tables)
  }

  method DeleteBook(db: Store, req: Request, storeFails: bool) returns (reply: Reply)
    requires db.Valid()
    modifies db`books
    ensures db.Valid()
    ensures Outcome(reply, db.Snapshot()) == DeleteBookResult(req.incoming.id, req.userId, old(db.Snapshot()), storeFails)
  {
    var sent: Option<Reply> := None;
    var bookId := req.incoming.id;
    if !Present(bookId) {
      sent := Emit(sent, GlobalErrorHandler(ValidationException(Text("Book ID is required"))));
    }
    var userId := req.userId;
    if bookId.None? {
      // findUnique rejects NaN as an id: the catch block answers
      sent := Emit(sent, GlobalErrorHandler(ServerErrorException("Error deleting book.")));
    } else if bookId.value !in db.books {
      sent := Emit(sent, GlobalErrorHandler(NotFoundException("Book not found.")));
      // reading `book.userId` of null throws: the catch block answers
      sent := Emit(sent, GlobalErrorHandler(ServerErrorException("Error deleting book.")));
    } else {
      var book := db.books[bookId.value];
      if Some(book.userId) != userId {
        sent := Emit(sent, GlobalErrorHandler(UnauthorizedException("You are not authorized to delete this book.")));
      }
      if storeFails {
        sent := Emit(sent, GlobalErrorHandler(ServerErrorException("Error deleting book.")));
      } else {
        db.books := db.books - {bookId.value};
        sent := Emit(sent, Reply(200, Message("Book deleted successfully.")));
      }
    }
    reply := sent.value;
  }
}
