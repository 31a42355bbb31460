/** The review handlers. Both return after a failed validation or a missing id. */
module ReviewController {
  import opened Wrappers
  import opened Db
  import opened Http
  import opened Errors
  import opened Requests

  /**
   * The row `prisma.review.create` can build from the body: the numeric
   * columns must arrive as JSON numbers, and both foreign keys must exist.
   */
  predicate Insertable(body: Form, userId: Option<int>, t: Tables)
  {
    && body.title.Some? && body.content.Some?
    && body.rating.Some? && body.rating.value.Num?
    && body.bookId.Some? && body.bookId.value.Num? && body.bookId.value.n in t.books
    && userId.Some? && userId.value in t.users
  }

  /** `createReview`: the author is the caller, `req.userId`. */
  function CreateReviewResult(errors: seq<string>, body: Form, userId: Option<int>, t: Tables, storeFails: bool): (r: Outcome)
    requires WellFormed(t)
    ensures WellFormed(r.tables)
    ensures r.tables.users == t.users && r.tables.books == t.books
    ensures t.reviews.Keys <= r.tables.reviews.Keys
    ensures forall id | id in t.reviews :: r.tables.reviews[id] == t.reviews[id]
    ensures forall id | id in r.tables.reviews && id !in t.reviews ::
              && Some(r.tables.reviews[id].userId) == userId
              && r.tables.reviews[id].bookId in t.books
    ensures r.reply.status == 201 <==> errors == [] && Insertable(body, userId, t) && !storeFails
    ensures r.reply.status != 201 ==> r.tables == t
    ensures r.reply.status == 201 ==>
              && r.tables.reviews == t.reviews[t.nextReviewId := Review(body.title.value, body.content.value,
                                                                       body.rating.value.n, body.bookId.value.n, userId.value)]
              && r.reply.body == ReviewCreated("Review created successfully", t.nextReviewId, r.tables.reviews[t.nextReviewId])
    ensures errors != [] ==> r.reply == GlobalErrorHandler(ValidationException(Messages(errors)))
  {
    if errors != [] then Outcome(GlobalErrorHandler(ValidationException(Messages(errors))), t)
    else if Insertable(body, userId, t) && !storeFails then
      var id := t.nextReviewId;
      var review := Review(body.title.value, body.content.value, body.rating.value.n, body.bookId.value.n, userId.value);
      Outcome(Reply(201, ReviewCreated("Review created successfully", id, review)),
              t.(reviews := t.reviews[id := review], nextReviewId := id + 1))
    else Outcome(GlobalErrorHandler(ServerErrorException("Error creating review")), t)
  }

  method CreateReview(db: Store, req: Request, storeFails: bool) returns (reply: Reply)
    requires db.Valid()
    modifies db`reviews, db`nextReviewId
    ensures db.Valid()
    ensures Outcome(reply, db.Snapshot())
         == CreateReviewResult(req.validationErrors, req.incoming.body, req.userId, old(db.Snapshot()), storeFails)
  {
    if req.validationErrors != [] {
      return GlobalErrorHandler(ValidationException(Messages(req.validationErrors)));
    }
    var body := req.incoming.body;
    var userId := req.userId;
    if Insertable(body, userId, db.Snapshot()) && !storeFails {
      var id := db.nextReviewId;
      var review := Review(body.title.value, body.content.value, body.rating.value.n, body.bookId.value.n, userId.value);
      db.reviews := db.reviews[id := review];
      db.nextReviewId := id + 1;
      reply := Reply(201, ReviewCreated("Review created successfully", id, review));
    } else {
      reply := GlobalErrorHandler(ServerErrorException("Error creating review"));
    }
  }

  /**
   * `deleteReview`. `UnauthorizedException` is not imported by the
   * controller, so the ownership check throws a `ReferenceError` and the
   * catch block answers 500; the review stays.
   */
  function DeleteReviewResult(id: Option<int>, userId: Option<int>, t: Tables, storeFails: bool): (r: Outcome)
    requires WellFormed(t)
    ensures WellFormed(r.tables)
    ensures r.tables.users == t.users && r.tables.books == t.books
    ensures r.tables.reviews.Keys <= t.reviews.Keys
    ensures forall v | v in t.reviews && Some(v) != id :: v in r.tables.reviews && r.tables.reviews[v] == t.reviews[v]
    ensures r.tables != t <==> r.reply.status == 200
    ensures r.reply.status == 200 <==>
              Present(id) && id.value in t.reviews && Some(t.reviews[id.value].userId) == userId && !storeFails
    ensures r.reply.status == 200 ==> id.value !in r.tables.reviews
    ensures !Present(id) ==> r == Outcome(GlobalErrorHandler(ValidationException(Text("Review ID is required"))), t)
    ensures Present(id) && id.value !in t.reviews ==> r.reply == GlobalErrorHandler(NotFoundException("Review not found"))
    ensures Present(id) && id.value in t.reviews && (Some(t.reviews[id.value].userId) != userId || storeFails) ==>
              r.reply == GlobalErrorHandler(ServerErrorException("Error deleting review"))
    ensures r.reply.status == 200 ==> r.reply.body == Message("Review deleted successfully")
  {
    if !Present(id) then Outcome(GlobalErrorHandler(ValidationException(Text("Review ID is required"))), t)
    else if id.value !in t.reviews then Outcome(GlobalErrorHandler(NotFoundException("Review not found")), t)
    else if Some(t.reviews[id.value].userId) != userId || storeFails then
      Outcome(GlobalErrorHandler(ServerErrorException("Error deleting review")), t)
    else Outcome(Reply(200, Message("Review deleted successfully")), t.(reviews := t.reviews - {id.value}))
  }

  method DeleteReview(db: Store, req: Request, storeFails: bool) returns (reply: Reply)
    requires db.Valid()
    modifies db`reviews
    ensures db.Valid()
    ensures Outcome(reply, db.Snapshot()) == DeleteReviewResult(req.incoming.id, req.userId, old(db.Snapshot()), storeFails)
  {
    var reviewId := req.incoming.id;
    if !Present(reviewId) {
      return GlobalErrorHandler(ValidationException(Text("Review ID is required")));
    }
    var userId := req.userId;
    if reviewId.value !in db.reviews {
      return GlobalErrorHandler(NotFoundException("Review not found"));
    }
    var review := db.reviews[reviewId.value];
    if Some(review.userId) != userId {
      // the ReferenceError raised here lands in the catch block
      return GlobalErrorHandler(ServerErrorException("Error deleting review"));
    }
    if storeFails {
      return GlobalErrorHandler(ServerErrorException("Error deleting review"));
    }
    db.reviews := db.reviews - {reviewId.value};
    reply := Reply(200, Message("Review deleted successfully"));
  }
}
