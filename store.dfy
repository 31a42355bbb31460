/**
 * The persistence layer (a Prisma client over a relational database), reduced
 * to three tables keyed by auto-incremented positive ids.
 */
module Db {
  import opened Wrappers

  /** A user row; `password` holds the bcrypt hash, `roles` the names of the connected roles. */
  datatype User = User(username: string, email: string, password: string, roles: seq<string>)

  /** A book row; `userId` is the owner. */
  datatype Book = Book(title: string, author: string, userId: int)

  /** A review row; `userId` is the author. */
  datatype Review = Review(title: string, content: string, rating: int, bookId: int, userId: int)

  /** The contents of the database at one moment. */
  datatype Tables = Tables(
    users: map<int, User>,
    books: map<int, Book>,
    reviews: map<int, Review>,
    nextUserId: int,
    nextBookId: int,
    nextReviewId: int)

  /**
   * What the database guarantees of its contents: ids are positive and below
   * the next id to be handed out; emails and usernames are unique.
   */
  ghost predicate WellFormed(t: Tables)
  {
    && 0 < t.nextUserId && 0 < t.nextBookId && 0 < t.nextReviewId
    && (forall id | id in t.users :: 0 < id < t.nextUserId)
    && (forall id | id in t.books :: 0 < id < t.nextBookId)
    && (forall id | id in t.reviews :: 0 < id < t.nextReviewId)
    && (forall i, j | i in t.users && j in t.users && i != j ::
          t.users[i].email != t.users[j].email && t.users[i].username != t.users[j].username)
  }

  /** Some user other than `except` already has this email or this username (Prisma's P2002). */
  predicate Taken(users: map<int, User>, username: string, email: string, except: Option<int>)
  {
    exists id | id in users :: Some(id) != except && (users[id].email == email || users[id].username == username)
  }

  /** `findUnique({ where: { email } })`: the id of the user with this email, if any. */
  ghost function UserWithEmail(t: Tables, email: string): (r: Option<int>)
    requires WellFormed(t)
    ensures r.None? <==> forall id | id in t.users :: t.users[id].email != email
    ensures r.Some? ==> r.value in t.users && t.users[r.value].email == email
  {
    if exists id | id in t.users :: t.users[id].email == email then
      var id :| id in t.users && t.users[id].email == email; Some(id)
    else None
  }

  /** The database connection, whose tables the controllers change in place. */
  class Store {
    var users: map<int, User>
    var books: map<int, Book>
    var reviews: map<int, Review>
    var nextUserId: int
    var nextBookId: int
    var nextReviewId: int

    function Snapshot(): Tables
      reads this
    {
      Tables(users, books, reviews, nextUserId, nextBookId, nextReviewId)
    }

    ghost predicate Valid()
      reads this
    {
      WellFormed(Snapshot())
    }

    constructor ()
      ensures Valid()
      ensures Snapshot() == Tables(map[], map[], map[], 1, 1, 1)
    {
      users, books, reviews := map[], map[], map[];
      nextUserId, nextBookId, nextReviewId := 1, 1, 1;
    }
  }
}
