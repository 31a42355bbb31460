# Book-review API: the request-authorisation pipeline

This project models the part of the Express book-review API that decides what
happens to a request. It covers:

- the two bearer-token gates (`authenticateToken`, `authUserService`) and the
  role gate (`requireRole`);
- token issue (`generateToken`);
- the middleware chains of the five routers and the prefixes `app.js` mounts
  them under;
- the book, review, admin, profile and auth handlers, over an in-memory store
  of users, books and reviews;
- `globalErrorHandler` and the exception classes it renders;
- the four validator rule lists.

How the model is built:

- **Requests and the store are objects.** A request is a `Requests.Request`
  object. Its `incoming` part (header, parsed id, page, limit, body) never
  changes. The gates write its `user`, `userId` and validation results. The
  database is a `Db.Store` object whose tables the handler methods change in
  place. `Db.WellFormed` is what the database guarantees: positive ids below
  the next id, and unique emails and usernames.
- **The first response wins.** Many handlers call `next(err)` and keep
  running. The client then sees the first response sent, and any later
  database write still happens. Each handler method mirrors its source line by
  line and keeps the first reply with `Http.Emit`. Beside each method is a pure
  decision table (`…Result`) that states which reply the client sees and what
  the tables become. The method's `ensures` is equality with that table, and
  the properties are proved about the tables.
- **The pipeline is a loop over gates.** `App.Serve` runs a route's gates on
  the request object one after the other, stops at the first that answers,
  then dispatches the handler. It is proved equal to the pure
  `App.ServeSpec`, and the pipeline lemmas are stated over `ServeSpec`.
- **Libraries are parameters.** jsonwebtoken (`Jwt.Codec`), bcrypt
  (`AuthController.Crypt`), express-validator's `isEmail`/`isInt`
  (`Validation.Checks`) and the database's title order (`App.Services`) are
  passed in as functions. What the application relies on from them is
  written as predicates: `Jwt.Lawful` (the signed-token round trip with its
  expiry, rejection under another secret, no spaces in a token) and
  `AuthController.Sound` (a password matches its own hash) and
  `App.ListsEveryBook` (the title-ordered listing holds every stored book,
  once). The lemmas that need these take them as `requires`.
- **Store failures are an input.** `storeFails` stands for a query the
  database rejects for a reason the model does not track (a connection
  error, a foreign-key restriction, a missing `Member` role row).

## How the code differs from its description

The model follows the code in each of these cases:

- A caller who does not own a book gets 401 from `updateBook` or
  `deleteBook`, not 403. The handler does not return after that, so the
  update or delete is still written. `App.NonOwnerStillDeletesABook` states
  this.
- A caller who does not own a review gets 500, not 403, from `deleteReview`.
  `UnauthorizedException` is not imported there, so building it throws. The
  review stays (`ReviewController.DeleteReviewResult`).
- An unknown user id on `DELETE /api/admin/user/:id` is answered 404. The
  500 that follows it is never seen by the client.
- `ValidationException` always carries the message "Validation failed". The
  text passed to it becomes `validationErrors`, as a string.
- The review validator's messages say 100 and 1000, but the bounds it checks
  are 50 and 500.

## When the secret is read

`authenticateToken` and `generateToken` read `JWT_SECRET` once, when their
modules are imported. ES module imports run before the body of `app.js`, so
this happens before `dotenv.config()` on line 17. `authUserService` reads the
variable on every request, after that call. `Jwt.Env` therefore holds two
readings, and `Jwt.OneSecret` says they give the same secret. That holds when
the variable is set before the process starts, or not at all.

- When they agree, the two gates pass the same tokens
  (`TwoGates.SameRequestsPass`). The lemmas about chains that run both gates
  require this.
- When the secret comes only from `.env`, they differ
  (`Jwt.DotenvOnlySecret`). A freshly issued token then passes
  `authenticateToken` but gets 401 from `authUserService`, on every route
  that runs both gates (`App.SplitSecretLocksOut`).

## Model

| member | source | states |
|---|---|---|
| Text.Split | server/app/middleware/authToken.js:7 | `split(" ")` gives at least one piece, and no piece contains a space |
| Text.JoinSplit | server/app/middleware/authToken.js:7 | joining the pieces of `split(" ")` with spaces gives back the header |
| Text.SplitJoin | server/app/middleware/authToken.js:7 | splitting space-joined non-empty words gives back the words |
| Text.SplitCount | server/app/middleware/authToken.js:7 | `split(" ")` has a second piece exactly when the header contains a space |
| Text.SecondWord | server/app/middleware/authToken.js:7 | `split(" ")[1]` is undefined exactly when there is no space, and never contains a space |
| Text.SecondWordOf | server/app/middleware/authToken.js:7 | the second word of `scheme + " " + token` is the token |
| Jwt.Secret | server/app/middleware/authToken.js:3 | `JWT_SECRET || "some_secret_key"`: the setting when it is set and non-empty, else the fallback; never empty |
| Jwt.DotenvOnlySecret | server/app/app.js:17 | a secret that only `dotenv.config()` supplies makes the secret read at import differ from the one read per request |
| Jwt.Verify | server/app/middleware/authToken.js:14 | under a lawful library the empty token never verifies |
| Db.UserWithEmail | server/app/controllers/authController.js:61-66 | `findUnique({ where: { email } })` finds the one user with that email, or none exists |
| Errors.GlobalErrorHandler | server/app/middleware/globalErrorHandler.js:1-10 | status is `statusCode`, or 500 when it is missing or 0; the message passes unchanged; `err.errors` is forwarded unchanged, except that a missing one or the empty string becomes [] |
| Errors.ExceptionReplies | server/app/errors/validationException.js:3-8 | each exception class renders with its status (401, 404, 400, 500, 400) and its message or default |
| AuthToken.TokenOf | server/app/middleware/authToken.js:6-7 | no header gives no token; an empty header gives the empty token; otherwise the token is the second word |
| AuthToken.Check | server/app/middleware/authToken.js:10-20 | 401 "No token provided" exactly without a token, 403 "Invalid token" exactly when it does not verify, else the decoded claims |
| AuthToken.AuthenticateToken | server/app/middleware/authToken.js:5-21 | on success sets `req.user` to the claims and calls `next`; on failure answers and leaves `req.user` alone |
| AuthToken.SchemeIgnored | server/app/middleware/authToken.js:7-19 | the scheme word is never checked: any first word before the same token gives the same verdict |
| AuthUserService.TokenOf | server/app/services/authUserService.js:5 | the token is the second word of the header, and is absent without a header or a space |
| AuthUserService.Check | server/app/services/authUserService.js:5-17 | any failure is 401 "Token is not valid"; success gives the decoded `id` |
| AuthUserService.AuthUserService | server/app/services/authUserService.js:4-18 | on success sets only `req.userId` and calls `next`; on failure answers 401 |
| TwoGates.SameRequestsPass | server/app/services/authUserService.js:5-13 | under a lawful library, and when the secret read per request is the one read at import, both gates pass the same headers, and the id one attaches is the id in the other's claims |
| TwoGates.FailureStatuses | server/app/services/authUserService.js:14-17 | with no header both gates answer 401; a token that does not verify gets 403 from `authenticateToken` and 401 from `authUserService` |
| RoleCheck.RequireRole | server/app/middleware/roleCheck.js:1-15 | no user gives 401; `next` exactly when the role is among the user's roles; otherwise 403 "Requires <role> role" |
| RoleCheck.OnlyRoleSetMatters | server/app/middleware/roleCheck.js:9 | the role decision depends only on the set of role names, not their order, duplicates or the id |
| TokenService.RoundTrip | server/app/services/tokenService.js:8-15 | under the secret it was signed with, a token decodes to exactly `{id, roles}` for 7 days after issue, and not afterwards |
| TokenService.OtherSecretRejects | server/app/services/tokenService.js:5-14 | a token does not verify under any other secret |
| TokenService.FreshTokenPassesBothGates | server/app/services/tokenService.js:8-15 | a fresh token after any scheme word passes `authenticateToken` with `{id, roles}`, and, when the two secrets agree, `authUserService` with `id` |
| TokenService.GenerateToken | server/app/services/tokenService.js:8-15 | under a lawful library the token is one non-empty word that decodes, under the secret read at import, to `{id, roles}` |
| TokenService.SplitSecretLocksOut | server/app/services/authUserService.js:8-11 | when the two secrets differ, a fresh token passes `authenticateToken` and gets 401 from `authUserService` |
| Validation.Failures | server/app/controllers/bookController.js:102-105 | the reported messages are none exactly when every rule holds; every failing rule's message is reported, and every reported message is a failing rule's |
| Validation.FailuresInOrder | server/app/controllers/bookController.js:104 | the messages of two rule lists in a row are those of the first, then those of the second |
| Validation.FailuresOfOne | server/app/controllers/bookController.js:104 | one rule reports its message exactly when it fails |
| RegisterValidator.Errors | server/app/validators/registerValidator.js:3-33 | no errors exactly when username is 4–12 long, email is non-empty and valid, password is 4–12 long with an ASCII letter, and confirmPassword is present and equal |
| CreateReviewValidator.Errors | server/app/validators/createReviewValidator.js:3-28 | no errors exactly when title is 1–50 long, content is 10–500 long, rating is an integer in 1–5, and bookId is an integer |
| CreateBookValidator.Errors | server/app/validators/createBookValidator.js:3-17 | no errors exactly when title is 1–100 long and author is 2–50 long |
| UpdateUserValidator.Errors | server/app/validators/updateUserValidator.js:3-17 | no errors exactly when username is 4–12 long and email is non-empty and valid |
| UpdateUserValidator.RegistrationFormPasses | server/app/validators/updateUserValidator.js:4-16 | a form the registration rules accept passes the profile rules too (same bounds) |
| BookController.Normalize | server/app/controllers/bookController.js:11-19 | paging is accepted exactly when neither parameter is negative; page defaults to 1 and limit to 8 when missing, non-numeric or 0; limit is clamped to 15; a negative page, then a negative limit, is rejected with its message |
| BookController.TotalPages | server/app/controllers/bookController.js:41 | `ceil(total/limit)`: the pages hold every book, and the last page is not empty |
| BookController.GetAllBooks | server/app/controllers/bookController.js:10-55 | rejected paging gives 400; otherwise 200 with the window of `limit` books starting at `(page - 1) * limit`, the total count, `ceil(total / limit)` pages, and the page and limit used |
| BookController.EveryBookOnItsPage | server/app/controllers/bookController.js:20-41 | book k of the listing is served at position k mod limit of page k div limit + 1, within `totalPages` |
| BookController.GetBook | server/app/controllers/bookController.js:57-99 | a missing or 0 id gives 400; an unknown id gives 404 "Book not found."; 200 exactly for an existing book, with the book and exactly its reviews |
| BookController.ReviewsOf | server/app/controllers/bookController.js:74-86 | the included reviews are exactly the stored reviews of that book |
| BookController.CreateBookResult | server/app/controllers/bookController.js:101-123 | a book is inserted exactly when title and author are present and `req.userId` is an existing user, under the next id and owned by that user, even when a validation failure answers 400; 201 exactly when inserted without validation errors |
| BookController.CreateBook | server/app/controllers/bookController.js:101-123 | the handler's reply and new tables are those of `CreateBookResult` |
| BookController.UpdateBookResult | server/app/controllers/bookController.js:125-185 | a missing id or an empty update set gives 400 and no change; an unknown id gives 404; the owner gets 200 and the new title or author; a non-owner gets 401 and the update is still written; owners never change |
| BookController.UpdateBook | server/app/controllers/bookController.js:125-185 | the handler's reply and new tables are those of `UpdateBookResult` |
| BookController.DeleteBookResult | server/app/controllers/bookController.js:187-224 | a missing id gives 400 and an unknown id 404, with no change; the owner gets 200 and the book is gone; a non-owner gets 401 and the book is still deleted; only the named book can go |
| BookController.DeleteBook | server/app/controllers/bookController.js:187-224 | the handler's reply and new tables are those of `DeleteBookResult` |
| ReviewController.CreateReviewResult | server/app/controllers/reviewController.js:9-36 | a validation failure returns 400 with no insert; 201 exactly when a review with the body's title, content, rating and book and the caller as author is inserted under the next id |
| ReviewController.CreateReview | server/app/controllers/reviewController.js:9-36 | the handler's reply and new tables are those of `CreateReviewResult` |
| ReviewController.DeleteReviewResult | server/app/controllers/reviewController.js:38-69 | a missing or 0 id gives exactly the 400 `Review ID is required` reply with no change; an unknown id gives the 404 `Review not found` reply; 200 `Review deleted successfully` and removal exactly when the id names a review of the caller and the store accepts; a non-owner or a store failure gets the 500 `Error deleting review` reply and nothing is deleted |
| ReviewController.DeleteReview | server/app/controllers/reviewController.js:38-69 | the handler's reply and new tables are those of `DeleteReviewResult` |
| AdminController.ListUsers | server/app/controllers/adminController.js:8-30 | 200 with exactly the users other than the caller, each as username, email and roles, never the password |
| AdminController.DeleteUserResult | server/app/controllers/adminController.js:32-52 | a missing or 0 id gives the 400 `User ID is required` reply; an unknown id gives the 404 `User with email not found` reply; a store failure gives the 500 `Error fetching users` reply; 200 exactly when that one user is removed, and the 200 body returns the deleted record with its id, username, email and password hash |
| AdminController.DeleteUser | server/app/controllers/adminController.js:32-52 | the handler's reply and new tables are those of `DeleteUserResult` |
| UserController.GetUserProfile | server/app/controllers/userController.js:10-30 | 200 with the caller's username and email exactly when the caller exists; 404 for an unknown caller; 500 without one |
| UserController.UpdateUserProfileResult | server/app/controllers/userController.js:32-58 | a validation failure returns 400 with no write; only the caller's username and email change, password and roles are kept; no caller, an unknown caller, a store failure or a clash with another user gives exactly the 500 `Error updating user profile.` reply and changes nothing; a 200 body is `Profile updated successfully` with the new username and email |
| UserController.UpdateUserProfile | server/app/controllers/userController.js:32-58 | the handler's reply and new tables are those of `UpdateUserProfileResult` |
| AuthController.RegisterUserResult | server/app/controllers/authController.js:12-54 | a new user has the hashed password and exactly the `Member` role; a complete free form gives 201 with a fresh token and the roles; a taken email or username gives 400; a store failure or a missing field gives the 500 `Error registering user.` reply; a validation failure answers 400 yet the insert still runs |
| AuthController.RegisterUser | server/app/controllers/authController.js:12-54 | the handler's reply and new tables are those of `RegisterUserResult` |
| AuthController.LoginUserResult | server/app/controllers/authController.js:56-89 | 200 with a token and the roles exactly for a known email with a matching password; unknown email gives 404 and wrong password 400, with the same message |
| AuthController.LoginUser | server/app/controllers/authController.js:56-89 | the handler's reply is that of `LoginUserResult` |
| AuthController.RegisterThenLogin | server/app/controllers/authController.js:22-44 | after a registration, logging in with the same email and password answers 200 with `Member`, and both tokens carry the new id |
| App.Mounted | server/app/app.js:28-32 | the endpoints under a prefix are exactly that router's routes |
| App.Resolve | server/app/app.js:28-32 | finds an endpoint with the request's verb, prefix and path, or reports that none matches |
| App.Dispatch | server/app/app.js:28-32 | a request with no matching endpoint gets no answer and changes nothing; otherwise it is served on the endpoint `Resolve` finds, as `ServeSpec` says |
| App.TableShape | server/app/app.js:28-32 | a request matches at most one endpoint; every chain but the four public ones starts with `authenticateToken`, and the public ones only validate |
| App.BookRoutesWellShaped | server/app/routes/bookRoutes.js:83-317 | the book routes are unambiguous, and only the two GETs are public |
| App.ReviewRoutesWellShaped | server/app/routes/reviewRoutes.js:64-106 | both review routes start with `authenticateToken` |
| App.AdminRoutesWellShaped | server/app/routes/adminRoutes.js:51-103 | both admin routes start with `authenticateToken` |
| App.UserRoutesWellShaped | server/app/routes/userRoutes.js:39-98 | both profile routes start with `authenticateToken` |
| App.AuthRoutesWellShaped | server/app/routes/authRoutes.js:48-83 | register and login have no token gate; register only validates |
| App.GateStep | server/app/routes/bookRoutes.js:210-216 | a validator only appends its messages; only `authenticateToken` sets the user, and only validators add errors |
| App.RunGates | server/app/routes/bookRoutes.js:210-216 | a chain answers only through a gate that is not a validator; passing, it keeps the earlier messages as a prefix, and changes the user or the user id only if the matching gate is in it |
| App.ThreeGates | server/app/routes/adminRoutes.js:51-57 | a chain of three gates whose first two pass ends as its third gate does |
| App.HandleSpec | server/app/app.js:28-34 | every handler keeps the store well formed and never changes an owner; only `deleteReview` removes reviews |
| App.ServeSpec | server/app/app.js:28-34 | a request is answered by the first gate that answers, or by its handler; the store stays well formed |
| App.ApplyGate | server/app/routes/bookRoutes.js:210-216 | running one middleware on the request object does what `GateStep` says |
| App.Handle | server/app/app.js:28-34 | running the handler on the request and the store does what `HandleSpec` says |
| App.Serve | server/app/app.js:28-34 | serving a fresh request gives the reply and tables of `ServeSpec` |
| App.ValidationNeverAnswers | server/app/routes/authRoutes.js:48 | a chain of validators always calls `next` and leaves the user and user id alone |
| App.RefusedAtTheDoor | server/app/middleware/authToken.js:10-17 | a chain starting with `authenticateToken` stops with that gate's 401 or 403 when the token is refused |
| App.ProtectedEndpoints | server/app/routes/bookRoutes.js:210-216 | on every non-public endpoint a missing or bad token gives 401 or 403, whatever the body, and the store is untouched |
| App.AdminOnly | server/app/routes/adminRoutes.js:51-103 | a valid token without `Admin` gets 403 "Requires Admin role" on both admin endpoints, and nothing changes |
| App.OwnersNeverChange | server/app/controllers/bookController.js:134-137 | whatever the request, a book or review still present keeps its owner |
| App.OnlyTheAuthorRemovesAReview | server/app/controllers/reviewController.js:55-65 | a review disappears only in a 200 answer to a caller whose token carries the author's id |
| App.NonOwnerStillDeletesABook | server/app/controllers/bookController.js:203-218 | `DELETE /api/books/:id` by a non-owner answers 401 and still deletes the book |
| App.UpdateIgnoresValidation | server/app/routes/bookRoutes.js:287-293 | past the token gates, `PUT /api/books/:id` gives the result of `updateBook` alone; the validators' verdict plays no part |
| App.AdminListExcludesCaller | server/app/routes/adminRoutes.js:51-57 | an `Admin` token gets 200 with every user but the token's own id |
| App.RegisterAlwaysReachesHandler | server/app/routes/authRoutes.js:48 | registration always reaches `registerUser`, which receives the validators' messages |
| App.EveryStoredBookIsListed | server/app/controllers/bookController.js:20-41 | given a listing of every stored book, each stored book is on some announced page of `GET /api/books`, for any accepted limit, and the count is the number of stored books |
| App.ListedBooksAreStored | server/app/controllers/bookController.js:23-40 | given a listing of every stored book, a 200 from `GET /api/books` shows only stored books and counts all of them |
| App.SplitSecretLocksOut | server/app/services/authUserService.js:8-11 | when the two secrets differ, every chain that runs `authUserService` after `authenticateToken` answers a fresh token 401 "Token is not valid" and changes nothing |
| Http.FirstResponseWins | server/app/controllers/bookController.js:187-224 | however many responses a handler goes on to send, the client sees the first one |

## Left out

- HTTP transport, Express path matching beyond verb, prefix and path, CORS,
  logging and Swagger. A request that matches no route is answered by
  Express's own 404; `App.Dispatch` returns no reply for it.
- Express after a response has been sent: later `next(err)` calls and a
  throwing `res.json` are modelled only as "the first response wins".
- async/await: each request is one sequential step, and no two requests
  interleave. This leaves out the window between an ownership check and the
  write.
- jsonwebtoken and bcrypt internals: signatures, the `iat`/`exp` claims, the
  clock and the salt are abstract. The token payload is the claims `{id, roles}`
  alone. The bcrypt salt is folded into the abstract `hash`.
- express-validator internals: `isEmail` and `isInt` are abstract, a missing
  field reads as "", and no values are coerced. Rule lengths count
  characters as Dafny sees them, not UTF-16 code units.
- Prisma: the `select`/`include` projections are not modelled. A book page
  lists book ids, and a book's details list its reviews without usernames.
  The title-ordered listing is an abstract function of the books table, and
  `count` is its length. The lemmas rely only on `App.ListsEveryBook`; the
  order itself, the database's collation, is not modelled. Whether deleting a
  user cascades to their books and reviews is not known; a successful delete
  here removes only the user row, and any rejection is `storeFails`.
- BookController.DeleteBookResult, App.HandleSpec and App.OnlyTheAuthorRemovesAReview:
  deletes of books and users are modelled without cascade, so a deleted
  book's reviews stay in the reviews table, and a restrict rejection by the
  database is one case of `storeFails`. The schema's referential actions are
  not part of this model; the lemma that only a review's author removes it,
  and `HandleSpec`'s promise that every other route keeps every review, hold
  under this choice only.
- `err.status` in the error body is not modelled. `server/app/errors/appError.js`
  is not part of this model: it is taken to store its second argument as
  `statusCode`.
- `server/app/models/userDto.js` is not part of this model: a profile is shown
  as its username and email.
- `server/prisma/seed.js` and process start-up (`app.listen`, `dotenv`) are
  left out.
- App.Serve: requires a fresh request (nothing attached yet), as Express
  gives each request a new object.
