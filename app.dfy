/**
 * The application: the five routers mounted under their prefixes, each
 * request run through its route's middlewares in order and then through the
 * route's handler; an error a handler passes on is rendered by
 * `globalErrorHandler`.
 */
module App {
  import opened Wrappers
  import opened Jwt
  import opened Db
  import opened Http
  import opened Requests
  import opened Validation
  import opened Router
  import AuthToken
  import AuthUserService
  import TwoGates
  import RoleCheck
  import RegisterValidator
  import CreateReviewValidator
  import CreateBookValidator
  import UpdateUserValidator
  import BookController
  import ReviewController
  import AdminController
  import UserController
  import AuthController
  import TokenService
  import BookRoutes
  import ReviewRoutes
  import AdminRoutes
  import UserRoutes
  import AuthRoutes

  /**
   * What the process brings from outside: the token library and the
   * environment it reads, the validator library's tests, bcrypt, and the
   * order in which the database lists books by title.
   */
  datatype Services = Services(
    codec: Codec,
    env: Env,
    checks: Checks,
    crypt: AuthController.Crypt,
    titleOrder: map<int, Book> -> seq<int>)

  /**
   * What `findMany` ordered by title and `count()` are relied on for: the
   * listing holds every stored book and nothing else, each once. The order
   * itself (the database's collation) is not modelled.
   */
  ghost predicate ListsEveryBook(order: map<int, Book> -> seq<int>)
  {
    forall books: map<int, Book> :: |order(books)| == |books| && forall b :: b in order(books) <==> b in books
  }

  // ---------------------------------------------------------------- routing

  /** A route together with the prefix its router is mounted under. */
  datatype Endpoint = Endpoint(prefix: string, route: Route)

  /** `app.use(prefix, router)`: every route of the router under the prefix. */
  function Mounted(prefix: string, routes: seq<Route>): (es: seq<Endpoint>)
    ensures forall e :: e in es <==> e.prefix == prefix && e.route in routes
  {
    var es := seq(|routes|, i requires 0 <= i < |routes| => Endpoint(prefix, routes[i]));
    assert forall r | r in routes :: Endpoint(prefix, r) in es by {
      forall r | r in routes
        ensures Endpoint(prefix, r) in es
      {
        var i :| 0 <= i < |routes| && routes[i] == r;
        assert es[i] == Endpoint(prefix, r);
      }
    }
    es
  }

  /** The routers in the order `app.js` mounts them. */
  const Endpoints: seq<Endpoint> :=
    Mounted("/api/auth", AuthRoutes.Routes)
    + Mounted("/api/users", UserRoutes.Routes)
    + Mounted("/api/books", BookRoutes.Routes)
    + Mounted("/api/reviews", ReviewRoutes.Routes)
    + Mounted("/api/admin", AdminRoutes.Routes)

  /** The first endpoint registered for this verb, prefix and path. */
  function Resolve(endpoints: seq<Endpoint>, verb: Verb, prefix: string, path: string): (r: Option<Route>)
    ensures r.None? <==> forall e | e in endpoints :: !Matches(e, verb, prefix, path)
    ensures r.Some? ==> Endpoint(prefix, r.value) in endpoints && r.value.verb == verb && r.value.path == path
  {
    if endpoints == [] then None
    else if Matches(endpoints[0], verb, prefix, path) then Some(endpoints[0].route)
    else Resolve(endpoints[1..], verb, prefix, path)
  }

  predicate Matches(e: Endpoint, verb: Verb, prefix: string, path: string)
  {
    e.route.verb == verb && e.prefix == prefix && e.route.path == path
  }

  /** No two routes of a router share a verb and a path. */
  predicate Unambiguous(routes: seq<Route>)
  {
    forall i, j | 0 <= i < j < |routes| :: routes[i].verb != routes[j].verb || routes[i].path != routes[j].path
  }

  /** The handlers anyone may reach without a token. */
  predicate Public(h: Handler)
  {
    h == GetAllBooks || h == GetBook || h == RegisterUser || h == LoginUser
  }

  /** Every chain except the public ones starts with `authenticateToken`; the public ones only validate. */
  predicate Guarded(routes: seq<Route>)
  {
    forall r | r in routes ::
      if Public(r.handler) then forall g | g in r.gates :: g.Validate?
      else |r.gates| > 0 && r.gates[0] == AuthenticateToken
  }

  lemma AuthRoutesWellShaped()
    ensures Unambiguous(AuthRoutes.Routes) && Guarded(AuthRoutes.Routes)
  {
    var rs := AuthRoutes.Routes;
    assert rs[0].path != rs[1].path by { assert rs[0].path[1] != rs[1].path[1]; }
  }

  lemma UserRoutesWellShaped()
    ensures Unambiguous(UserRoutes.Routes) && Guarded(UserRoutes.Routes)
  {
  }

  lemma BookRoutesWellShaped()
    ensures Unambiguous(BookRoutes.Routes) && Guarded(BookRoutes.Routes)
  {
    var rs := BookRoutes.Routes;
    assert |rs[0].path| != |rs[1].path|;
  }

  lemma ReviewRoutesWellShaped()
    ensures Unambiguous(ReviewRoutes.Routes) && Guarded(ReviewRoutes.Routes)
  {
  }

  lemma AdminRoutesWellShaped()
    ensures Unambiguous(AdminRoutes.Routes) && Guarded(AdminRoutes.Routes)
  {
  }

  /** In an unambiguous router, a verb and a path pick one route. */
  lemma SameKeySameRoute(routes: seq<Route>, i: int, j: int)
    requires Unambiguous(routes)
    requires 0 <= i < |routes| && 0 <= j < |routes|
    requires routes[i].verb == routes[j].verb && routes[i].path == routes[j].path
    ensures i == j
  {
  }

  /**
   * The shape of the whole table: a request matches at most one endpoint, and
   * every chain except the four public ones starts with `authenticateToken`.
   */
  lemma TableShape()
    ensures forall e1, e2, verb, prefix, path | e1 in Endpoints && e2 in Endpoints
              && Matches(e1, verb, prefix, path) && Matches(e2, verb, prefix, path) :: e1 == e2
    ensures forall e | e in Endpoints && !Public(e.route.handler) ::
              |e.route.gates| > 0 && e.route.gates[0] == AuthenticateToken
    ensures forall e | e in Endpoints && Public(e.route.handler) :: forall g | g in e.route.gates :: g.Validate?
  {
    AuthRoutesWellShaped();
    UserRoutesWellShaped();
    BookRoutesWellShaped();
    ReviewRoutesWellShaped();
    AdminRoutesWellShaped();
    forall e1, e2, verb, prefix, path | e1 in Endpoints && e2 in Endpoints
      && Matches(e1, verb, prefix, path) && Matches(e2, verb, prefix, path)
      ensures e1 == e2
    {
      var routes := RouterOf(e1.prefix);
      assert e1.route in routes && e2.route in routes;
      var i :| 0 <= i < |routes| && routes[i] == e1.route;
      var j :| 0 <= j < |routes| && routes[j] == e2.route;
      assert Unambiguous(routes);
      SameKeySameRoute(routes, i, j);
    }
    forall e | e in Endpoints
      ensures Public(e.route.handler) ==> forall g | g in e.route.gates :: g.Validate?
      ensures !Public(e.route.handler) ==> |e.route.gates| > 0 && e.route.gates[0] == AuthenticateToken
    {
      assert e.route in RouterOf(e.prefix);
    }
  }

  /** The router mounted under a prefix. */
  function RouterOf(prefix: string): (routes: seq<Route>)
    ensures forall e | e in Endpoints && e.prefix == prefix :: e.route in routes
  {
    if prefix == "/api/auth" then AuthRoutes.Routes
    else if prefix == "/api/users" then UserRoutes.Routes
    else if prefix == "/api/books" then BookRoutes.Routes
    else if prefix == "/api/reviews" then ReviewRoutes.Routes
    else if prefix == "/api/admin" then AdminRoutes.Routes
    else []
  }

  // ---------------------------------------------------------------- middlewares

  function ValidationErrors(rules: RuleSet, body: Form, checks: Checks): seq<string>
  {
    match rules
    case UserValidationRules => RegisterValidator.Errors(body, checks)
    case CreateReviewValidationRules => CreateReviewValidator.Errors(body, checks)
    case CreateBookValidationRules => CreateBookValidator.Errors(body)
    case UpdateUserValidationRules => UpdateUserValidator.Errors(body, checks)
  }

  /** One middleware: it answers, or passes the request on with what it attached. */
  function GateStep(g: Gate, incoming: Incoming, ctx: Context, svc: Services): (v: Verdict<Context>)
    ensures g.Validate? ==> v == Pass(ctx.(errors := ctx.errors + ValidationErrors(g.rules, incoming.body, svc.checks)))
    ensures v.Pass? && !g.Validate? ==> v.value.errors == ctx.errors
    ensures v.Pass? && !g.AuthenticateToken? ==> v.value.user == ctx.user
    ensures v.Pass? && !g.AuthUserService? ==> v.value.userId == ctx.userId
  {
    match g
    case AuthenticateToken =>
      (match AuthToken.Check(incoming.authorization, svc.codec, svc.env)
       case Pass(claims) => Pass(ctx.(user := Some(claims)))
       case Halt(r) => Halt(r))
    case AuthUserService =>
      (match AuthUserService.Check(incoming.authorization, svc.codec, svc.env)
       case Pass(id) => Pass(ctx.(userId := Some(id)))
       case Halt(r) => Halt(r))
    case RequireRole(role) =>
      (match RoleCheck.RequireRole(role, ctx.user)
       case Next => Pass(ctx)
       case Respond(r) => Halt(r))
    case Validate(rules) =>
      Pass(ctx.(errors := ctx.errors + ValidationErrors(rules, incoming.body, svc.checks)))
  }

  /**
   * A chain of middlewares, each calling `next()` to hand on: the first answer
   * ends it. Only a gate other than a validator ever answers; validators only
   * add to the messages; the user and the user id are set only by their gates.
   */
  function RunGates(gates: seq<Gate>, incoming: Incoming, ctx: Context, svc: Services): (v: Verdict<Context>)
    ensures v.Halt? ==> exists i :: 0 <= i < |gates| && !gates[i].Validate?
    ensures v.Pass? ==> ctx.errors <= v.value.errors
    ensures v.Pass? && AuthenticateToken !in gates ==> v.value.user == ctx.user
    ensures v.Pass? && AuthUserService !in gates ==> v.value.userId == ctx.userId
  {
    if gates == [] then Pass(ctx)
    else
      match GateStep(gates[0], incoming, ctx, svc)
      case Halt(r) => Halt(r)
      case Pass(next) =>
        var rest := RunGates(gates[1..], incoming, next, svc);
        assert forall i | 0 <= i < |gates[1..]| :: gates[1..][i] == gates[i + 1];
        assert forall g | g in gates[1..] :: g in gates;
        rest
  }

  // ---------------------------------------------------------------- handlers

  /** A handler, as the client and the database see it. */
  ghost function HandleSpec(h: Handler, incoming: Incoming, ctx: Context, t: Tables, svc: Services, storeFails: bool): (r: Outcome)
    requires WellFormed(t)
    ensures WellFormed(r.tables)
    ensures KeepsOwners(t, r.tables)
    ensures h != DeleteReview ==> t.reviews.Keys <= r.tables.reviews.Keys
  {
    match h
    case GetAllBooks =>
      Outcome(BookController.GetAllBooks(incoming.page, incoming.limit, svc.titleOrder(t.books), storeFails), t)
    case GetBook => Outcome(BookController.GetBook(incoming.id, t, storeFails), t)
    case CreateBook => BookController.CreateBookResult(ctx.errors, incoming.body, ctx.userId, t, storeFails)
    case UpdateBook => BookController.UpdateBookResult(incoming.id, incoming.body, ctx.user, t, storeFails)
    case DeleteBook => BookController.DeleteBookResult(incoming.id, ctx.userId, t, storeFails)
    case CreateReview => ReviewController.CreateReviewResult(ctx.errors, incoming.body, ctx.userId, t, storeFails)
    case DeleteReview => ReviewController.DeleteReviewResult(incoming.id, ctx.userId, t, storeFails)
    case ListUsers => Outcome(AdminController.ListUsers(t.users, ctx.userId, storeFails), t)
    case DeleteUser => AdminController.DeleteUserResult(incoming.id, t, storeFails)
    case GetUserProfile => Outcome(UserController.GetUserProfile(t.users, ctx.userId, storeFails), t)
    case UpdateUserProfile => UserController.UpdateUserProfileResult(ctx.errors, incoming.body, ctx.userId, t, storeFails)
    case RegisterUser =>
      AuthController.RegisterUserResult(ctx.errors, incoming.body, t, svc.crypt, svc.codec, svc.env, storeFails)
    case LoginUser =>
      Outcome(AuthController.LoginUserResult(incoming.body, t, svc.crypt, svc.codec, svc.env, storeFails), t)
  }

  /** A book or review that is still there keeps the owner it had. */
  ghost predicate KeepsOwners(before: Tables, after: Tables)
  {
    && (forall b | b in before.books && b in after.books :: after.books[b].userId == before.books[b].userId)
    && (forall v | v in before.reviews && v in after.reviews :: after.reviews[v].userId == before.reviews[v].userId)
  }

  /** A request on a route: the middlewares, then, if none answered, the handler. */
  ghost function ServeSpec(route: Route, incoming: Incoming, t: Tables, svc: Services, storeFails: bool): (r: Outcome)
    requires WellFormed(t)
    ensures WellFormed(r.tables)
  {
    match RunGates(route.gates, incoming, Untouched, svc)
    case Halt(reply) => Outcome(reply, t)
    case Pass(ctx) => HandleSpec(route.handler, incoming, ctx, t, svc, storeFails)
  }

  /** One middleware run on the request object. */
  method ApplyGate(req: Request, g: Gate, svc: Services) returns (step: Step)
    modifies req
    ensures GateStep(g, req.incoming, old(req.Attached()), svc).Pass? ==>
              step == Next && req.Attached() == GateStep(g, req.incoming, old(req.Attached()), svc).value
    ensures GateStep(g, req.incoming, old(req.Attached()), svc).Halt? ==>
              step == Respond(GateStep(g, req.incoming, old(req.Attached()), svc).reply)
  {
    match g
    case AuthenticateToken =>
      step := AuthToken.AuthenticateToken(req, svc.codec, svc.env);
    case AuthUserService =>
      step := AuthUserService.AuthUserService(req, svc.codec, svc.env);
    case RequireRole(role) =>
      step := RoleCheck.RequireRole(role, req.user);
    case Validate(rules) =>
      req.validationErrors := req.validationErrors + ValidationErrors(rules, req.incoming.body, svc.checks);
      step := Next;
  }

  /** The handler run on the request object and the database. */
  method Handle(db: Store, req: Request, h: Handler, svc: Services, storeFails: bool) returns (reply: Reply)
    requires db.Valid()
    modifies db
    ensures db.Valid()
    ensures Outcome(reply, db.Snapshot()) == HandleSpec(h, req.incoming, req.Attached(), old(db.Snapshot()), svc, storeFails)
  {
    match h
    case GetAllBooks =>
      reply := BookController.GetAllBooks(req.incoming.page, req.incoming.limit, svc.titleOrder(db.books), storeFails);
    case GetBook =>
      reply := BookController.GetBook(req.incoming.id, db.Snapshot(), storeFails);
    case CreateBook =>
      reply := BookController.CreateBook(db, req, storeFails);
    case UpdateBook =>
      reply := BookController.UpdateBook(db, req, storeFails);
    case DeleteBook =>
      reply := BookController.DeleteBook(db, req, storeFails);
    case CreateReview =>
      reply := ReviewController.CreateReview(db, req, storeFails);
    case DeleteReview =>
      reply := ReviewController.DeleteReview(db, req, storeFails);
    case ListUsers =>
      reply := AdminController.ListUsers(db.users, req.userId, storeFails);
    case DeleteUser =>
      reply := AdminController.DeleteUser(db, req, storeFails);
    case GetUserProfile =>
      reply := UserController.GetUserProfile(db.users, req.userId, storeFails);
    case UpdateUserProfile =>
      reply := UserController.UpdateUserProfile(db, req, storeFails);
    case RegisterUser =>
      reply := AuthController.RegisterUser(db, req, svc.crypt, svc.codec, svc.env, storeFails);
    case LoginUser =>
      reply := AuthController.LoginUser(db, req, svc.crypt, svc.codec, svc.env, storeFails);
  }

  /**
   * Serving a fresh request on a route: each middleware in turn, stopping at
   * the first that answers, then the handler.
   */
  method Serve(db: Store, req: Request, route: Route, svc: Services, storeFails: bool) returns (reply: Reply)
    requires db.Valid()
    requires req.Attached() == Untouched
    modifies db, req
    ensures db.Valid()
    ensures Outcome(reply, db.Snapshot()) == ServeSpec(route, req.incoming, old(db.Snapshot()), svc, storeFails)
  {
    var i := 0;
    while i < |route.gates|
      invariant 0 <= i <= |route.gates|
      invariant RunGates(route.gates, req.incoming, Untouched, svc) == RunGates(route.gates[i..], req.incoming, req.Attached(), svc)
      invariant unchanged(db)
    {
      assert route.gates[i..][1..] == route.gates[i + 1..];
      var step := ApplyGate(req, route.gates[i], svc);
      if step.Respond? {
        return step.reply;
      }
      i := i + 1;
    }
    reply := Handle(db, req, route.handler, svc, storeFails);
  }

  /**
   * A request as the app receives it: the endpoint registered for its verb,
   * mount prefix and path, served as above; `None` when no route matches.
   */
  method Dispatch(db: Store, req: Request, verb: Verb, prefix: string, path: string, svc: Services, storeFails: bool)
    returns (reply: Option<Reply>)
    requires db.Valid()
    requires req.Attached() == Untouched
    modifies db, req
    ensures db.Valid()
    ensures reply.None? <==> forall e | e in Endpoints :: !Matches(e, verb, prefix, path)
    ensures reply.None? ==> db.Snapshot() == old(db.Snapshot())
    ensures reply.Some? ==>
              Outcome(reply.value, db.Snapshot())
              == ServeSpec(Resolve(Endpoints, verb, prefix, path).value, req.incoming, old(db.Snapshot()), svc, storeFails)
  {
    var found := Resolve(Endpoints, verb, prefix, path);
    if found.None? {
      return None;
    }
    var r := Serve(db, req, found.value, svc, storeFails);
    reply := Some(r);
  }

  // ---------------------------------------------------------------- properties of the pipeline

  lemma RunOne(g: Gate, incoming: Incoming, ctx: Context, svc: Services)
    ensures RunGates([g], incoming, ctx, svc) == GateStep(g, incoming, ctx, svc)
  {
    assert [g][1..] == [];
  }

  /** A chain of three middlewares, step by step. */
  lemma ThreeGates(gates: seq<Gate>, incoming: Incoming, svc: Services)
    requires |gates| == 3
    requires GateStep(gates[0], incoming, Untouched, svc).Pass?
    requires GateStep(gates[1], incoming, GateStep(gates[0], incoming, Untouched, svc).value, svc).Pass?
    ensures var c2 := GateStep(gates[1], incoming, GateStep(gates[0], incoming, Untouched, svc).value, svc).value;
            RunGates(gates, incoming, Untouched, svc) == GateStep(gates[2], incoming, c2, svc)
  {
    var c1 := GateStep(gates[0], incoming, Untouched, svc).value;
    var c2 := GateStep(gates[1], incoming, c1, svc).value;
    assert RunGates(gates, incoming, Untouched, svc) == RunGates(gates[1..], incoming, c1, svc);
    assert RunGates(gates[1..], incoming, c1, svc) == RunGates(gates[1..][1..], incoming, c2, svc);
    assert gates[1..][1..] == [gates[2]];
    RunOne(gates[2], incoming, c2, svc);
  }

  /** Validation chains never answer: they only record their messages. */
  lemma {:induction false} ValidationNeverAnswers(gates: seq<Gate>, incoming: Incoming, ctx: Context, svc: Services)
    requires forall g | g in gates :: g.Validate?
    ensures RunGates(gates, incoming, ctx, svc).Pass?
    ensures RunGates(gates, incoming, ctx, svc).value.user == ctx.user
    ensures RunGates(gates, incoming, ctx, svc).value.userId == ctx.userId
    decreases |gates|
  {
    if gates != [] {
      assert gates[0] in gates;
      var next := GateStep(gates[0], incoming, ctx, svc).value;
      assert forall g | g in gates[1..] :: g in gates;
      ValidationNeverAnswers(gates[1..], incoming, next, svc);
    }
  }

  /** A chain that starts with `authenticateToken` answers as that gate does when the token is refused. */
  lemma RefusedAtTheDoor(gates: seq<Gate>, incoming: Incoming, ctx: Context, svc: Services)
    requires |gates| > 0 && gates[0] == AuthenticateToken
    requires AuthToken.Check(incoming.authorization, svc.codec, svc.env).Halt?
    ensures RunGates(gates, incoming, ctx, svc) == Halt(AuthToken.Check(incoming.authorization, svc.codec, svc.env).reply)
  {
  }

  /**
   * Without a token, or with one that does not verify, every endpoint except
   * the four public ones answers 401 or 403 and the database is untouched.
   */
  lemma ProtectedEndpoints(e: Endpoint, incoming: Incoming, t: Tables, svc: Services, storeFails: bool)
    requires WellFormed(t)
    requires e in Endpoints && !Public(e.route.handler)
    requires AuthToken.Check(incoming.authorization, svc.codec, svc.env).Halt?
    ensures var r := ServeSpec(e.route, incoming, t, svc, storeFails);
            && r.tables == t
            && (incoming.authorization.None? ==> r.reply == AuthToken.NoToken)
            && r.reply.status in {401, 403}
  {
    TableShape();
    RefusedAtTheDoor(e.route.gates, incoming, Untouched, svc);
  }

  /**
   * The administrator endpoints answer 403 to a valid token without the
   * `Admin` role, whatever else the request holds, and change nothing.
   */
  lemma AdminOnly(e: Endpoint, incoming: Incoming, t: Tables, svc: Services, storeFails: bool)
    requires WellFormed(t)
    requires e in Endpoints && e.prefix == "/api/admin"
    requires AuthToken.Check(incoming.authorization, svc.codec, svc.env).Pass?
    requires AdminRoutes.AdminRole !in AuthToken.Check(incoming.authorization, svc.codec, svc.env).value.roles
    ensures ServeSpec(e.route, incoming, t, svc, storeFails) == Outcome(RoleCheck.Forbidden("Admin"), t)
  {
    assert e.route in RouterOf(e.prefix);
    var gates := e.route.gates;
    assert gates[0] == AuthenticateToken && gates[1] == RequireRole("Admin");
    var afterToken := GateStep(AuthenticateToken, incoming, Untouched, svc);
    assert afterToken.Pass? && afterToken.value.user == Some(AuthToken.Check(incoming.authorization, svc.codec, svc.env).value);
    assert GateStep(gates[1], incoming, afterToken.value, svc) == Halt(RoleCheck.Forbidden("Admin"));
    assert RunGates(gates, incoming, Untouched, svc) == RunGates(gates[1..], incoming, afterToken.value, svc);
  }

  /** Owners are permanent: whatever the request, on whatever route. */
  lemma OwnersNeverChange(route: Route, incoming: Incoming, t: Tables, svc: Services, storeFails: bool)
    requires WellFormed(t)
    ensures KeepsOwners(t, ServeSpec(route, incoming, t, svc, storeFails).tables)
  {
  }

  /**
   * Only its author removes a review: a review that disappears was removed by
   * a 200 answer to a caller whose token carries the author's id.
   */
  lemma OnlyTheAuthorRemovesAReview(e: Endpoint, incoming: Incoming, t: Tables, svc: Services, storeFails: bool, v: int)
    requires WellFormed(t)
    requires e in Endpoints
    requires v in t.reviews && v !in ServeSpec(e.route, incoming, t, svc, storeFails).tables.reviews
    ensures ServeSpec(e.route, incoming, t, svc, storeFails).reply.status == 200
    ensures AuthUserService.Check(incoming.authorization, svc.codec, svc.env) == Pass(t.reviews[v].userId)
  {
    var ctx := RunGates(e.route.gates, incoming, Untouched, svc);
    assert ctx.Pass? && e.route.handler == DeleteReview;
    assert e.route in RouterOf(e.prefix);
    assert e.route == ReviewRoutes.Routes[1];
    var afterToken := GateStep(AuthenticateToken, incoming, Untouched, svc);
    assert afterToken.Pass?;
    assert e.route.gates[1..] == [AuthUserService];
    assert ctx == RunGates([AuthUserService], incoming, afterToken.value, svc);
    RunOne(AuthUserService, incoming, afterToken.value, svc);
    assert ctx.value.userId == Some(AuthUserService.Check(incoming.authorization, svc.codec, svc.env).value);
  }

  /**
   * A book is deleted even when the caller is not its owner: the caller is
   * answered 401, but the delete still runs.
   */
  lemma NonOwnerStillDeletesABook(incoming: Incoming, t: Tables, svc: Services, b: int, caller: int)
    requires WellFormed(t)
    requires Lawful(svc.codec) && OneSecret(svc.env)
    requires b in t.books && caller != t.books[b].userId
    requires AuthUserService.Check(incoming.authorization, svc.codec, svc.env) == Pass(caller)
    requires incoming.id == Some(b)
    ensures var r := ServeSpec(BookRoutes.Routes[4], incoming, t, svc, false);
            && r.reply.status == 401
            && b !in r.tables.books
  {
    TwoGates.SameRequestsPass(incoming.authorization, svc.codec, svc.env);
    var afterToken := GateStep(AuthenticateToken, incoming, Untouched, svc);
    assert afterToken.Pass?;
    var ctx := RunGates([AuthUserService], incoming, afterToken.value, svc);
    RunOne(AuthUserService, incoming, afterToken.value, svc);
    assert BookRoutes.Routes[4].gates[1..] == [AuthUserService];
    assert ctx == Pass(afterToken.value.(userId := Some(caller)));
    assert RunGates(BookRoutes.Routes[4].gates, incoming, Untouched, svc) == ctx;
  }

  /**
   * `PUT /api/books/:id` runs the book validators, but their verdict never
   * matters: past the token gates the outcome is `updateBook`'s alone.
   */
  lemma UpdateIgnoresValidation(incoming: Incoming, t: Tables, svc: Services, storeFails: bool)
    requires WellFormed(t)
    requires Lawful(svc.codec) && OneSecret(svc.env)
    requires AuthToken.Check(incoming.authorization, svc.codec, svc.env).Pass?
    ensures ServeSpec(BookRoutes.Routes[3], incoming, t, svc, storeFails)
         == BookController.UpdateBookResult(incoming.id, incoming.body,
              Some(AuthToken.Check(incoming.authorization, svc.codec, svc.env).value), t, storeFails)
  {
    TwoGates.SameRequestsPass(incoming.authorization, svc.codec, svc.env);
    ThreeGates(BookRoutes.Routes[3].gates, incoming, svc);
  }

  /**
   * `GET /api/admin/users` with a valid `Admin` token lists every user but
   * the caller, whose id `authUserService` takes from the same token.
   */
  lemma AdminListExcludesCaller(incoming: Incoming, t: Tables, svc: Services)
    requires WellFormed(t)
    requires Lawful(svc.codec) && OneSecret(svc.env)
    requires AuthToken.Check(incoming.authorization, svc.codec, svc.env).Pass?
    requires AdminRoutes.AdminRole in AuthToken.Check(incoming.authorization, svc.codec, svc.env).value.roles
    ensures var r := ServeSpec(AdminRoutes.Routes[0], incoming, t, svc, false).reply;
            && r.status == 200
            && r.body.UserList?
            && r.body.users.Keys == t.users.Keys - {AuthToken.Check(incoming.authorization, svc.codec, svc.env).value.id}
  {
    TwoGates.SameRequestsPass(incoming.authorization, svc.codec, svc.env);
    ThreeGates(AdminRoutes.Routes[0].gates, incoming, svc);
  }

  /**
   * `POST /api/auth/register` always reaches `registerUser`, which receives
   * the registration validators' messages and decides the outcome itself.
   */
  lemma RegisterAlwaysReachesHandler(incoming: Incoming, t: Tables, svc: Services, storeFails: bool)
    requires WellFormed(t)
    ensures ServeSpec(AuthRoutes.Routes[0], incoming, t, svc, storeFails)
         == AuthController.RegisterUserResult(RegisterValidator.Errors(incoming.body, svc.checks), incoming.body, t,
              svc.crypt, svc.codec, svc.env, storeFails)
  {
    RunOne(Validate(UserValidationRules), incoming, Untouched, svc);
  }

  /**
   * `GET /api/books` loses no book: whatever the accepted limit, every
   * stored book is on one of the announced pages, and the count is the
   * number of stored books.
   */
  lemma EveryStoredBookIsListed(incoming: Incoming, t: Tables, svc: Services, b: int) returns (page: int)
    requires WellFormed(t)
    requires ListsEveryBook(svc.titleOrder)
    requires b in t.books
    requires incoming.limit.Some? && 1 <= incoming.limit.value <= BookController.MaxLimit
    ensures page >= 1
    ensures var r := ServeSpec(BookRoutes.Routes[0], incoming.(page := Some(page)), t, svc, false).reply;
            && r.status == 200
            && r.body.meta.totalBooks == |t.books|
            && page <= r.body.meta.totalPages
            && b in r.body.data
  {
    var listing := svc.titleOrder(t.books);
    var limit := incoming.limit.value;
    assert b in listing;
    var k :| 0 <= k < |listing| && listing[k] == b;
    BookController.EveryBookOnItsPage(listing, limit, k);
    page := k / limit + 1;
  }

  /** Every book a page of `GET /api/books` shows is a stored book. */
  lemma ListedBooksAreStored(incoming: Incoming, t: Tables, svc: Services, storeFails: bool)
    requires WellFormed(t)
    requires ListsEveryBook(svc.titleOrder)
    ensures var r := ServeSpec(BookRoutes.Routes[0], incoming, t, svc, storeFails).reply;
            r.status == 200 ==>
              && r.body.meta.totalBooks == |t.books|
              && forall i | 0 <= i < |r.body.data| :: r.body.data[i] in t.books
  {
    var listing := svc.titleOrder(t.books);
    assert forall b | b in listing :: b in t.books;
  }

  /**
   * When `JWT_SECRET` changed after the token modules were imported, a
   * freshly issued token is refused with 401 by every chain that runs
   * `authUserService` right after `authenticateToken`, and nothing changes.
   */
  lemma SplitSecretLocksOut(route: Route, incoming: Incoming, t: Tables, svc: Services, storeFails: bool,
                            id: int, user: User, scheme: string)
    requires WellFormed(t)
    requires Lawful(svc.codec) && !OneSecret(svc.env)
    requires |route.gates| >= 2 && route.gates[0] == AuthenticateToken && route.gates[1] == AuthUserService
    requires ' ' !in scheme
    requires incoming.authorization == Some(scheme + " " + TokenService.GenerateToken(id, user, svc.codec, svc.env))
    ensures ServeSpec(route, incoming, t, svc, storeFails) == Outcome(AuthUserService.NotValid, t)
  {
    TokenService.SplitSecretLocksOut(id, user, scheme, svc.codec, svc.env);
    var afterToken := GateStep(AuthenticateToken, incoming, Untouched, svc);
    assert afterToken.Pass?;
    assert route.gates[1..][0] == AuthUserService;
    assert RunGates(route.gates[1..], incoming, afterToken.value, svc) == Halt(AuthUserService.NotValid);
  }
}
