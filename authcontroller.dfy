/**
 * Registration and login. Neither returns after sending an error, so later
 * steps still run; the client sees the first response.
 */
module AuthController {
  import opened Wrappers
  import opened Jwt
  import opened Db
  import opened Http
  import opened Errors
  import opened Requests
  import opened TokenService

  /**
   * bcrypt: `hash(password)` stands for `hashSync(password, genSaltSync(10))`
   * and `compare(password, hash)` for `compare`.
   */
  datatype Crypt = Crypt(hash: string -> string, compare: (string, string) -> bool)

  /** What the application relies on: a password matches its own hash. */
  ghost predicate Sound(crypt: Crypt)
  {
    forall p :: crypt.compare(p, crypt.hash(p))
  }

  /** `connect: [{ name: "Member" }]`: every new account gets this one role. */
  const NewAccountRoles: seq<string> := ["Member"]

  /** The row `prisma.user.create` inserts for a complete registration form. */
  function NewUser(body: Form, crypt: Crypt): User
    requires body.username.Some? && body.email.Some? && body.password.Some?
  {
    User(body.username.value, body.email.value, crypt.hash(body.password.value), NewAccountRoles)
  }

  /** The form is complete and neither the username nor the email is in use. */
  predicate Registrable(body: Form, t: Tables)
  {
    && body.username.Some? && body.email.Some? && body.password.Some?
    && !Taken(t.users, body.username.value, body.email.value, None)
  }

  /**
   * `registerUser`, as the client and the database see it. A validation
   * failure is answered 400, yet the account is still created when the
   * database accepts it.
   */
  function RegisterUserResult(errors: seq<string>, body: Form, t: Tables, crypt: Crypt, codec: Codec, env: Env, storeFails: bool): (r: Outcome)
    requires WellFormed(t)
    ensures WellFormed(r.tables)
    ensures r.tables.books == t.books && r.tables.reviews == t.reviews
    ensures t.users.Keys <= r.tables.users.Keys
    ensures forall u | u in t.users :: r.tables.users[u] == t.users[u]
    ensures r.tables != t <==> Registrable(body, t) && !storeFails
    ensures r.tables != t ==>
              && r.tables.users.Keys == t.users.Keys + {t.nextUserId}
              && r.tables.users[t.nextUserId] == NewUser(body, crypt)
    ensures errors != [] ==> r.reply == GlobalErrorHandler(ValidationException(Messages(errors)))
    ensures errors == [] && Registrable(body, t) && !storeFails ==>
              r.reply == Reply(201, Session("User registered successfully",
                                            GenerateToken(t.nextUserId, NewUser(body, crypt), codec, env), NewAccountRoles))
    ensures errors == [] && body.username.Some? && body.email.Some? && body.password.Some? && !Registrable(body, t) ==>
              r.reply == GlobalErrorHandler(BadRequestException("Email or username already exists."))
    ensures errors == [] && Registrable(body, t) && storeFails ==>
              r.reply == GlobalErrorHandler(ServerErrorException("Error registering user."))
    ensures errors == [] && (body.username.None? || body.email.None? || body.password.None?) ==>
              r.reply == GlobalErrorHandler(ServerErrorException("Error registering user."))
  {
    var created := Registrable(body, t) && !storeFails;
    var tables := if created then t.(users := t.users[t.nextUserId := NewUser(body, crypt)], nextUserId := t.nextUserId + 1) else t;
    var reply :=
      if errors != [] then GlobalErrorHandler(ValidationException(Messages(errors)))
      else if body.password.None? || body.username.None? || body.email.None? then
        GlobalErrorHandler(ServerErrorException("Error registering user."))
      else if !Registrable(body, t) then GlobalErrorHandler(BadRequestException("Email or username already exists."))
      else if storeFails then GlobalErrorHandler(ServerErrorException("Error registering user."))
      else Reply(201, Session("User registered successfully",
                              GenerateToken(t.nextUserId, NewUser(body, crypt), codec, env), NewAccountRoles));
    Outcome(reply, tables)
  }

  method RegisterUser(db: Store, req: Request, crypt: Crypt, codec: Codec, env: Env, storeFails: bool) returns (reply: Reply)
    requires db.Valid()
    modifies db`users, db`nextUserId
    ensures db.Valid()
    ensures Outcome(reply, db.Snapshot())
         == RegisterUserResult(req.validationErrors, req.incoming.body, old(db.Snapshot()), crypt, codec, env, storeFails)
  {
    var sent: Option<Reply> := None;
    if req.validationErrors != [] {
      sent := Emit(sent, GlobalErrorHandler(ValidationException(Messages(req.validationErrors))));
    }
    var username, email, password := req.incoming.body.username, req.incoming.body.email, req.incoming.body.password;
    if password.None? {
      // hashSync throws on a missing password
      sent := Emit(sent, GlobalErrorHandler(ServerErrorException("Error registering user.")));
    } else {
      var hashedPassword := crypt.hash(password.value);
      if username.None? || email.None? {
        // Prisma rejects the create: a required field is missing
        sent := Emit(sent, GlobalErrorHandler(ServerErrorException("Error registering user.")));
      } else if Taken(db.users, username.value, email.value, None) {
        // P2002: unique constraint violation
        sent := Emit(sent, GlobalErrorHandler(BadRequestException("Email or username already exists.")));
      } else if storeFails {
        sent := Emit(sent, GlobalErrorHandler(ServerErrorException("Error registering user.")));
      } else {
        var id := db.nextUserId;
        var user := User(username.value, email.value, hashedPassword, NewAccountRoles);
        db.users := db.users[id := user];
        db.nextUserId := id + 1;
        var token := GenerateToken(id, user, codec, env);
        sent := Emit(sent, Reply(201, Session("User registered successfully", token, user.roles)));
      }
    }
    reply := sent.value;
  }

  /** The answer given to an unknown email and to a wrong password alike. */
  const InvalidCredentials: string := "Invalid username or password"

  /**
   * `loginUser`: read only. An unknown email is answered 404 and a wrong
   * password 400, both with the same message.
   */
  ghost function LoginUserResult(body: Form, t: Tables, crypt: Crypt, codec: Codec, env: Env, storeFails: bool): (r: Reply)
    requires WellFormed(t)
    ensures r.status == 200 <==>
              && !storeFails && body.email.Some? && body.password.Some?
              && UserWithEmail(t, body.email.value).Some?
              && crypt.compare(body.password.value, t.users[UserWithEmail(t, body.email.value).value].password)
    ensures r.status == 200 ==>
              var id := UserWithEmail(t, body.email.value).value;
              r.body == Session("Login successful", GenerateToken(id, t.users[id], codec, env), t.users[id].roles)
    ensures !storeFails && body.email.Some? && UserWithEmail(t, body.email.value).None? ==>
              r == GlobalErrorHandler(NotFoundException(InvalidCredentials))
    ensures !storeFails && body.email.Some? && body.password.Some? && UserWithEmail(t, body.email.value).Some?
            && !crypt.compare(body.password.value, t.users[UserWithEmail(t, body.email.value).value].password) ==>
              r == GlobalErrorHandler(BadRequestException(InvalidCredentials))
    ensures r.status == 404 ==> r == GlobalErrorHandler(NotFoundException(InvalidCredentials))
    ensures r.status == 400 ==> r == GlobalErrorHandler(BadRequestException(InvalidCredentials))
  {
    if storeFails || body.email.None? then GlobalErrorHandler(ServerErrorException("Error logging in user."))
    else match UserWithEmail(t, body.email.value)
      case None => GlobalErrorHandler(NotFoundException(InvalidCredentials))
      case Some(id) =>
        if body.password.None? then GlobalErrorHandler(ServerErrorException("Error logging in user."))
        else if !crypt.compare(body.password.value, t.users[id].password) then
          GlobalErrorHandler(BadRequestException(InvalidCredentials))
        else Reply(200, Session("Login successful", GenerateToken(id, t.users[id], codec, env), t.users[id].roles))
  }

  method LoginUser(db: Store, req: Request, crypt: Crypt, codec: Codec, env: Env, storeFails: bool) returns (reply: Reply)
    requires db.Valid()
    ensures reply == LoginUserResult(req.incoming.body, db.Snapshot(), crypt, codec, env, storeFails)
  {
    var sent: Option<Reply> := None;
    var email, password := req.incoming.body.email, req.incoming.body.password;
    if storeFails || email.None? {
      return GlobalErrorHandler(ServerErrorException("Error logging in user."));
    }
    if !exists id | id in db.users :: db.users[id].email == email.value {
      sent := Emit(sent, GlobalErrorHandler(NotFoundException(InvalidCredentials)));
      // reading `user.password` of null throws: the catch block answers
      sent := Emit(sent, GlobalErrorHandler(ServerErrorException("Error logging in user.")));
      return sent.value;
    }
    var id :| id in db.users && db.users[id].email == email.value;
    assert UserWithEmail(db.Snapshot(), email.value) == Some(id);
    var user := db.users[id];
    if password.None? {
      // bcrypt.compare rejects a missing password
      return GlobalErrorHandler(ServerErrorException("Error logging in user."));
    }
    var isMatch := crypt.compare(password.value, user.password);
    if !isMatch {
      sent := Emit(sent, GlobalErrorHandler(BadRequestException(InvalidCredentials)));
    }
    var token := GenerateToken(id, user, codec, env);
    sent := Emit(sent, Reply(200, Session("Login successful", token, user.roles)));
    reply := sent.value;
  }

  /**
   * An account just registered can log in with the same email and password:
   * the login answers 200 with the `Member` role. Both the registration's
   * token and the login's carry the new id and that role while fresh.
   */
  lemma RegisterThenLogin(errors: seq<string>, body: Form, t: Tables, crypt: Crypt, codec: Codec, env: Env, later: Env)
    requires WellFormed(t) && Sound(crypt) && Lawful(codec)
    requires errors == [] && Registrable(body, t)
    requires ImportSecret(later) == ImportSecret(env) && later.now < env.now + ExpiresIn
    ensures var registered := RegisterUserResult(errors, body, t, crypt, codec, env, false);
            var login := LoginUserResult(body, registered.tables, crypt, codec, later, false);
            && registered.reply.status == 201
            && Verify(codec, registered.reply.body.token, ImportSecret(later), later.now)
               == Some(Claims(t.nextUserId, NewAccountRoles))
            && login.status == 200
            && login.body.roles == NewAccountRoles
            && Verify(codec, login.body.token, ImportSecret(later), later.now) == Some(Claims(t.nextUserId, NewAccountRoles))
  {
    var after := RegisterUserResult(errors, body, t, crypt, codec, env, false).tables;
    var id := t.nextUserId;
    assert after.users[id].email == body.email.value;
    assert UserWithEmail(after, body.email.value) == Some(id);
    assert crypt.compare(body.password.value, crypt.hash(body.password.value));
    RoundTrip(id, after.users[id], codec, env, later.now);
    RoundTrip(id, after.users[id], codec, later, later.now);
  }
}
