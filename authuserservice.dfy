/** The `authUserService` middleware: bearer token in, `req.userId` out. */
module AuthUserService {
  import opened Wrappers
  import opened Text
  import opened Jwt
  import opened Http
  import opened Requests

  const NotValid: Reply := Reply(401, Message("Token is not valid"))

  /** `req.headers.authorization?.split(" ")[1]`. */
  function TokenOf(header: Option<string>): (t: Option<string>)
    ensures t.None? <==> header.None? || ' ' !in header.value
  {
    match header
    case None => None
    case Some(h) => SecondWord(h)
  }

  /**
   * The decision: `jwt.verify`, under the secret read now, throws on a
   * missing or bad token alike, and the catch answers 401; otherwise the
   * decoded `id`.
   */
  function Check(header: Option<string>, codec: Codec, env: Env): (v: Verdict<int>)
    ensures v.Halt? ==> v.reply == NotValid
    ensures v.Pass? <==>
              TokenOf(header).Some? && Verify(codec, TokenOf(header).value, RequestSecret(env), env.now).Some?
    ensures v.Pass? ==> v.value == Verify(codec, TokenOf(header).value, RequestSecret(env), env.now).value.id
  {
    match TokenOf(header)
    case None => Halt(NotValid)
    case Some(token) =>
      match Verify(codec, token, RequestSecret(env), env.now)
      case None => Halt(NotValid)
      case Some(decoded) => Pass(decoded.id)
  }

  /** The middleware: answers 401, or sets `req.userId` and calls `next()`; `req.user` is not touched. */
  method AuthUserService(req: Request, codec: Codec, env: Env) returns (step: Step)
    modifies req`userId
    ensures Check(req.incoming.authorization, codec, env).Pass? ==>
              step == Next && req.userId == Some(Check(req.incoming.authorization, codec, env).value)
    ensures Check(req.incoming.authorization, codec, env).Halt? ==>
              step == Respond(NotValid) && req.userId == old(req.userId)
  {
    var token := TokenOf(req.incoming.authorization);
    var decoded := if token.Some? then Verify(codec, token.value, RequestSecret(env), env.now) else None;
    if decoded.None? {
      step := Respond(NotValid);
    } else {
      req.userId := Some(decoded.value.id);
      step := Next;
    }
  }
}

/** How `authUserService` relates to `authenticateToken`, which runs before it on every chain that has both. */
module TwoGates {
  import opened Wrappers
  import opened Text
  import opened Jwt
  import opened Http
  import AuthToken
  import AuthUserService

  /**
   * Under a lawful library, and when the two gates hold the same secret, they
   * let the same requests through, and the id one attaches is the id inside
   * the claims the other attaches.
   */
  lemma SameRequestsPass(header: Option<string>, codec: Codec, env: Env)
    requires Lawful(codec) && OneSecret(env)
    ensures AuthUserService.Check(header, codec, env).Pass? <==> AuthToken.Check(header, codec, env).Pass?
    ensures AuthUserService.Check(header, codec, env).Pass? ==>
              AuthUserService.Check(header, codec, env).value == AuthToken.Check(header, codec, env).value.id
  {
    if header == Some("") {
      assert Verify(codec, "", RequestSecret(env), env.now).None?;
    } else if header.Some? {
      assert AuthToken.TokenOf(header) == AuthUserService.TokenOf(header);
    }
  }

  /**
   * The two gates fail differently: with no header both answer 401, but a
   * token that does not verify gets 403 from one and 401 from the other.
   */
  lemma FailureStatuses(header: Option<string>, codec: Codec, env: Env)
    ensures header.None? ==>
              AuthToken.Check(header, codec, env) == Halt(AuthToken.NoToken)
              && AuthUserService.Check(header, codec, env) == Halt(AuthUserService.NotValid)
    ensures header.Some? && ' ' in header.value
              && Verify(codec, SecondWord(header.value).value, ImportSecret(env), env.now).None? ==>
              AuthToken.Check(header, codec, env).reply.status == 403
    ensures header.Some? && ' ' in header.value
              && Verify(codec, SecondWord(header.value).value, RequestSecret(env), env.now).None? ==>
              AuthUserService.Check(header, codec, env).reply.status == 401
  {
  }
}
