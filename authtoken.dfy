/** The `authenticateToken` middleware: bearer token in, `req.user` out. */
module AuthToken {
  import opened Wrappers
  import opened Text
  import opened Jwt
  import opened Http
  import opened Requests

  const NoToken: Reply := Reply(401, Message("No token provided"))
  const InvalidToken: Reply := Reply(403, Message("Invalid token"))

  /**
   * `authHeader && authHeader.split(" ")[1]`: no token without a header; an
   * empty header is passed on as the (empty) token; otherwise the second word.
   */
  function TokenOf(header: Option<string>): (t: Option<string>)
    ensures header.None? ==> t.None?
    ensures header == Some("") ==> t == Some("")
    ensures header.Some? && header.value != "" ==> (t.None? <==> ' ' !in header.value)
  {
    match header
    case None => None
    case Some(h) => if h == "" then Some("") else SecondWord(h)
  }

  /**
   * The decision: 401 without a token, 403 when it does not verify under the
   * secret read at import, otherwise the decoded claims.
   */
  function Check(header: Option<string>, codec: Codec, env: Env): (v: Verdict<Claims>)
    ensures v == Halt(NoToken) <==> TokenOf(header).None?
    ensures v == Halt(InvalidToken) <==>
              TokenOf(header).Some? && Verify(codec, TokenOf(header).value, ImportSecret(env), env.now).None?
    ensures v.Pass? <==>
              TokenOf(header).Some? && Verify(codec, TokenOf(header).value, ImportSecret(env), env.now).Some?
    ensures v.Pass? ==> Some(v.value) == Verify(codec, TokenOf(header).value, ImportSecret(env), env.now)
  {
    match TokenOf(header)
    case None => Halt(NoToken)
    case Some(token) =>
      match Verify(codec, token, ImportSecret(env), env.now)
      case None => Halt(InvalidToken)
      case Some(claims) => Pass(claims)
  }

  /** The middleware: answers, or sets `req.user` to the decoded claims and calls `next()`. */
  method AuthenticateToken(req: Request, codec: Codec, env: Env) returns (step: Step)
    modifies req`user
    ensures Check(req.incoming.authorization, codec, env).Pass? ==>
              step == Next && req.user == Some(Check(req.incoming.authorization, codec, env).value)
    ensures Check(req.incoming.authorization, codec, env).Halt? ==>
              step == Respond(Check(req.incoming.authorization, codec, env).reply) && req.user == old(req.user)
  {
    var token := TokenOf(req.incoming.authorization);
    if token.None? {
      return Respond(NoToken);
    }
    var decoded := Verify(codec, token.value, ImportSecret(env), env.now);
    if decoded.None? {
      return Respond(InvalidToken);
    }
    req.user := decoded;
    step := Next;
  }

  /** The scheme word is never looked at: any first word before the same token gives the same verdict. */
  lemma SchemeIgnored(scheme: string, other: string, token: string, codec: Codec, env: Env)
    requires ' ' !in scheme && ' ' !in other && ' ' !in token
    ensures Check(Some(scheme + " " + token), codec, env) == Check(Some(other + " " + token), codec, env)
  {
    SecondWordOf(scheme, token);
    SecondWordOf(other, token);
  }
}
