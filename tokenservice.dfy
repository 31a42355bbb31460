/** `generateToken(user)`: the claims put into a new token, and its fixed lifetime. */
module TokenService {
  import opened Wrappers
  import opened Text
  import opened Jwt
  import opened Db
  import opened Http
  import AuthToken
  import AuthUserService

  /** `expiresIn: "7d"`, in seconds. */
  const ExpiresIn: int := 7 * 24 * 60 * 60

  /** `{ id: user.id, roles: user.roles.map(role => role.name) }`: nothing else of the user. */
  function Payload(id: int, user: User): Claims
  {
    Claims(id, user.roles)
  }

  /**
   * `jwt.sign(payload, JWT_SECRET, { expiresIn: "7d" })`, issued now, with the
   * secret read when the module was imported. Under a lawful library the
   * token is a single word that decodes, at once, to the payload.
   */
  function GenerateToken(id: int, user: User, codec: Codec, env: Env): (token: string)
    ensures Lawful(codec) ==> token != "" && ' ' !in token
    ensures Lawful(codec) ==> Verify(codec, token, ImportSecret(env), env.now) == Some(Claims(id, user.roles))
  {
    codec.sign(Payload(id, user), ImportSecret(env), env.now, ExpiresIn)
  }

  /**
   * A token decodes, under the secret it was signed with, to exactly the
   * user's id and role names for seven days after issue, and not at all
   * afterwards.
   */
  lemma RoundTrip(id: int, user: User, codec: Codec, issued: Env, now: int)
    requires Lawful(codec)
    ensures Verify(codec, GenerateToken(id, user, codec, issued), ImportSecret(issued), now)
         == if now < issued.now + ExpiresIn then Some(Claims(id, user.roles)) else None
  {
  }

  /** A token does not verify under a different secret. */
  lemma OtherSecretRejects(id: int, user: User, codec: Codec, issued: Env, secret: string, now: int)
    requires Lawful(codec)
    requires secret != ImportSecret(issued)
    ensures Verify(codec, GenerateToken(id, user, codec, issued), secret, now).None?
  {
  }

  /**
   * A fresh token sent as `<scheme> <token>` passes `authenticateToken`,
   * which attaches the payload as `req.user`; when the secret did not change
   * after import it also passes `authUserService`, which attaches the id.
   */
  lemma FreshTokenPassesBothGates(id: int, user: User, scheme: string, codec: Codec, env: Env)
    requires Lawful(codec)
    requires ' ' !in scheme
    ensures AuthToken.Check(Some(scheme + " " + GenerateToken(id, user, codec, env)), codec, env)
         == Pass(Claims(id, user.roles))
    ensures OneSecret(env) ==>
              AuthUserService.Check(Some(scheme + " " + GenerateToken(id, user, codec, env)), codec, env) == Pass(id)
  {
    var token := GenerateToken(id, user, codec, env);
    SecondWordOf(scheme, token);
    assert scheme + " " + token != "";
  }

  /**
   * When `JWT_SECRET` changed after import (it comes only from `.env`), a
   * fresh token passes `authenticateToken` and is refused by
   * `authUserService` with 401.
   */
  lemma SplitSecretLocksOut(id: int, user: User, scheme: string, codec: Codec, env: Env)
    requires Lawful(codec)
    requires ' ' !in scheme
    requires !OneSecret(env)
    ensures AuthToken.Check(Some(scheme + " " + GenerateToken(id, user, codec, env)), codec, env)
         == Pass(Claims(id, user.roles))
    ensures AuthUserService.Check(Some(scheme + " " + GenerateToken(id, user, codec, env)), codec, env)
         == Halt(AuthUserService.NotValid)
  {
    var token := GenerateToken(id, user, codec, env);
    SecondWordOf(scheme, token);
    assert scheme + " " + token != "";
    OtherSecretRejects(id, user, codec, env, RequestSecret(env), env.now);
  }
}
