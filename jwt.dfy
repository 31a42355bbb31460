/**
 * The signed identity token (a JSON Web Token, RFC 7519, produced and checked
 * by the jsonwebtoken library). Signing and verification are not modelled;
 * they are function-valued parameters, and the laws the library is relied on
 * to obey are stated by `Lawful`, which every lemma that needs them requires.
 */
module Jwt {
  import opened Wrappers

  /** The claims the application puts in a token: the user's id and role names. */
  datatype Claims = Claims(id: int, roles: seq<string>)

  /**
   * The library: `sign(claims, secret, issuedAt, lifetime)` and
   * `verify(token, secret, now)`; times are in seconds.
   */
  datatype Codec = Codec(
    sign: (Claims, string, int, int) -> string,
    verify: (string, string, int) -> Option<Claims>)

  /**
   * Process configuration and the clock. `JWT_SECRET` is read twice over: the
   * signer and `authenticateToken` read it once, when their modules are
   * imported, which happens before `app.js` runs `dotenv.config()`;
   * `authUserService` reads it on every request, after that call.
   */
  datatype Env = Env(secretAtImport: Option<string>, secretAtRequest: Option<string>, now: int)

  /** The secret used when `JWT_SECRET` is unset or empty. */
  const FallbackSecret: string := "some_secret_key"

  /** `process.env.JWT_SECRET || "some_secret_key"`. */
  function Secret(setting: Option<string>): (s: string)
    ensures s != ""
    ensures setting.Some? && setting.value != "" ==> s == setting.value
    ensures setting.None? || setting.value == "" ==> s == FallbackSecret
  {
    if setting.Some? && setting.value != "" then setting.value else FallbackSecret
  }

  /** The secret the signer and `authenticateToken` hold. */
  function ImportSecret(env: Env): string
  {
    Secret(env.secretAtImport)
  }

  /** The secret `authUserService` reads. */
  function RequestSecret(env: Env): string
  {
    Secret(env.secretAtRequest)
  }

  /**
   * The three reads agree: `JWT_SECRET` was set before the process started,
   * or was not set at all.
   */
  predicate OneSecret(env: Env)
  {
    ImportSecret(env) == RequestSecret(env)
  }

  /** A secret that only `dotenv.config()` supplies is seen by `authUserService` alone. */
  lemma DotenvOnlySecret(value: string, now: int)
    requires value != "" && value != FallbackSecret
    ensures !OneSecret(Env(None, Some(value), now))
  {
  }

  /**
   * What the library is assumed to guarantee (not proved here):
   * a token verifies under the secret it was signed with until it expires,
   * yielding exactly the signed claims; it never verifies under another
   * secret; the empty string never verifies ("jwt must be provided"); and a
   * token is a non-empty string without spaces (compact serialization).
   */
  ghost predicate Lawful(codec: Codec)
  {
    && (forall c, s, iat, life, now ::
          codec.verify(codec.sign(c, s, iat, life), s, now) == if now < iat + life then Some(c) else None)
    && (forall c, s, s', iat, life, now | s != s' ::
          codec.verify(codec.sign(c, s, iat, life), s', now) == None)
    && (forall s, now :: codec.verify("", s, now) == None)
    && (forall c, s, iat, life :: codec.sign(c, s, iat, life) != "" && ' ' !in codec.sign(c, s, iat, life))
  }

  /** `jwt.verify(token, secret)` at the current time; the empty token never verifies. */
  function Verify(codec: Codec, token: string, secret: string, now: int): (claims: Option<Claims>)
    ensures Lawful(codec) && token == "" ==> claims.None?
  {
    codec.verify(token, secret, now)
  }
}
