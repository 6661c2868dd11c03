/**
 * The two foreign libraries the handlers call, kept abstract: the salted
 * password hasher (bcrypt) and the HS256 token codec (JWT). They are passed
 * in as functions, and `Sound` lists the only facts about them the model
 * relies on.
 */
module Tokens {

  /** The claims a session token carries: `{'email': ..., 'exp': ...}`. */
  datatype Claims = Claims(email: string, exp: int)

  /**
   * What `jwt.decode` does with a token: returns its claims, raises
   * `ExpiredSignatureError`, or raises another `InvalidTokenError`.
   */
  datatype Decoded = Payload(claims: Claims) | ExpiredSignature | BadToken

  /** Lifetime of a session token, in seconds (`timedelta(hours=1)`). */
  const TokenLifetime: int := 3600

  /**
   * The hasher and the codec, with the signing secret folded into `encode`
   * and `decode`. `hash(salt, password)` stands for
   * `bcrypt.generate_password_hash`, whose random salt becomes an argument;
   * `check(stored, password)` for `bcrypt.check_password_hash`;
   * `decode(token, now)` for `jwt.decode` at time `now` (seconds).
   */
  datatype Crypto = Crypto(
    hash: (string, string) -> string,
    check: (string, string) -> bool,
    encode: Claims -> string,
    decode: (string, int) -> Decoded)

  /**
   * The facts assumed of the libraries: a stored hash verifies the password
   * it was made from; a token issued for some claims decodes to them while
   * `now` is before their expiry and is reported expired from then on; and
   * an issued token (base64url segments joined by dots) has no space in it.
   */
  ghost predicate Sound(c: Crypto)
  {
    && (forall salt, password :: c.check(c.hash(salt, password), password))
    && (forall claims, now :: c.decode(c.encode(claims), now) ==
          if now < claims.exp then Payload(claims) else ExpiredSignature)
    && (forall claims :: ' ' !in c.encode(claims))
  }

  /** The claims `login` signs for `email` at time `now`. */
  function SessionClaims(email: string, now: int): (claims: Claims)
    ensures claims.email == email
    ensures claims.exp - now == TokenLifetime
  {
    Claims(email, now + TokenLifetime)
  }

  /**
   * A token issued at `issued` decodes to its claims exactly during the hour
   * that follows, and is expired from then on.
   */
  lemma SessionTokenLifetime(c: Crypto, email: string, issued: int, now: int)
    requires Sound(c)
    ensures c.decode(c.encode(SessionClaims(email, issued)), now) ==
      if issued <= now - TokenLifetime then ExpiredSignature
      else Payload(Claims(email, issued + TokenLifetime))
  {
  }
}
