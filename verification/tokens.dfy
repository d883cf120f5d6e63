/**
 * The signed, time-stamped tokens carried by confirmation and reset links:
 * `generate_token(email, salt)` (a `URLSafeTimedSerializer.dumps`) and
 * `serializer.loads(token, salt=..., max_age=3600)`.
 *
 * itsdangerous is a foreign library. A token is modelled by what its
 * signature certifies: the payload (the e-mail address), the issue time, and
 * the signing key, which the library derives from the application's secret key
 * and the salt. Anything that does not carry a signature under a derived key is
 * `Malformed` (bad encoding, tampered payload or signature).
 */
module Tokens {

  /** The salt of e-mail confirmation links. */
  const EmailConfirmationSalt: string := "email-confirmation"

  /** The salt of password reset links. */
  const PasswordResetSalt: string := "password-reset"

  /** Seconds a link stays valid, for both purposes. */
  const MaxAge: int := 3600

  /** The key a serializer signs with: derived from the secret key and the salt. */
  datatype SigningKey = Derived(secretKey: string, salt: string)

  datatype Token =
    | Signed(email: string, issuedAt: int, signedWith: SigningKey)
    | Malformed

  /** What `loads` does: return the e-mail address, raise `SignatureExpired`,
      or raise another `BadSignature`. */
  datatype LoadResult = Loaded(email: string) | Expired | Invalid

  /** `generate_token(email, salt)`, run at time `now` under `secretKey`. */
  function Generate(secretKey: string, email: string, salt: string, now: int): (t: Token)
    ensures Loads(secretKey, t, salt, MaxAge, now) == Loaded(email)
  {
    Signed(email, now, Derived(secretKey, salt))
  }

  /** `loads(token, salt=salt, max_age=maxAge)` at time `now`: the signature is
      checked first; only a correctly signed token can be reported expired.
      A token whose age is negative (issued in the future) counts as expired,
      as in the library. */
  function Loads(secretKey: string, token: Token, salt: string, maxAge: int, now: int): (r: LoadResult)
  {
    match token
    case Malformed => Invalid
    case Signed(email, issuedAt, key) =>
      if key != Derived(secretKey, salt) then Invalid
      else if now - issuedAt > maxAge || now - issuedAt < 0 then Expired
      else Loaded(email)
  }

  /** A freshly issued token loads back to its e-mail address, under the same
      secret key and salt, throughout its validity window. */
  lemma RoundTrip(secretKey: string, email: string, salt: string, issuedAt: int, now: int)
    requires issuedAt <= now <= issuedAt + MaxAge
    ensures Loads(secretKey, Generate(secretKey, email, salt, issuedAt), salt, MaxAge, now) == Loaded(email)
  {
  }

  /** Once more than `MaxAge` seconds have passed, a correctly signed token is
      expired. */
  lemma ExpiresAfterMaxAge(secretKey: string, email: string, salt: string, issuedAt: int, now: int)
    requires now - issuedAt > MaxAge
    ensures Loads(secretKey, Generate(secretKey, email, salt, issuedAt), salt, MaxAge, now) == Expired
  {
  }

  /** Tokens are purpose-scoped: a token issued under one salt is invalid
      under any other, whatever its age. */
  lemma PurposeScoped(secretKey: string, email: string, issuedWith: string, loadedWith: string, issuedAt: int, now: int)
    requires issuedWith != loadedWith
    ensures Loads(secretKey, Generate(secretKey, email, issuedWith, issuedAt), loadedWith, MaxAge, now) == Invalid
  {
  }

  /** A token signed under another secret key is invalid. */
  lemma ForeignKeyRejected(secretKey: string, otherKey: string, email: string, salt: string, issuedAt: int, now: int)
    requires otherKey != secretKey
    ensures Loads(secretKey, Generate(otherKey, email, salt, issuedAt), salt, MaxAge, now) == Invalid
  {
  }

  /** Unforgeability: whatever `loads` accepts under a key and salt is a token
      that `generate_token` issued with that key and salt, for that address,
      no more than `MaxAge` seconds ago. */
  lemma LoadedOnlyIfIssued(secretKey: string, token: Token, salt: string, now: int, email: string)
    requires Loads(secretKey, token, salt, MaxAge, now) == Loaded(email)
    ensures token == Generate(secretKey, email, salt, token.issuedAt)
    ensures token.issuedAt <= now <= token.issuedAt + MaxAge
  {
  }
}
