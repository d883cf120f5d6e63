/**
 * Password hashing as the account routes use it: `bcrypt.hashpw` with a fresh
 * `bcrypt.gensalt()` salt when a password is stored, and `bcrypt.checkpw`
 * against the stored value when one is presented.
 *
 * bcrypt is a foreign library. It is modelled as an ideal collision-free
 * hash: the digest is a free constructor over (password, salt), so two digests
 * are equal exactly when their inputs are. One-wayness is not modelled (the
 * digest keeps its preimage). The stored credential has its own type, so a
 * password string cannot be stored in its place.
 */
module Passwords {

  /** The random salt `bcrypt.gensalt()` draws; the model takes it as an input. */
  type Salt = nat

  /** The digest part of a bcrypt hash: an ideal image of its inputs. */
  datatype Digest = Digest(preimage: string, salt: Salt)

  /** What the password column holds: the salt embedded next to the digest. */
  datatype Credential = Bcrypt(salt: Salt, digest: Digest)

  /** `bcrypt.hashpw(password, salt)` */
  function Hash(password: string, salt: Salt): Credential
  {
    Bcrypt(salt, Digest(password, salt))
  }

  /** `bcrypt.checkpw(password, stored)`: re-hash the candidate under the salt
      embedded in the stored value and compare the results. */
  predicate Check(password: string, stored: Credential)
  {
    Hash(password, stored.salt) == stored
  }

  /** A password always checks against its own hash. */
  lemma CheckHash(password: string, salt: Salt)
    ensures Check(password, Hash(password, salt))
  {
  }

  /** Only the hashed password checks against a hash. */
  lemma CheckOnlyOwnPassword(password: string, candidate: string, salt: Salt)
    ensures Check(candidate, Hash(password, salt)) <==> candidate == password
  {
  }

  /** Hashing is salted: one password under two salts gives two different
      stored values, and the password checks against both. */
  lemma HashIsSalted(password: string, s1: Salt, s2: Salt)
    requires s1 != s2
    ensures Hash(password, s1) != Hash(password, s2)
    ensures Check(password, Hash(password, s1)) && Check(password, Hash(password, s2))
  {
  }
}
