/**
 * Password handling of the backend (`get_password_hash`, `verify_password`).
 * bcrypt only looks at the first 72 bytes of a secret, so a password whose
 * UTF-8 encoding is longer is first replaced by its SHA-256 hex digest.
 * bcrypt and SHA-256 are not modelled bit by bit: SHA-256 is any function
 * yielding 64 lower-case hex digits, and a bcrypt hash is the salted
 * secret it commits to, which verification compares.
 */
module BackendSecurity {
  import opened Wrappers
  import opened Text

  /** An `HTTPException`: status code and `detail`. */
  datatype HttpError = HttpError(status: nat, detail: string)

  /** The number of secret bytes bcrypt takes into account. */
  const BcryptMaxBytes := 72

  predicate IsLowerHexDigit(c: char) {
    ('0' <= c <= '9') || ('a' <= c <= 'f')
  }

  /** The text of `hashlib.sha256(...).hexdigest()`: 64 lower-case hex digits. */
  predicate IsHexDigest(s: string) {
    |s| == 64 && forall i :: 0 <= i < |s| ==> IsLowerHexDigit(s[i])
  }

  /** A stand-in for SHA-256 over the UTF-8 bytes of a string, as a hex digest. */
  ghost predicate IsSha256Hex(sha256Hex: string -> string) {
    forall s :: IsHexDigest(sha256Hex(s))
  }

  /** The secret handed to bcrypt: the password, or its digest when it is longer than 72 bytes. */
  function PreparePassword(password: string, sha256Hex: string -> string): (secret: string)
    requires IsSha256Hex(sha256Hex)
    ensures Utf8Length(password) <= BcryptMaxBytes ==> secret == password
    ensures Utf8Length(password) > BcryptMaxBytes ==> secret == sha256Hex(password)
    ensures Utf8Length(secret) <= BcryptMaxBytes
  {
    if Utf8Length(password) > BcryptMaxBytes then
      var digest := sha256Hex(password);
      assert IsHexDigest(digest);
      Utf8LengthOfAscii(digest);
      digest
    else password
  }

  /** A bcrypt hash: the salt it was made with and the secret it commits to. */
  datatype PasswordHash = Bcrypt(salt: string, secret: string)

  /** `get_password_hash(password)` with the salt bcrypt draws. */
  function HashPassword(password: string, sha256Hex: string -> string, salt: string): (h: PasswordHash)
    requires IsSha256Hex(sha256Hex)
    ensures h.salt == salt
    ensures Utf8Length(h.secret) <= BcryptMaxBytes
  {
    Bcrypt(salt, PreparePassword(password, sha256Hex))
  }

  /** `verify_password(plain, hashed)`: the same preparation, then bcrypt's comparison. */
  function VerifyPassword(plain: string, hashed: PasswordHash, sha256Hex: string -> string): (ok: bool)
    requires IsSha256Hex(sha256Hex)
    ensures ok <==> PreparePassword(plain, sha256Hex) == hashed.secret
  {
    PreparePassword(plain, sha256Hex) == hashed.secret
  }

  /** Hashing and verifying apply the same rule: a password verifies against its own hash, whatever the salt. */
  lemma VerifyOwnHash(password: string, sha256Hex: string -> string, salt: string)
    requires IsSha256Hex(sha256Hex)
    ensures VerifyPassword(password, HashPassword(password, sha256Hex, salt), sha256Hex)
  {
  }

  /** Among passwords of at most 72 bytes, only the password itself verifies. */
  lemma VerifyShortPasswordExact(plain: string, password: string, sha256Hex: string -> string, salt: string)
    requires IsSha256Hex(sha256Hex)
    requires Utf8Length(plain) <= BcryptMaxBytes && Utf8Length(password) <= BcryptMaxBytes
    requires VerifyPassword(plain, HashPassword(password, sha256Hex, salt), sha256Hex)
    ensures plain == password
  {
  }
}
