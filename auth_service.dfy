/**
 * The login decision of the API (internal/auth/service.go). The user lookup
 * (internal/auth/repository.go), the bcrypt comparison and the HS256 signing are passed in
 * as functions; the clock is the Unix time in seconds at which the token is issued.
 */
module AuthService {
  import opened Wrappers

  datatype User = User(id: int, username: string, passwordHash: string, role: string)

  /**
   * The errors of the auth package: the two sentinels, a database error from the lookup,
   * and an error from signing the token.
   */
  datatype AuthError = ErrInvalidCredentials | ErrUserNotFound | DbError(message: string) | SigningError(message: string)

  /** `err.Error()` of each error. */
  function ErrorText(e: AuthError): string {
    match e
    case ErrInvalidCredentials => "invalid username or password"
    case ErrUserNotFound => "user not found"
    case DbError(message) => message
    case SigningError(message) => message
  }

  /** Tokens live for 72 hours. */
  const TokenLifetime: int := 72 * 3600

  /** The claims of an issued token: `sub`, `user`, `role` and `exp`. */
  datatype Claims = Claims(sub: int, user: string, role: string, exp: int)

  function IssuedClaims(user: User, nowSec: int): (c: Claims)
    ensures c.sub == user.id && c.user == user.username && c.role == user.role
    ensures c.exp - nowSec == 259200
  {
    Claims(user.id, user.username, user.role, nowSec + TokenLifetime)
  }

  /**
   * `Login(ctx, username, password)`. `lookup` is `GetUserByUsername`, which yields
   * `ErrUserNotFound` when no row matches; `checkHash(password, hash)` is bcrypt's comparison;
   * `sign` is `SignedString` with the configured secret, failing with the library's message.
   */
  function Login(username: string, password: string,
                 lookup: string -> Result<User, AuthError>,
                 checkHash: (string, string) -> bool,
                 sign: Claims -> Result<string, string>,
                 nowSec: int): (r: Result<string, AuthError>)
    ensures r.Ok? <==>
      lookup(username).Ok? && checkHash(password, lookup(username).value.passwordHash) &&
      sign(IssuedClaims(lookup(username).value, nowSec)).Ok?
    ensures r.Ok? ==> sign(IssuedClaims(lookup(username).value, nowSec)) == Ok(r.value)
    ensures r.Err? ==> r.error != ErrUserNotFound
  {
    match lookup(username)
    case Err(e) =>
      if e == ErrUserNotFound then Err(ErrInvalidCredentials) else Err(e)
    case Ok(user) =>
      if !checkHash(password, user.passwordHash) then Err(ErrInvalidCredentials)
      else
        match sign(IssuedClaims(user, nowSec))
        case Err(message) => Err(SigningError(message))
        case Ok(token) => Ok(token)
  }

  /**
   * An unknown username and a wrong password for a known one produce the same error, so a
   * caller cannot tell which of the two happened.
   */
  lemma CredentialFailuresLookAlike(
    username: string, password: string, nowSec: int,
    checkHash: (string, string) -> bool, sign: Claims -> Result<string, string>,
    unknown: string -> Result<User, AuthError>, known: string -> Result<User, AuthError>)
    requires unknown(username) == Err(ErrUserNotFound)
    requires known(username).Ok? && !checkHash(password, known(username).value.passwordHash)
    ensures Login(username, password, unknown, checkHash, sign, nowSec) ==
            Login(username, password, known, checkHash, sign, nowSec) ==
            Err(ErrInvalidCredentials)
  {
  }

  /** Any other lookup error is passed through unchanged, and no token is produced. */
  lemma LookupErrorPassesThrough(
    username: string, password: string, nowSec: int, lookup: string -> Result<User, AuthError>,
    checkHash: (string, string) -> bool, sign: Claims -> Result<string, string>)
    requires lookup(username).Err? && lookup(username).error != ErrUserNotFound
    ensures Login(username, password, lookup, checkHash, sign, nowSec) == Err(lookup(username).error)
  {
  }

  /** A signing failure is returned as the error, with no token. */
  lemma SigningErrorPassesThrough(
    username: string, password: string, nowSec: int, lookup: string -> Result<User, AuthError>,
    checkHash: (string, string) -> bool, sign: Claims -> Result<string, string>)
    requires lookup(username).Ok? && checkHash(password, lookup(username).value.passwordHash)
    requires sign(IssuedClaims(lookup(username).value, nowSec)).Err?
    ensures Login(username, password, lookup, checkHash, sign, nowSec) ==
            Err(SigningError(sign(IssuedClaims(lookup(username).value, nowSec)).error))
  {
  }
}
