/** Vocabulary shared by the refresh-token store, its lifecycle service and the
    authentication flows: token and e-mail strings, the clock, the persisted
    records and the domain errors. */
module Domain {

  /** The opaque value of a signed token (the JWT string). */
  type Token = string

  /** A user's e-mail address; it identifies the user in the directory. */
  type Email = string

  /** An instant on the UTC timeline, counted in seconds. */
  type Instant = int

  const SECONDS_PER_DAY: int := 86400

  /** Refresh tokens are persisted with an expiry 30 days after creation. */
  const REFRESH_TOKEN_DAYS: int := 30

  const REFRESH_TOKEN_TTL: int := REFRESH_TOKEN_DAYS * SECONDS_PER_DAY

  /** `a.isBefore(b)` on instants: strictly earlier. */
  predicate IsBefore(a: Instant, b: Instant) {
    a < b
  }

  datatype Option<+T> = None | Some(value: T)

  /** The outcome of an operation that the source ends by throwing a domain exception. */
  datatype Result<+R> = Success(value: R) | Failure(error: AuthError)

  /** One constructor per exception the core throws or lets through. */
  datatype AuthError =
    | EmailExist            // EmailExistException
    | LoginFailed           // LoginFailedException: no principal after authentication
    | BadCredentials        // thrown by the authentication manager; carried in by login's `authenticated`
    | UserNotFound          // UsernameNotFoundException
    | RefreshTokenNotFound  // RefreshTokenNotFoundException
    | RevokedRefreshToken   // RevokedRefreshTokenException
    | RefreshTokenExpired   // RefreshTokenExpired
    | JwtRejected           // the JWT library rejected a signed token; carried in by a `claim`

  /** A row of the refresh_token table. */
  datatype RefreshToken = RefreshToken(token: Token, owner: Email, expiryDate: Instant, revoked: bool)

  /** A row of the user directory. `passwordHash` is whatever the password encoder produced. */
  datatype User = User(email: Email, passwordHash: string, verified: bool)

  /** The pair a successful login or refresh hands back to the caller. */
  datatype TokenPair = TokenPair(accessToken: Token, refreshToken: Token)
}
