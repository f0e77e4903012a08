/** The authentication flows as functions of the state they read: the refresh
    token table for login, refresh and logout, the user directory for register,
    confirm-email and reset-password. Each returns the caller-visible result
    together with the state afterwards. Calls into the JWT library and the
    authentication manager arrive as parameters holding their outcome. */
module Flows {
  import opened Domain
  import opened TokenStore
  import opened Lifecycle

  /** The user directory, indexed by e-mail. */
  type Directory = map<Email, User>

  /** Every user is filed under their own e-mail. */
  predicate EmailKeyed(d: Directory) {
    forall e | e in d :: d[e].email == e
  }

  /** refreshToken(presented): validate, revoke the presented token, then issue
      `newToken` to the same owner. A validation failure is passed on unchanged and
      leaves the table as it was. */
  function Rotate(m: Store, presented: Token, newToken: Token, now: Instant): (r: (Result<Token>, Store))
    requires WellKeyed(m) && newToken !in m
    ensures WellKeyed(r.1)
    ensures r.0.Success? <==> Validate(m, presented, now).Success?
    ensures r.0.Failure? ==> r.0.error == Validate(m, presented, now).error && r.1 == m
    ensures r.0.Success? ==>
      && r.0.value == newToken && newToken != presented
      && r.1.Keys == m.Keys + {newToken}
      && r.1[presented] == m[presented].(revoked := true)
      && r.1[newToken] == RefreshToken(newToken, m[presented].owner, now + 30 * 86400, false)
      && Validate(r.1, newToken, now).Success?
      && (forall k | k in m && k != presented :: r.1[k] == m[k])
  {
    match Validate(m, presented, now)
    case Failure(e) => (Failure(e), m)
    case Success(rt) =>
      var revoked := Revoke(m, presented);
      (Success(newToken), Issue(revoked, newToken, rt.owner, now))
  }

  /** login, after the authentication manager has answered: `authenticated` is its
      exception, or the principal it returned (None for a null principal). */
  function Login(m: Store, authenticated: Result<Option<Email>>, newToken: Token, now: Instant): (r: (Result<Token>, Store))
    requires WellKeyed(m) && newToken !in m
    ensures WellKeyed(r.1)
    ensures authenticated.Failure? ==> r == (Failure(authenticated.error), m)
    ensures authenticated == Success(None) ==> r == (Failure(LoginFailed), m)
    ensures authenticated.Success? && authenticated.value.Some? ==>
      && r.0 == Success(newToken)
      && r.1.Keys == m.Keys + {newToken}
      && r.1[newToken] == RefreshToken(newToken, authenticated.value.value, now + 30 * 86400, false)
      && Validate(r.1, newToken, now).Success?
      && Validate(r.1, newToken, now).value.owner == authenticated.value.value
      && (forall k | k in m :: k in r.1 && r.1[k] == m[k])
  {
    match authenticated
    case Failure(e) => (Failure(e), m)
    case Success(None) => (Failure(LoginFailed), m)
    case Success(Some(user)) => (Success(newToken), Issue(m, newToken, user, now))
  }

  /** register(email, password): refused when the e-mail is taken; otherwise an
      unverified user with the encoded password is added. */
  function Register(d: Directory, email: Email, passwordHash: string): (r: (Result<User>, Directory))
    requires EmailKeyed(d)
    ensures EmailKeyed(r.1)
    ensures r.0.Failure? <==> email in d
    ensures r.0.Failure? ==> r.0.error == EmailExist && r.1 == d
    ensures r.0.Success? ==>
      && r.0.value.email == email && !r.0.value.verified && r.0.value.passwordHash == passwordHash
      && r.1.Keys == d.Keys + {email} && r.1[email] == r.0.value
      && (forall e | e in d :: r.1[e] == d[e])
  {
    if email in d then (Failure(EmailExist), d)
    else
      var user := User(email, passwordHash, false);
      (Success(user), d[email := user])
  }

  /** confirmEmail: `claim` is the JWT library's verdict on the confirmation token
      (the e-mail it carries, or its exception). An unknown user fails; an already
      verified user is a silent success that writes nothing. */
  function ConfirmEmail(d: Directory, claim: Result<Email>): (r: (Result<()>, Directory))
    requires EmailKeyed(d)
    ensures EmailKeyed(r.1) && r.1.Keys == d.Keys
    ensures claim.Failure? ==> r == (Failure(claim.error), d)
    ensures claim.Success? && claim.value !in d ==> r == (Failure(UserNotFound), d)
    ensures claim.Success? && claim.value in d ==>
      && r.0.Success?
      && r.1[claim.value] == d[claim.value].(verified := true)
      && (d[claim.value].verified ==> r.1 == d)
    ensures forall e | e in d && (claim.Failure? || e != claim.value) :: r.1[e] == d[e]
  {
    match claim
    case Failure(err) => (Failure(err), d)
    case Success(email) =>
      if email !in d then (Failure(UserNotFound), d)
      else if d[email].verified then (Success(()), d)
      else (Success(()), d[email := d[email].(verified := true)])
  }

  /** resetPassword: `claim` is the JWT library's verdict on the reset token. An
      unknown user fails; otherwise only that user's password hash changes. */
  function ResetPassword(d: Directory, claim: Result<Email>, newHash: string): (r: (Result<()>, Directory))
    requires EmailKeyed(d)
    ensures EmailKeyed(r.1) && r.1.Keys == d.Keys
    ensures claim.Failure? ==> r == (Failure(claim.error), d)
    ensures claim.Success? && claim.value !in d ==> r == (Failure(UserNotFound), d)
    ensures claim.Success? && claim.value in d ==>
      && r.0.Success?
      && r.1[claim.value].passwordHash == newHash
      && r.1[claim.value].verified == d[claim.value].verified
    ensures forall e | e in d && (claim.Failure? || e != claim.value) :: r.1[e] == d[e]
  {
    match claim
    case Failure(err) => (Failure(err), d)
    case Success(email) =>
      if email !in d then (Failure(UserNotFound), d)
      else (Success(()), d[email := d[email].(passwordHash := newHash)])
  }

  /** Once a refresh has succeeded, validating or refreshing the presented token
      again fails Revoked, at any later instant and whatever new value is offered. */
  lemma RotatedTokenCannotBeReused(m: Store, presented: Token, newToken: Token, now: Instant,
                                   later: Instant, another: Token)
    requires WellKeyed(m) && newToken !in m
    requires Rotate(m, presented, newToken, now).0.Success?
    requires another !in Rotate(m, presented, newToken, now).1
    ensures Validate(Rotate(m, presented, newToken, now).1, presented, later) == Failure(RevokedRefreshToken)
    ensures Rotate(Rotate(m, presented, newToken, now).1, presented, another, later).0 == Failure(RevokedRefreshToken)
  {
  }

  /** The token a refresh issues validates at every instant up to 30 days after
      the refresh. */
  lemma RotatedTokenLivesFullTtl(m: Store, presented: Token, newToken: Token, now: Instant, at: Instant)
    requires WellKeyed(m) && newToken !in m
    requires Rotate(m, presented, newToken, now).0.Success?
    requires at <= now + REFRESH_TOKEN_TTL
    ensures Validate(Rotate(m, presented, newToken, now).1, newToken, at).Success?
  {
  }

  /** logout is revokeToken: it never fails, and only the presented row's revoked
      flag can change. */
  lemma LogoutOnlyRevokes(m: Store, token: Token)
    requires WellKeyed(m)
    ensures Revoke(m, token).Keys == m.Keys
    ensures forall k | k in m ::
      && Revoke(m, token)[k].token == m[k].token
      && Revoke(m, token)[k].owner == m[k].owner
      && Revoke(m, token)[k].expiryDate == m[k].expiryDate
      && (m[k].revoked ==> Revoke(m, token)[k].revoked)
      && (k != token ==> Revoke(m, token)[k] == m[k])
  {
  }

  /** Registering an e-mail twice: the second attempt fails EmailExist and keeps the
      user the first one created. */
  lemma SecondRegistrationFails(d: Directory, email: Email, hash1: string, hash2: string)
    requires EmailKeyed(d) && email !in d
    ensures Register(Register(d, email, hash1).1, email, hash2) == (Failure(EmailExist), Register(d, email, hash1).1)
    ensures Register(Register(d, email, hash1).1, email, hash2).1[email].passwordHash == hash1
  {
  }

  /** Confirming an e-mail twice is confirming it once, and both report success. */
  lemma ConfirmEmailIsIdempotent(d: Directory, claim: Result<Email>)
    requires EmailKeyed(d)
    ensures ConfirmEmail(ConfirmEmail(d, claim).1, claim) == ConfirmEmail(d, claim)
  {
  }

  /** After register, a confirmation naming the new e-mail verifies exactly that user. */
  lemma RegisterThenConfirmVerifies(d: Directory, email: Email, hash: string)
    requires EmailKeyed(d) && email !in d
    ensures ConfirmEmail(Register(d, email, hash).1, Success(email)).0.Success?
    ensures ConfirmEmail(Register(d, email, hash).1, Success(email)).1[email] == User(email, hash, true)
  {
  }
}
