/** AuthService: each flow as the sequence of repository reads and writes the
    service performs. Every method is tied to its flow in module Flows, and
    its modifies clause names the only repository the flow may write. */
module Auth {
  import opened Domain
  import opened TokenStore
  import opened Lifecycle
  import Flows

  /** The user directory the service reads and writes. */
  class UserRepository {
    var byEmail: Flows.Directory

    ghost predicate Valid()
      reads this
    {
      Flows.EmailKeyed(byEmail)
    }

    constructor ()
      ensures Valid() && byEmail == map[]
    {
      byEmail := map[];
    }

    /** findByEmail: the user, or nothing. */
    function FindByEmail(email: Email): (r: Option<User>)
      reads this
      requires Valid()
      ensures r.Some? <==> email in byEmail
      ensures r.Some? ==> r.value.email == email && r.value == byEmail[email]
    {
      if email in byEmail then Some(byEmail[email]) else None
    }

    /** save: insert the user, or overwrite the user with the same e-mail. */
    method Save(user: User)
      requires Valid()
      modifies this
      ensures Valid()
      ensures byEmail == old(byEmail)[user.email := user]
    {
      byEmail := byEmail[user.email := user];
    }
  }

  class AuthService {
    const users: UserRepository
    const refreshTokens: RefreshTokenService

    ghost predicate Valid()
      reads users, refreshTokens.repo
    {
      users.Valid() && refreshTokens.repo.Valid()
    }

    constructor (users: UserRepository, refreshTokens: RefreshTokenService)
      requires users.Valid() && refreshTokens.repo.Valid()
      ensures this.users == users && this.refreshTokens == refreshTokens
      ensures Valid()
    {
      this.users := users;
      this.refreshTokens := refreshTokens;
    }

    /** register. The confirmation e-mail that follows is not part of this model. */
    method Register(email: Email, passwordHash: string) returns (r: Result<User>)
      requires Valid()
      modifies users
      ensures Valid()
      ensures (r, users.byEmail) == Flows.Register(old(users.byEmail), email, passwordHash)
    {
      if users.FindByEmail(email).Some? {
        return Failure(EmailExist);
      }
      var newUser := User(email, passwordHash, false);
      users.Save(newUser);
      return Success(newUser);
    }

    /** login, once the authentication manager has answered with `authenticated`;
        `accessToken` and `newToken` are what the JWT generator produced. */
    method Login(authenticated: Result<Option<Email>>, accessToken: Token, newToken: Token, now: Instant)
      returns (r: Result<TokenPair>)
      requires Valid() && newToken !in refreshTokens.repo.rows
      modifies refreshTokens.repo
      ensures Valid()
      ensures var (outcome, after) := Flows.Login(old(refreshTokens.repo.rows), authenticated, newToken, now);
        && refreshTokens.repo.rows == after
        && (r.Success? <==> outcome.Success?)
        && (r.Success? ==> r.value == TokenPair(accessToken, outcome.value))
        && (r.Failure? ==> r.error == outcome.error)
    {
      if authenticated.Failure? {
        return Failure(authenticated.error);
      }
      if authenticated.value.None? {
        return Failure(LoginFailed);
      }
      var user := authenticated.value.value;
      var refresh := refreshTokens.CreateRefreshToken(user, newToken, now);
      return Success(TokenPair(accessToken, refresh));
    }

    /** confirmEmail, given the JWT library's verdict on the confirmation token. */
    method ConfirmEmail(claim: Result<Email>) returns (r: Result<()>)
      requires Valid()
      modifies users
      ensures Valid()
      ensures (r, users.byEmail) == Flows.ConfirmEmail(old(users.byEmail), claim)
    {
      if claim.Failure? {
        return Failure(claim.error);
      }
      var found := users.FindByEmail(claim.value);
      if found.None? {
        return Failure(UserNotFound);
      }
      var user := found.value;
      if user.verified {
        return Success(());
      }
      users.Save(user.(verified := true));
      return Success(());
    }

    /** resetPassword, given the JWT library's verdict on the reset token and the
        encoded new password. */
    method ResetPassword(claim: Result<Email>, newHash: string) returns (r: Result<()>)
      requires Valid()
      modifies users
      ensures Valid()
      ensures (r, users.byEmail) == Flows.ResetPassword(old(users.byEmail), claim, newHash)
    {
      if claim.Failure? {
        return Failure(claim.error);
      }
      var found := users.FindByEmail(claim.value);
      if found.None? {
        return Failure(UserNotFound);
      }
      users.Save(found.value.(passwordHash := newHash));
      return Success(());
    }

    /** refreshToken: validate, revoke, issue; `accessToken` and `newToken` are what
        the JWT generator produced. */
    method RefreshToken(presented: Token, accessToken: Token, newToken: Token, now: Instant)
      returns (r: Result<TokenPair>)
      requires Valid() && newToken !in refreshTokens.repo.rows
      modifies refreshTokens.repo
      ensures Valid()
      ensures var (outcome, after) := Flows.Rotate(old(refreshTokens.repo.rows), presented, newToken, now);
        && refreshTokens.repo.rows == after
        && (r.Success? <==> outcome.Success?)
        && (r.Success? ==> r.value == TokenPair(accessToken, outcome.value))
        && (r.Failure? ==> r.error == outcome.error)
    {
      var validated := refreshTokens.ValidateRefreshToken(presented, now);
      if validated.Failure? {
        return Failure(validated.error);
      }
      var user := validated.value.owner;
      refreshTokens.RevokeToken(presented);
      var refresh := refreshTokens.CreateRefreshToken(user, newToken, now);
      return Success(TokenPair(accessToken, refresh));
    }

    /** logout: revoke the presented token; it never fails. */
    method Logout(token: Token)
      requires Valid()
      modifies refreshTokens.repo
      ensures Valid()
      ensures refreshTokens.repo.rows == Revoke(old(refreshTokens.repo.rows), token)
    {
      refreshTokens.RevokeToken(token);
    }
  }
}
