/** The refresh-token lifecycle. A row is Active while it is unrevoked and not
    yet past its expiry; it becomes Revoked through an explicit revoke and
    Expired by the passing of time; revokeAllUserTokens and the two sweeps
    delete rows outright. The functions below give the meaning of each
    operation on the table; RefreshTokenService performs them step by step
    against a RefreshTokenRepository. */
module Lifecycle {
  import opened Domain
  import opened TokenStore

  /** The table after createRefreshToken(user) saved the new value `t` at `now`. */
  function Issue(m: Store, t: Token, user: Email, now: Instant): (r: Store)
    requires t !in m
    ensures r.Keys == m.Keys + {t}
    ensures r[t].token == t && r[t].owner == user && !r[t].revoked
    ensures r[t].expiryDate == now + 30 * 86400
    ensures forall k | k in m :: r[k] == m[k]
  {
    m[t := RefreshToken(t, user, now + REFRESH_TOKEN_TTL, false)]
  }

  /** validateRefreshToken(t) at `now`. The checks run in a fixed order: missing,
      then revoked, then expired; expiry uses a strict comparison, so a row whose
      expiry equals `now` is still accepted. */
  function Validate(m: Store, t: Token, now: Instant): (r: Result<RefreshToken>)
    requires WellKeyed(m)
    ensures r == Failure(RefreshTokenNotFound) <==> t !in m
    ensures r == Failure(RevokedRefreshToken) <==> t in m && m[t].revoked
    ensures r == Failure(RefreshTokenExpired) <==> t in m && !m[t].revoked && m[t].expiryDate < now
    ensures r.Success? <==> t in m && !m[t].revoked && now <= m[t].expiryDate
    ensures r.Success? ==> r.value == m[t] && r.value.token == t
  {
    match FindByToken(m, t)
    case None => Failure(RefreshTokenNotFound)
    case Some(rt) =>
      if rt.revoked then Failure(RevokedRefreshToken)
      else if IsBefore(rt.expiryDate, now) then Failure(RefreshTokenExpired)
      else Success(rt)
  }

  /** The table after revokeToken(t): the row carrying `t`, if any, has its revoked
      flag set; nothing else changes and no row appears or disappears. */
  function Revoke(m: Store, t: Token): (r: Store)
    requires WellKeyed(m)
    ensures WellKeyed(r) && r.Keys == m.Keys
    ensures t !in m ==> r == m
    ensures t in m ==> r[t].revoked && r[t] == m[t].(revoked := true)
    ensures forall k | k in m && k != t :: r[k] == m[k]
  {
    match FindByToken(m, t)
    case None => m
    case Some(rt) => m[rt.token := rt.(revoked := true)]
  }

  /** A freshly created token validates at every instant up to and including its
      expiry, and the row it yields belongs to the creating user. */
  lemma IssuedTokenValidatesUntilExpiry(m: Store, t: Token, user: Email, now: Instant, at: Instant)
    requires WellKeyed(m) && t !in m
    requires at <= now + REFRESH_TOKEN_TTL
    ensures WellKeyed(Issue(m, t, user, now))
    ensures Validate(Issue(m, t, user, now), t, at).Success?
    ensures Validate(Issue(m, t, user, now), t, at).value.owner == user
  {
  }

  /** One second past its expiry, a fresh token that was never revoked fails Expired. */
  lemma IssuedTokenExpiresAfterTtl(m: Store, t: Token, user: Email, now: Instant, at: Instant)
    requires WellKeyed(m) && t !in m
    requires at > now + REFRESH_TOKEN_TTL
    ensures WellKeyed(Issue(m, t, user, now))
    ensures Validate(Issue(m, t, user, now), t, at) == Failure(RefreshTokenExpired)
  {
  }

  /** Revocation is checked before expiry: a row both revoked and expired fails Revoked. */
  lemma RevokedBeatsExpired(m: Store, t: Token, now: Instant)
    requires WellKeyed(m) && t in m && m[t].revoked && IsBefore(m[t].expiryDate, now)
    ensures Validate(m, t, now) == Failure(RevokedRefreshToken)
  {
  }

  /** The expiry instant itself is still inside the validity window. */
  lemma ExpiryInstantIsAccepted(m: Store, t: Token)
    requires WellKeyed(m) && t in m && !m[t].revoked
    ensures Validate(m, t, m[t].expiryDate) == Success(m[t])
  {
  }

  /** Revoking twice is revoking once. */
  lemma RevokeIsIdempotent(m: Store, t: Token)
    requires WellKeyed(m)
    ensures Revoke(Revoke(m, t), t) == Revoke(m, t)
  {
  }

  /** After revokeToken(t) on a present row, validating `t` fails Revoked at every instant. */
  lemma RevokedTokenFailsRevoked(m: Store, t: Token, now: Instant)
    requires WellKeyed(m) && t in m
    ensures Validate(Revoke(m, t), t, now) == Failure(RevokedRefreshToken)
  {
  }

  /** revokeAllUserTokens deletes instead of flagging: every token the user owned is
      then not found, and every other user's token validates exactly as before. */
  lemma RevokeAllEndsEverySession(m: Store, user: Email, t: Token, now: Instant)
    requires WellKeyed(m)
    ensures WellKeyed(WithoutOwner(m, user))
    ensures t in m && m[t].owner == user ==>
      Validate(WithoutOwner(m, user), t, now) == Failure(RefreshTokenNotFound)
    ensures t in m && m[t].owner != user ==>
      Validate(WithoutOwner(m, user), t, now) == Validate(m, t, now)
  {
  }

  /** Neither sweep can remove a row that validation at the same instant accepts, so
      sweeping needs no coordination with concurrent validation. */
  lemma SweepsKeepAcceptedTokens(m: Store, t: Token, now: Instant)
    requires WellKeyed(m) && Validate(m, t, now).Success?
    ensures WellKeyed(WithoutExpired(m, now)) && WellKeyed(WithoutRevokedAndExpired(m, now))
    ensures Validate(WithoutExpired(m, now), t, now) == Validate(m, t, now)
    ensures Validate(WithoutRevokedAndExpired(m, now), t, now) == Validate(m, t, now)
  {
  }

  /** Conversely, any row the daily sweep removes is one validation rejects as Expired
      or Revoked. */
  lemma SweptTokensWereRejected(m: Store, t: Token, now: Instant)
    requires WellKeyed(m) && t in m && t !in WithoutExpired(m, now)
    ensures Validate(m, t, now) in {Failure(RefreshTokenExpired), Failure(RevokedRefreshToken)}
  {
  }

  /** RefreshTokenService: the lifecycle operations against the repository. */
  class RefreshTokenService {
    const repo: RefreshTokenRepository

    constructor (repo: RefreshTokenRepository)
      ensures this.repo == repo
    {
      this.repo := repo;
    }

    /** createRefreshToken(user). `newToken` is the value the JWT generator produced;
        the service does not check it, so the model demands it is new to the table. */
    method CreateRefreshToken(user: Email, newToken: Token, now: Instant) returns (t: Token)
      requires repo.Valid() && newToken !in repo.rows
      modifies repo
      ensures repo.Valid()
      ensures t == newToken
      ensures repo.rows == Issue(old(repo.rows), newToken, user, now)
    {
      var rt := RefreshToken(newToken, user, now + REFRESH_TOKEN_TTL, false);
      repo.Save(rt);
      t := newToken;
    }

    /** validateRefreshToken(token). It has no modifies clause: validation never
        changes the table. */
    method ValidateRefreshToken(token: Token, now: Instant) returns (r: Result<RefreshToken>)
      requires repo.Valid()
      ensures r == Validate(repo.rows, token, now)
    {
      var found := FindByToken(repo.rows, token);
      if found.None? {
        return Failure(RefreshTokenNotFound);
      }
      var rt := found.value;
      if rt.revoked {
        return Failure(RevokedRefreshToken);
      }
      if IsBefore(rt.expiryDate, now) {
        return Failure(RefreshTokenExpired);
      }
      return Success(rt);
    }

    /** revokeToken(token): a silent no-op when the token is unknown. */
    method RevokeToken(token: Token)
      requires repo.Valid()
      modifies repo
      ensures repo.Valid()
      ensures repo.rows == Revoke(old(repo.rows), token)
    {
      var found := FindByToken(repo.rows, token);
      if found.Some? {
        var rt := found.value.(revoked := true);
        repo.Save(rt);
      }
    }

    method RevokeAllUserTokens(user: Email)
      requires repo.Valid()
      modifies repo
      ensures repo.Valid()
      ensures repo.rows == WithoutOwner(old(repo.rows), user)
    {
      repo.DeleteByUser(user);
    }

    /** The daily sweep. `storeFails` stands for the delete throwing: the failure is
        caught here, the table is left as it was and nothing reaches the caller. */
    method CleanupExpiredTokens(now: Instant, storeFails: bool)
      requires repo.Valid()
      modifies repo
      ensures repo.Valid()
      ensures repo.rows == if storeFails then old(repo.rows) else WithoutExpired(old(repo.rows), now)
    {
      if !storeFails {
        repo.DeleteExpiredTokens(now);
      }
    }

    /** The on-demand sweep: only rows that are revoked and expired go. */
    method CleanupOldTokens(now: Instant)
      requires repo.Valid()
      modifies repo
      ensures repo.Valid()
      ensures repo.rows == WithoutRevokedAndExpired(old(repo.rows), now)
    {
      repo.DeleteRevokedAndExpiredTokens(now);
    }
  }
}
