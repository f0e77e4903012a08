/** The persistence contract for refresh tokens: a table of records keyed by
    their token value, one lookup and four bulk deletes. Each delete is
    specified by the exact set of rows it keeps, so that a caller knows which
    rows an operation touches and that the surviving rows are unchanged. */
module TokenStore {
  import opened Domain

  /** The refresh_token table, indexed by the (unique) token value. */
  type Store = map<Token, RefreshToken>

  /** Every row is filed under its own token value. */
  predicate WellKeyed(m: Store) {
    forall t | t in m :: m[t].token == t
  }

  /** findByToken: the row whose token equals `t`, or nothing if no row has it. */
  function FindByToken(m: Store, t: Token): (r: Option<RefreshToken>)
    requires WellKeyed(m)
    ensures r.Some? ==> r.value in m.Values && r.value.token == t
    ensures r.None? <==> forall k | k in m :: m[k].token != t
  {
    if t in m then Some(m[t]) else None
  }

  /** The rows left after deleteByUser(user): exactly those owned by someone else. */
  function WithoutOwner(m: Store, user: Email): (r: Store)
    ensures forall t | t in r :: t in m && r[t] == m[t] && r[t].owner != user
    ensures forall t | t in m && m[t].owner != user :: t in r
  {
    map t | t in m && m[t].owner != user :: m[t]
  }

  /** The rows left after deleteByToken(token): all but the row carrying `token`. */
  function WithoutToken(m: Store, token: Token): (r: Store)
    ensures forall t | t in r :: t in m && r[t] == m[t] && r[t].token != token
    ensures forall t | t in m && m[t].token != token :: t in r
    ensures WellKeyed(m) ==> r.Keys == m.Keys - {token}
  {
    map t | t in m && m[t].token != token :: m[t]
  }

  /** The rows left after deleteExpiredTokens(now): those whose expiry is not before
      `now`, whatever their revoked flag. */
  function WithoutExpired(m: Store, now: Instant): (r: Store)
    ensures forall t | t in r :: t in m && r[t] == m[t] && !IsBefore(r[t].expiryDate, now)
    ensures forall t | t in m && !IsBefore(m[t].expiryDate, now) :: t in r
  {
    map t | t in m && !IsBefore(m[t].expiryDate, now) :: m[t]
  }

  /** The rows left after deleteRevokedAndExpiredTokens(now): a row goes only when it
      is revoked AND expired; an unrevoked row and an unexpired row both stay. */
  function WithoutRevokedAndExpired(m: Store, now: Instant): (r: Store)
    ensures forall t | t in r :: t in m && r[t] == m[t] && !(r[t].revoked && IsBefore(r[t].expiryDate, now))
    ensures forall t | t in m && !m[t].revoked :: t in r
    ensures forall t | t in m && !IsBefore(m[t].expiryDate, now) :: t in r
  {
    map t | t in m && !(m[t].revoked && IsBefore(m[t].expiryDate, now)) :: m[t]
  }

  /** Every row the on-demand sweep removes, the daily sweep at the same instant
      removes too. */
  lemma OnDemandSweepIsNarrower(m: Store, now: Instant)
    ensures m.Keys - WithoutRevokedAndExpired(m, now).Keys <= m.Keys - WithoutExpired(m, now).Keys
    ensures WithoutExpired(m, now).Keys <= WithoutRevokedAndExpired(m, now).Keys
  {
  }

  /** After the daily sweep, the on-demand sweep at the same instant finds nothing
      left to delete. */
  lemma OnDemandAfterDailyRemovesNothing(m: Store, now: Instant)
    ensures WithoutRevokedAndExpired(WithoutExpired(m, now), now) == WithoutExpired(m, now)
  {
  }

  /** Two daily sweeps, the second not earlier than the first, leave what the later
      one alone leaves: a missed sweep is made good by the next one. */
  lemma DailySweepsCompose(m: Store, first: Instant, second: Instant)
    requires first <= second
    ensures WithoutExpired(WithoutExpired(m, first), second) == WithoutExpired(m, second)
  {
  }

  /** The refresh_token table as the service sees it: rows change only through
      save and the four deletes. */
  class RefreshTokenRepository {
    var rows: Store

    ghost predicate Valid()
      reads this
    {
      WellKeyed(rows)
    }

    constructor ()
      ensures Valid() && rows == map[]
    {
      rows := map[];
    }

    /** save: insert the row, or overwrite the row with the same token value. */
    method Save(rt: RefreshToken)
      requires Valid()
      modifies this
      ensures Valid()
      ensures rows == old(rows)[rt.token := rt]
    {
      rows := rows[rt.token := rt];
    }

    method DeleteByUser(user: Email)
      requires Valid()
      modifies this
      ensures Valid()
      ensures rows == WithoutOwner(old(rows), user)
    {
      rows := WithoutOwner(rows, user);
    }

    method DeleteByToken(token: Token)
      requires Valid()
      modifies this
      ensures Valid()
      ensures rows == WithoutToken(old(rows), token)
    {
      rows := WithoutToken(rows, token);
    }

    method DeleteExpiredTokens(now: Instant)
      requires Valid()
      modifies this
      ensures Valid()
      ensures rows == WithoutExpired(old(rows), now)
    {
      rows := WithoutExpired(rows, now);
    }

    method DeleteRevokedAndExpiredTokens(now: Instant)
      requires Valid()
      modifies this
      ensures Valid()
      ensures rows == WithoutRevokedAndExpired(old(rows), now)
    {
      rows := WithoutRevokedAndExpired(rows, now);
    }
  }
}
