/** Histories of the refresh-token table. A history is a sequence of the events
    that write the table: login, refresh, logout, revoke-all and the two
    sweeps. Whatever the order, three things hold of a token value once it has
    been issued: its owner and expiry never change, its revoked flag never
    goes back to false, and once it has been deleted it never reappears. So
    no history can bring a Revoked or Expired token back to life. This
    relies on the JWT generator never producing a value twice. */
module History {
  import opened Domain
  import opened TokenStore
  import opened Lifecycle
  import Flows

  datatype Event =
    | LoggedIn(user: Email, newToken: Token, now: Instant)
    | Refreshed(presented: Token, newToken: Token, now: Instant)
    | LoggedOut(token: Token)
    | RevokedAll(user: Email)
    | DailySweep(now: Instant)
    | OnDemandSweep(now: Instant)

  /** The token values an event asks the JWT generator for. */
  function Minted(e: Event): set<Token> {
    match e
    case LoggedIn(_, t, _) => {t}
    case Refreshed(_, t, _) => {t}
    case _ => {}
  }

  /** Every value the history mints is new: not among the `issued` values and not
      minted earlier in the history. */
  predicate Admissible(issued: set<Token>, es: seq<Event>)
    decreases |es|
  {
    es == [] || (Minted(es[0]) !! issued && Admissible(issued + Minted(es[0]), es[1..]))
  }

  /** `after` is a later state of the row `before`: same value, owner and expiry, and
      still revoked if it was revoked. */
  predicate Persists(before: RefreshToken, after: RefreshToken) {
    && after.token == before.token
    && after.owner == before.owner
    && after.expiryDate == before.expiryDate
    && (before.revoked ==> after.revoked)
  }

  /** The table after one event. A failed refresh leaves it unchanged. */
  function Apply(m: Store, e: Event): (r: Store)
    requires WellKeyed(m) && Minted(e) !! m.Keys
    ensures WellKeyed(r)
    ensures r.Keys <= m.Keys + Minted(e)
    ensures forall t | t in m && t in r :: Persists(m[t], r[t])
  {
    match e
    case LoggedIn(user, t, now) => Issue(m, t, user, now)
    case Refreshed(presented, t, now) => Flows.Rotate(m, presented, t, now).1
    case LoggedOut(t) => Revoke(m, t)
    case RevokedAll(user) => WithoutOwner(m, user)
    case DailySweep(now) => WithoutExpired(m, now)
    case OnDemandSweep(now) => WithoutRevokedAndExpired(m, now)
  }

  /** The table after a whole history, starting from `m` with `issued` the values
      minted so far. */
  function Run(m: Store, issued: set<Token>, es: seq<Event>): (r: Store)
    requires WellKeyed(m) && m.Keys <= issued && Admissible(issued, es)
    ensures WellKeyed(r)
    decreases |es|
  {
    if es == [] then m
    else Run(Apply(m, es[0]), issued + Minted(es[0]), es[1..])
  }

  /** A value issued before the history starts is in the final table only if it was
      in the initial one, and then as a later state of the same row. */
  lemma {:induction false} RunPreservesRows(m: Store, issued: set<Token>, es: seq<Event>, t: Token)
    requires WellKeyed(m) && m.Keys <= issued && Admissible(issued, es)
    requires t in issued
    ensures t in Run(m, issued, es) ==> t in m && Persists(m[t], Run(m, issued, es)[t])
    decreases |es|
  {
    if es != [] {
      var next := Apply(m, es[0]);
      RunPreservesRows(next, issued + Minted(es[0]), es[1..], t);
    }
  }

  /** A token that was revoked, or already gone, fails validation at every instant
      after any history: it is never found again, or found still revoked. */
  lemma DeadTokenStaysDead(m: Store, issued: set<Token>, es: seq<Event>, t: Token, at: Instant)
    requires WellKeyed(m) && m.Keys <= issued && Admissible(issued, es)
    requires t in issued && (t !in m || m[t].revoked)
    ensures Validate(Run(m, issued, es), t, at) in {Failure(RefreshTokenNotFound), Failure(RevokedRefreshToken)}
  {
    RunPreservesRows(m, issued, es, t);
  }

  /** A token that has expired fails validation at every later instant after any
      history: expiry dates are never extended. */
  lemma ExpiredTokenStaysExpired(m: Store, issued: set<Token>, es: seq<Event>, t: Token, at: Instant, later: Instant)
    requires WellKeyed(m) && m.Keys <= issued && Admissible(issued, es)
    requires t in m && Validate(m, t, at) == Failure(RefreshTokenExpired) && at <= later
    ensures Validate(Run(m, issued, es), t, later).Failure?
  {
    RunPreservesRows(m, issued, es, t);
  }

  /** Rotation makes every refresh token single-use: after one successful refresh,
      no history lets the presented value be refreshed again. */
  lemma RefreshIsSingleUse(m: Store, issued: set<Token>, presented: Token, newToken: Token, now: Instant,
                           es: seq<Event>, another: Token, later: Instant)
    requires WellKeyed(m) && m.Keys <= issued && newToken !in issued
    requires Flows.Rotate(m, presented, newToken, now).0.Success?
    requires Admissible(issued + {newToken}, es)
    requires another !in Run(Flows.Rotate(m, presented, newToken, now).1, issued + {newToken}, es)
    ensures Flows.Rotate(Run(Flows.Rotate(m, presented, newToken, now).1, issued + {newToken}, es),
                         presented, another, later).0.Failure?
  {
    var rotated := Flows.Rotate(m, presented, newToken, now).1;
    DeadTokenStaysDead(rotated, issued + {newToken}, es, presented, later);
  }
}
