# Refresh-token lifecycle and authentication flows, in Dafny

This project models the core of a Spring Boot authentication service. The core has three parts:

- **The refresh-token table** (`RefreshTokenRepository`): rows of token value, owning user, expiry instant and revoked flag. It offers a lookup by value and four bulk deletes.
- **The refresh-token lifecycle** (`RefreshTokenService`). It creates a token that expires 30 days out and validates in a fixed order: not found, then revoked, then expired. Revoking is an idempotent flag flip. Revoking all of a user's tokens deletes them. A daily sweep deletes expired rows and swallows any store failure; an on-demand sweep deletes rows that are both revoked and expired.
- **The authentication flows** (`AuthService`): login, refresh (validate, revoke, issue), logout, register, confirm-email and reset-password.

The files:

- `domain.dfy` (module `Domain`): tokens and e-mails as strings, and the clock as whole seconds, so 30 days is `30 * 86400`. It also holds the table row, the user, and one error constructor per exception the core throws.
- `token_store.dfy` (module `TokenStore`): the table as a `map` from token value to row. Each delete is a function stating exactly which rows it keeps. The class `RefreshTokenRepository` owns the map and deletes in place.
- `lifecycle.dfy` (module `Lifecycle`): the functions `Issue`, `Validate` and `Revoke` give the meaning of the lifecycle operations. The class `RefreshTokenService` performs them step by step against the repository.
- `flows.dfy` (module `Flows`): each authentication flow as a function from the state it reads to its result and the state afterwards. The user directory is a `map` from e-mail to user, with a verified flag.
- `auth.dfy` (module `Auth`): the classes `UserRepository` and `AuthService`. Each flow method is proved equal to its function in `Flows`, and its `modifies` clause names the only repository it may write.
- `history.dfy` (module `History`): arbitrary sequences of table-writing events. It proves, by induction over the history, that a revoked or expired token never validates again and that a refreshed token cannot be refreshed twice.

Calls into code outside the core become parameters:

- Each token value the JWT generator would produce is passed in as `newToken` or `accessToken`. The model requires a new refresh-token value to be absent from the table, a check the code itself does not make. In `History`, a value must also never have been issued before.
- The JWT library's verdict on a confirmation or reset token is passed in as `claim`: the e-mail it carries, or the exception it raised.
- The authentication manager's answer is passed in as `authenticated`.
- The password encoder's output is passed in as `passwordHash` or `newHash`.
- The clock reading is passed in as `now`.

Three behaviours of the code are worth stating plainly:

- The expiry check is strict `expiryDate.isBefore(now)`, so a token whose expiry equals `now` is still accepted (`Lifecycle.ExpiryInstantIsAccepted`).
- `revokeAllUserTokens` deletes rows at once rather than flagging them (`Lifecycle.RevokeAllEndsEverySession`).
- The comment on `cleanupOldTokens` says it removes "both expired and revoked tokens". Its query removes only rows that are revoked AND expired, and the model keeps that intersection (`TokenStore.WithoutRevokedAndExpired`).

## Model

| member | source | states |
|---|---|---|
| `TokenStore.FindByToken` | src/main/java/com/setup/authentication/repositories/RefreshTokenRepository.java:17 | a found row carries the requested token value and is a row of the table; nothing is found exactly when no row carries that value |
| `TokenStore.WithoutOwner` | src/main/java/com/setup/authentication/repositories/RefreshTokenRepository.java:19 | after deleteByUser no remaining row is owned by the user, every row owned by someone else stays, and surviving rows are unchanged |
| `TokenStore.WithoutToken` | src/main/java/com/setup/authentication/repositories/RefreshTokenRepository.java:21 | after deleteByToken no remaining row carries the value, every other row stays unchanged, and on a well-keyed table exactly that one key goes |
| `TokenStore.WithoutExpired` | src/main/java/com/setup/authentication/repositories/RefreshTokenRepository.java:23-25 | the daily delete keeps exactly the rows whose expiry is not before `now`, whatever their revoked flag, unchanged |
| `TokenStore.WithoutRevokedAndExpired` | src/main/java/com/setup/authentication/repositories/RefreshTokenRepository.java:27-29 | the on-demand delete removes a row only if it is revoked and expired; every unrevoked row and every unexpired row stays |
| `TokenStore.OnDemandSweepIsNarrower` | src/main/java/com/setup/authentication/repositories/RefreshTokenRepository.java:23-29 | the rows the on-demand delete removes are a subset of those the daily delete removes at the same instant |
| `TokenStore.OnDemandAfterDailyRemovesNothing` | src/main/java/com/setup/authentication/repositories/RefreshTokenRepository.java:23-29 | after the daily delete, the on-demand delete at the same instant changes nothing |
| `TokenStore.DailySweepsCompose` | src/main/java/com/setup/authentication/repositories/RefreshTokenRepository.java:23-25 | two daily deletes at increasing instants equal the later one alone |
| `TokenStore.RefreshTokenRepository.Save` | src/main/java/com/setup/authentication/services/RefreshTokenService.java:45 | save inserts the row, or replaces the row with the same token value |
| `TokenStore.RefreshTokenRepository.DeleteByUser` | src/main/java/com/setup/authentication/repositories/RefreshTokenRepository.java:19 | the table becomes `WithoutOwner` of the old table |
| `TokenStore.RefreshTokenRepository.DeleteByToken` | src/main/java/com/setup/authentication/repositories/RefreshTokenRepository.java:21 | the table becomes `WithoutToken` of the old table |
| `TokenStore.RefreshTokenRepository.DeleteExpiredTokens` | src/main/java/com/setup/authentication/repositories/RefreshTokenRepository.java:23-25 | the table becomes `WithoutExpired` of the old table |
| `TokenStore.RefreshTokenRepository.DeleteRevokedAndExpiredTokens` | src/main/java/com/setup/authentication/repositories/RefreshTokenRepository.java:27-29 | the table becomes `WithoutRevokedAndExpired` of the old table |
| `Lifecycle.Issue` | src/main/java/com/setup/authentication/services/RefreshTokenService.java:34-48 | creation adds exactly one row under the new value: owned by the user, unrevoked, expiring `now + 30 * 86400`; other rows are unchanged |
| `Lifecycle.Validate` | src/main/java/com/setup/authentication/services/RefreshTokenService.java:51-69 | fails NotFound iff no row, Revoked iff the row is revoked, Expired iff it is unrevoked with expiry strictly before `now`; otherwise returns that row |
| `Lifecycle.Revoke` | src/main/java/com/setup/authentication/services/RefreshTokenService.java:72-78 | an absent value leaves the table as it is; a present one gets only its revoked flag set; no row appears or disappears |
| `Lifecycle.IssuedTokenValidatesUntilExpiry` | src/main/java/com/setup/authentication/services/RefreshTokenService.java:42-43 | a freshly created token validates at every instant up to its expiry, bound to the creating user |
| `Lifecycle.IssuedTokenExpiresAfterTtl` | src/main/java/com/setup/authentication/services/RefreshTokenService.java:64-66 | past its 30 days, a fresh unrevoked token fails Expired |
| `Lifecycle.RevokedBeatsExpired` | src/main/java/com/setup/authentication/services/RefreshTokenService.java:60-66 | a row both revoked and expired fails Revoked, not Expired |
| `Lifecycle.ExpiryInstantIsAccepted` | src/main/java/com/setup/authentication/services/RefreshTokenService.java:64 | an unrevoked row is still accepted at the instant equal to its expiry |
| `Lifecycle.RevokeIsIdempotent` | src/main/java/com/setup/authentication/services/RefreshTokenService.java:72-78 | revoking twice equals revoking once |
| `Lifecycle.RevokedTokenFailsRevoked` | src/main/java/com/setup/authentication/services/RefreshTokenService.java:60-62 | after revoking a present token, validation fails Revoked at every instant |
| `Lifecycle.RevokeAllEndsEverySession` | src/main/java/com/setup/authentication/services/RefreshTokenService.java:81-83 | after revoke-all, each of the user's tokens fails NotFound and every other user's token validates as before |
| `Lifecycle.SweepsKeepAcceptedTokens` | src/main/java/com/setup/authentication/services/RefreshTokenService.java:89-109 | neither sweep removes a token that validation at the same instant accepts |
| `Lifecycle.SweptTokensWereRejected` | src/main/java/com/setup/authentication/services/RefreshTokenService.java:89-99 | every row the daily sweep removes is one validation rejects as Expired or Revoked |
| `Lifecycle.RefreshTokenService.CreateRefreshToken` | src/main/java/com/setup/authentication/services/RefreshTokenService.java:34-48 | returns the new value and the table becomes `Issue` of the old one |
| `Lifecycle.RefreshTokenService.ValidateRefreshToken` | src/main/java/com/setup/authentication/services/RefreshTokenService.java:51-69 | returns `Validate` of the table; it has no modifies clause, so the table is never changed |
| `Lifecycle.RefreshTokenService.RevokeToken` | src/main/java/com/setup/authentication/services/RefreshTokenService.java:72-78 | the table becomes `Revoke` of the old one |
| `Lifecycle.RefreshTokenService.RevokeAllUserTokens` | src/main/java/com/setup/authentication/services/RefreshTokenService.java:81-83 | the table becomes `WithoutOwner` of the old one |
| `Lifecycle.RefreshTokenService.CleanupExpiredTokens` | src/main/java/com/setup/authentication/services/RefreshTokenService.java:89-99 | on success the table becomes `WithoutExpired`; when the delete fails the table is unchanged and no error reaches the caller |
| `Lifecycle.RefreshTokenService.CleanupOldTokens` | src/main/java/com/setup/authentication/services/RefreshTokenService.java:105-109 | the table becomes `WithoutRevokedAndExpired` of the old one |
| `Flows.Rotate` | src/main/java/com/setup/authentication/services/AuthService.java:143-157 | refresh succeeds iff the presented token validates. On failure the validation error is returned and the table is unchanged. On success the old row is revoked, and the one new row is owned by the same user, unrevoked, expires exactly `now + 30 * 86400` and validates at once. Nothing else changes |
| `Flows.Login` | src/main/java/com/setup/authentication/services/AuthService.java:66-81 | an authentication exception propagates and a null principal fails LoginFailed, both with the table unchanged; otherwise exactly one row is added: the new token, owned by the principal, unrevoked, expiring exactly `now + 30 * 86400`; it validates and every old row is unchanged |
| `Flows.Register` | src/main/java/com/setup/authentication/services/AuthService.java:37-47 | fails EmailExist iff the e-mail is taken, then creating nothing; otherwise exactly one unverified user with that e-mail and password hash is added |
| `Flows.ConfirmEmail` | src/main/java/com/setup/authentication/services/AuthService.java:83-98 | a rejected token or an unknown user fails with the directory unchanged; otherwise the user is verified, and an already verified user leaves the directory untouched |
| `Flows.ResetPassword` | src/main/java/com/setup/authentication/services/AuthService.java:126-140 | a rejected token or an unknown user fails with the directory unchanged; otherwise only that user's password hash changes |
| `Flows.RotatedTokenCannotBeReused` | src/main/java/com/setup/authentication/services/AuthService.java:145-150 | after a successful refresh, validating or refreshing the old token fails Revoked |
| `Flows.RotatedTokenLivesFullTtl` | src/main/java/com/setup/authentication/services/AuthService.java:154 | the token a refresh issues validates for the next 30 days |
| `Flows.LogoutOnlyRevokes` | src/main/java/com/setup/authentication/services/AuthService.java:160-162 | logout keeps every row, with its value, owner and expiry; it can only set the presented row's revoked flag |
| `Flows.SecondRegistrationFails` | src/main/java/com/setup/authentication/services/AuthService.java:40-43 | registering the same e-mail twice fails EmailExist the second time and keeps the first user |
| `Flows.ConfirmEmailIsIdempotent` | src/main/java/com/setup/authentication/services/AuthService.java:93-97 | confirming twice gives the same result and directory as confirming once |
| `Flows.RegisterThenConfirmVerifies` | src/main/java/com/setup/authentication/services/AuthService.java:46-47 | after register, confirming that e-mail yields a verified user with the registered password hash |
| `Auth.UserRepository.FindByEmail` | src/main/java/com/setup/authentication/services/AuthService.java:88-91 | returns the user filed under the e-mail, or nothing iff there is none |
| `Auth.UserRepository.Save` | src/main/java/com/setup/authentication/services/UserService.java:39-42 | save inserts the user, or replaces the user with the same e-mail |
| `Auth.AuthService.Register` | src/main/java/com/setup/authentication/services/AuthService.java:37-64 | the result and the directory afterwards are those of `Flows.Register`; the token table is not touched |
| `Auth.AuthService.Login` | src/main/java/com/setup/authentication/services/AuthService.java:66-81 | the result and the table afterwards are those of `Flows.Login`, paired with the access token; the directory is not touched |
| `Auth.AuthService.ConfirmEmail` | src/main/java/com/setup/authentication/services/AuthService.java:83-98 | the result and the directory afterwards are those of `Flows.ConfirmEmail` |
| `Auth.AuthService.ResetPassword` | src/main/java/com/setup/authentication/services/AuthService.java:126-140 | the result and the directory afterwards are those of `Flows.ResetPassword` |
| `Auth.AuthService.RefreshToken` | src/main/java/com/setup/authentication/services/AuthService.java:143-157 | the result and the table afterwards are those of `Flows.Rotate`, paired with the access token; the directory is not touched |
| `Auth.AuthService.Logout` | src/main/java/com/setup/authentication/services/AuthService.java:160-162 | never fails; the table becomes `Revoke` of the old one |
| `History.Apply` | src/main/java/com/setup/authentication/services/RefreshTokenService.java:34-109 | no lifecycle event changes an existing row's value, owner or expiry, or clears its revoked flag; the only new rows are the values the event mints |
| `History.Run` | src/main/java/com/setup/authentication/services/RefreshTokenService.java:34-109 | every history keeps the table keyed by token value |
| `History.RunPreservesRows` | src/main/java/com/setup/authentication/services/RefreshTokenService.java:34-109 | after any history, an issued value is present only if it was present at the start, as a later state of the same row |
| `History.DeadTokenStaysDead` | src/main/java/com/setup/authentication/services/RefreshTokenService.java:51-78 | a revoked or deleted token fails NotFound or Revoked after any history |
| `History.ExpiredTokenStaysExpired` | src/main/java/com/setup/authentication/services/RefreshTokenService.java:64-66 | a token that fails Expired fails at every later instant after any history |
| `History.RefreshIsSingleUse` | src/main/java/com/setup/authentication/services/AuthService.java:143-157 | after one successful refresh, no history lets the same token be refreshed again |

## Left out

- Mail delivery is not part of this model. That covers `sendEmailConfirmation`, `sendResetPassword`, the confirmation e-mail sent by `register`, and its failure branch. Whether the new user survives a mail failure depends on the framework's rollback rules, not on visible code.
- JWT signing and parsing (`TokenService`) is not part of this model. Generated values and validation verdicts are parameters. The refresh token's own signed expiry claim is not modelled: the persisted expiry decides.
- Password encoding, the authentication manager in `login`, and `UserService` beyond save and set-password are foreign calls. Their outcomes are parameters.
- Users carry no role, creation or update timestamps. `register` returns the saved user rather than the response record with its fixed message. Refresh-token rows carry no surrogate id.
- A row's owner is the user's e-mail, which is unique in the directory. `deleteByUser` is matched on it.
- Concurrency, transactions and scheduling are not modelled. Operations run one at a time; the race between two simultaneous refreshes of the same token is not modelled, only its sequential counterpart (`History.RefreshIsSingleUse`). The cron trigger is not modelled; the sweeps are plain methods taking `now`.
- `Lifecycle.RefreshTokenService.CleanupExpiredTokens`: a failing delete is modelled as leaving the table unchanged. The framework's marking of the surrounding transaction as rollback-only is not modelled, and neither is logging.
- Store failures are modelled only where the code catches them (the daily sweep). Elsewhere, including the on-demand sweep `cleanupOldTokens`, a failing repository call would propagate as an exception; that path is not modelled.
- Each request reads the clock once, in whole seconds. The instant-range overflow of `Instant.plus` is not modelled.
- HTTP controllers, cookies, status mapping and product CRUD are outside the core.
