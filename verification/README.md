# TSAUTH: a verified model

TSAUTH is a multi-tenant authentication platform: a Go auth service over Postgres and Redis, a NestJS admin service over
the same stores, and browser-side tooling. This project models four of its parts in Dafny and proves what they promise.
`dafny verify dfyconfig.toml` checks everything.

**Sessions, refresh tokens and revocation.** Postgres is the authority; two Redis caches with expiry times answer first;
clients hold signed claims. The protocol is modelled twice.

- Grain A: every HTTP handler is one atomic step. `Domain`, `Transactions` (the SQL transactions, the database invariant,
  what never changes back), `Handlers` (each handler as a step on database, caches, issued claims and history),
  `HistorySpec` (validity of a token as a function of the history alone), `Refinement`, `Finality`, `TtlCoverage`,
  `SecondFactor` (the login in two steps), `ResetTokens`, `SessionLaws` (how long a login lasts and exactly what ends it).
  `SessionRepository` and `AuthService` hold the imperative classes, each method proved to perform exactly the step that
  the specification names.
  The rows that the deletion of an organization removes stay as tombstones; `Tombstones` proves that nothing can tell.
- Grain B: every SQL transaction or statement and every Redis command is one step, any number of requests are in flight,
  each with a program counter. `Interleaving`, `InterleavingResults`, `Issuance` and `LogoutAllKey`.
- `Grains` relates the two: a request that runs alone performs its handler's step, so every run of grain A is one of the
  interleavings of grain B.

Redis keys may vanish at any moment (`Evict`), every Redis command may fail (`Faults`, `ok`), time is a number of
milliseconds that never decreases, claims count whole seconds. A key that is past its expiry instant is ignored by reads.

**The rate limiter.** `RateLimit` is the Lua token bucket over exact arithmetic, compared with a reference limiter that
remembers every request; `RateHeaders` is the header arithmetic and the limiter as an object.

**Printers and parsers.** `Decimal`, `Base64`, `PasswordHash` (the encoded Argon2id string) and `Slug` (both slugify
functions and the onboarding loop). `Base64Bits`, `PasswordFormat` and `SlugLetters` say what the strings are, bit by bit
and letter by letter.

**Tenants and telemetry.** `Rbac`, `RbacResults`, `RbacLaws`, `RbacServices` (roles, permissions, invitations over whole runs) and
`Collector`, `CollectorPage` (the debug collector's bounded buffers).

## What turned out not to hold

Each of these is stated with its exact condition, and where it is a failure, with a run that reaches it.

- A configured access-token lifetime above fifteen minutes outlives the blacklist key, although the comment beside the
  write says the token has expired by then (`auth_handler.go:737`): `TtlCoverage.LongTokensOutliveTheBlacklist`,
  `LogoutCoverageIff` and `LogoutAllCoverageIff`. The
  database still refuses such a token, so verification as a whole is unaffected. The day that removeMember writes covers
  lifetimes up to a day exactly if nobody writes the key again: `TtlCoverage.RemovalCoverageIff`.
- At grain B removing a member is not final if a login of that member has already read the user row:
  `InterleavingResults.LoginStraddlingRemoval`; `RemovalIsFinalIff` gives the condition, `Issuance.RemovalBoundsIssuance`
  and `RemovedMemberIsOut` the bound on the damage. Likewise a refresh in flight can hand out a token of a revoked
  session: `Issuance.RefreshStraddlingLogout`, and exactly when none can, `RevokedIsSilentIff`.
- At grain B the logout-all key can refuse a token that the database accepts:
  `InterleavingResults.LoginStraddlingLogoutAll`; `LogoutAllKey.KeyAgreesIff` and `KeyAgreesForeverIff` say exactly when
  it never does.
- A session past its thirty days can still be rotated; the access token that comes out is refused:
  `Finality.ExpiredSessionStillRotates`, and a run that does it, `Finality.LateRefreshIsRefused`.
- Expiry of a limiter's key after a day is invisible exactly for windows of at most a day: `RateLimit.WindowsUpToADay`.
- The two slugify functions disagree exactly on names with a dotted capital I (U+0130) inside a word, because JavaScript
  lowers it to two characters: `Slug.SlugifiersAgreeIff`. On ASCII names they agree.
- An address can join an organization twice after a profile edit: `RbacResults.EditedAddressJoinsAgain`;
  `AddressJoinsAgainIff` says exactly when.
- A removed member's address passes the invitation check for ever and can never be accepted, because the unique
  constraint also counts deleted rows: `RbacResults.RemovedMembersCannotReturn`.
- A role deleted between invitation and acceptance leaves a member without a role and an invitation that can no longer be
  used: `RbacResults.AddressJoinsOnce`, and a run that does it, `RbacResults.DeletedRoleOrphansInvitation`.
- The invitation's check compares the address as typed with the stored form, so another spelling of a member's address is
  invited and can never be accepted: `RbacLaws.OtherSpellingIsInvited`.
- A name that leaves no letter has the empty slug, and the candidates after it begin with a dash, which no slug does:
  `SlugLetters.CandidatesSpelled`.
- With overlapping reports the debug collector's buffers can get out of order; they stay in order exactly when every
  failed report found the buffer full or holding nothing older: `Collector.SortedIffTidy`.

## Model

| member | source | states |
|---|---|---|
| Refinement.VerifyRefinesHistory | auth-service/internal/delivery/http/auth_handler.go:575-634 | In every run from empty tables, with Redis losing keys and failing at will, a released token is accepted iff it is unexpired, its session was created and is unexpired, and no logout, logout-all, reset, replay, removal or organization deletion hit the session afterwards. |
| Tombstones.VerifyRefinesHistoryPurging | migrations/000001_init_schema.up.sql:89-126 | The same when the deletion of an organization really removes its rows, for every run whose random identifiers are new. |
| Tombstones.RunsAlike | migrations/000001_init_schema.up.sql:89-126 | Every run that keeps the deleted rows as tombstones and the run that removes them differ in nothing but the tombstones and the history. |
| Tombstones.AnswersAgree | auth-service/internal/delivery/http/auth_handler.go:353-939 | No request is answered with a different token, whether the deleted rows are kept as tombstones or removed. |
| Refinement.CachesAreTransparent | auth-service/internal/delivery/http/auth_handler.go:575-634 | Two worlds satisfying the invariant that differ only in their caches, under any two fault patterns, give the same verdict on every token. |
| Refinement.RefusalLasts | auth-service/internal/delivery/http/auth_handler.go:612-634 | A token refused once is refused through the rest of every run. |
| Refinement.RunSteps | auth-service/internal/delivery/http/auth_handler.go:353-1180 | Every run keeps the invariant (claims bound to session rows, blacklist and logout-all keys only where the database refuses, history and rows in agreement) and never takes a revocation, a deletion, an expiry or an issued claim back. |
| HistorySpec.HistoryReadsDatabase | auth-service/internal/delivery/http/auth_handler.go:621-624 | Where history and rows are in agreement, the database layer alone decides what the history decides. |
| AuthService.AuthHandler.Verify | auth-service/internal/delivery/http/auth_handler.go:541-681 | The three reads in their order and the write-back give the verdict Accepts and exactly the step Handlers.Verify. |
| AuthService.AuthHandler.InternalVerifyToken | auth-service/internal/delivery/http/auth_handler.go:1616-1750 | The second implementation of the three layers reaches the same verdict and leaves the same caches. |
| AuthService.AuthHandler.Login | auth-service/internal/delivery/http/auth_handler.go:353-539 | Exactly one step of the specification; a token comes back iff the user is present and active, the password is right and either MFA is on or the rows can be inserted, and it is the user's MFA token (what that is good for: `SecondFactor`) or the access token of the session just created. |
| AuthService.AuthHandler.MfaVerify | auth-service/internal/delivery/http/auth_handler.go:1403-1614 | Exactly one step of the specification; a token comes back iff the MFA token is valid, the code is right, the user is present and the rows can be inserted, and it is the access token of the session just created. |
| AuthService.AuthHandler.Refresh | auth-service/internal/delivery/http/auth_handler.go:813-939 | Exactly one step of the specification; a token comes back iff the hash is unspent and unexpired and the session's owner is present, and it is an access token of that owner for the spent token's session. |
| AuthService.AuthHandler.Logout | auth-service/internal/delivery/http/auth_handler.go:683-746 | Revokes session and tokens in the database and then sets the blacklist key, as the specification says. |
| AuthService.AuthHandler.LogoutAll | auth-service/internal/delivery/http/auth_handler.go:748-811 | Revokes everything of the user and then records the second in the user key. |
| AuthService.AuthHandler.PasswordResetConfirm | auth-service/internal/delivery/http/auth_handler.go:1075-1179 | Succeeds iff the reset token is unused and unexpired; then stores the new password's hash for a present user, marks the token used in place and revokes all sessions of its user. Otherwise changes nothing. |
| AuthService.MembershipsService.RemoveMember | admin-service/src/memberships/memberships.service.ts:249-308 | Soft delete, flagging of active sessions and the blacklist pipeline are exactly one step of the specification; refresh tokens are untouched. |
| AuthService.OrganizationsService.Remove | admin-service/src/organizations/organizations.service.ts:91-100 | The deletion with its cascade is exactly one step of the specification; no Redis key is written. |
| AuthService.Redis.BlacklistEach | admin-service/src/memberships/memberships.service.ts:291-300 | The loop that fills the pipeline leaves exactly the found and reached sessions blacklisted for a day, whatever the order. |
| SessionRepository.Repository.CreateSessionAndToken | auth-service/internal/repository/session_repository.go:41-91 | Both rows are inserted, or neither. |
| SessionRepository.Repository.RevokeSession | auth-service/internal/repository/session_repository.go:120-148 | The session and all its tokens are flagged and nothing else changes. |
| SessionRepository.Repository.RevokeAllUserSessions | auth-service/internal/repository/session_repository.go:151-179 | Flagging only the unrevoked rows of a user flags all of that user's rows. |
| SessionRepository.Repository.UpdatePassword | auth-service/internal/repository/user_repository.go:215-227 | Replaces the hash of a present user and of nobody else; a soft-deleted row is left alone. |
| SessionRepository.Repository.DeleteOrganization | migrations/000001_init_schema.up.sql:24-126 | The cascade reaches exactly the organization's users, sessions, refresh tokens and reset tokens. |
| SessionRepository.Repository.RotateRefreshToken | auth-service/internal/repository/session_repository.go:202-289 | The numbered statements give exactly the specified outcome and database: unknown, replayed (family revoked), rolled back, or rotated with the session's expiry untouched. |
| Transactions.RotateKeeps | auth-service/internal/repository/session_repository.go:202-289 | Rotation keeps the database invariant (one live token per session, tokens matching sessions, lifetimes bounded) and takes nothing back. |
| Transactions.SpentPair | auth-service/internal/repository/session_repository.go:231-252 | After a successful rotation the old hash is dead and the new hash is the session's only live token. |
| Transactions.RevokeSessionKeeps | auth-service/internal/repository/session_repository.go:120-148 | Revoking a session keeps the invariant and leaves the whole family dead. |
| Transactions.RevokeAllKills | auth-service/internal/repository/session_repository.go:151-179 | Revoking a user in bulk leaves none of the user's sessions and none of their tokens alive. |
| Transactions.FlagUserSessionsKeeps | admin-service/src/memberships/memberships.service.ts:282-288 | Flagging sessions without their tokens keeps the invariant because the owner is already soft-deleted. |
| Transactions.BulkRevocationIsRepeatedRevocation | auth-service/internal/repository/session_repository.go:120-179 | Revoking a user in bulk gives the database that revoking the user's sessions one by one gives, in any order and with repetitions. |
| Finality.MintedForTheLiving | auth-service/internal/delivery/http/auth_handler.go:876-913 | A token is handed out only for an undeleted user and an unrevoked session, although rotation itself does not test the session's flag. |
| Finality.IssuedIsMinted | auth-service/internal/delivery/http/auth_handler.go:876-913 | A step hands out at most one token and issues exactly what it hands out. |
| Finality.NothingMintedAfterRevocation | auth-service/internal/delivery/http/auth_handler.go:876-913 | After its revocation no later request of any run is answered with a token of the session, not even with claims equal to earlier ones. |
| Finality.NothingMintedForTheRemoved | auth-service/internal/repository/user_repository.go:229-255 | After a soft delete no later request of any run is answered with a token of the user. |
| Finality.NothingIssuedAfterRevocation | auth-service/internal/delivery/http/auth_handler.go:876-913 | In every run, a token of a revoked session was issued before the revocation. |
| Finality.RemovedMemberStaysOut | auth-service/internal/repository/user_repository.go:229-255 | After a soft delete no token of the user is issued or accepted in any continuation. |
| Finality.RemoveMemberIsFinal | admin-service/src/memberships/memberships.service.ts:249-301 | The same, counted from the removeMember call, however many of its SET commands got through. |
| Finality.OrganizationRemovalIsFinal | admin-service/src/organizations/organizations.service.ts:91-100 | After an organization is deleted none of its tokens issued so far is accepted in any continuation. |
| Finality.NothingMintedAfterOrganizationRemoval | admin-service/src/organizations/organizations.service.ts:91-100 | And no later request of any run is answered with a token of one of its users. |
| Finality.LogoutIsFinal | auth-service/internal/delivery/http/auth_handler.go:725-739 | After a logout no token of that session is accepted in any continuation, even if the Redis write failed. |
| Finality.LogoutAllIsFinal | auth-service/internal/delivery/http/auth_handler.go:790-804 | After a logout-all no token of the user issued so far is accepted in any continuation. |
| Finality.PasswordResetIsFinal | auth-service/internal/delivery/http/auth_handler.go:1167-1171 | After a password reset no token of the user issued so far is accepted in any continuation. |
| Finality.ReplayIsFinal | auth-service/internal/repository/session_repository.go:231-236 | Presenting a spent, unexpired refresh token ends its session for good. |
| Finality.LoginIsAccepted | auth-service/internal/delivery/http/auth_handler.go:447-539 | A completed login issues exactly one new token, and it is accepted at once under any fault pattern. |
| Finality.RefreshIsAccepted | auth-service/internal/delivery/http/auth_handler.go:834-913 | A refresh yields an accepted token iff the hash is unspent, the session is unexpired and its owner is not deleted. |
| Finality.RefreshMints | auth-service/internal/delivery/http/auth_handler.go:834-913 | Exactly which token a refresh hands out: iff the hash is known, unexpired and unspent and its owner is not deleted, whatever the session's expiry. |
| Finality.ExpiredSessionStillRotates | auth-service/internal/repository/session_repository.go:257-286 | In every state a live token of an expired session is rotated, and the token that comes out is refused under any fault pattern. |
| Finality.LateRefreshIsRefused | auth-service/internal/delivery/http/auth_handler.go:813-939 | Such a state is reached: a session of day zero, refreshed on day twenty and again on day forty. |
| SecondFactor.SecondStepMintsIff | auth-service/internal/service/token_service.go:116-149 | In every continuation the token of an MFA login, presented with fresh ids, gives its user an access token iff the code is right, the user is still there and the clock is before (now + 300000)/1000 seconds; otherwise nothing. |
| SecondFactor.SecondStepIsAccepted | auth-service/internal/delivery/http/auth_handler.go:1403-1614 | The access token of the second step is its user's and accepted at once, under any fault pattern. |
| SecondFactor.TwoStepLogin | auth-service/internal/delivery/http/auth_handler.go:353-1614 | Password and code one after the other, whatever happens in between, end in an accepted access token within those five minutes. |
| SecondFactor.AccessTokenIsNoSecondFactor | auth-service/internal/service/token_service.go:147-149 | In every run a token with a session never passes the second step, whatever code comes with it. |
| SecondFactor.MfaTokenIsNeverAccepted | auth-service/internal/delivery/http/auth_handler.go:586-624 | An MFA token is accepted by verification in no world at all. |
| ResetTokens.ConfirmedOnce | auth-service/internal/delivery/http/auth_handler.go:1118-1168 | After a successful confirmation, in every continuation, confirming with the same token is refused and changes nothing. |
| ResetTokens.ConfirmableForAnHour | auth-service/internal/delivery/http/auth_handler.go:1045-1140 | A token requested for a present user can be confirmed, in every continuation, exactly until 3600000 ms later, until it is confirmed, or until the user's organization is deleted. |
| ResetTokens.NoTokenForTheAbsent | auth-service/internal/delivery/http/auth_handler.go:1033-1044 | A request for nobody, or for a deleted user, changes nothing. |
| ResetTokens.ConfirmationEndsSessions | auth-service/internal/delivery/http/auth_handler.go:1167-1171 | A confirmation revokes exactly the unrevoked sessions of the token's user and touches no other session. |
| SessionLaws.RevokedIffEnded | auth-service/internal/delivery/http/auth_handler.go:683-1180 | In every run a session is revoked iff one of six requests was made: a logout with one of its tokens, a logout-all or a confirmed reset of its user, a replay of one of its spent tokens, the user's removal, the organization's deletion. Its end never moves. |
| SessionLaws.SpentIffUsedUp | auth-service/internal/repository/session_repository.go:120-289 | In every run a refresh token is spent or revoked iff it was rotated or its session ended other than by the user's removal. |
| SessionLaws.PresentUntilTakenAway | admin-service/src/memberships/memberships.service.ts:265-275 | In every run a user is there until removed by the own organization or deleted with it, unchanged until then. |
| SessionLaws.RemovedRow | admin-service/src/memberships/memberships.service.ts:265-269 | Removal disables exactly the member's row and marks it deleted. |
| SessionLaws.RegisteredIsPresent | auth-service/internal/delivery/http/auth_handler.go:81-199 | Registration makes a present, active user of the organization and touches nothing else; a used id changes nothing. |
| SessionLaws.LoginMintsIff | auth-service/internal/delivery/http/auth_handler.go:353-456 | A login is answered with a token iff the user is present and active and the password right, and, without MFA, the ids are new; otherwise nothing changes. |
| SessionLaws.LoginRows | auth-service/internal/delivery/http/auth_handler.go:457-506 | The session and the refresh token both end 2592000000 ms later, the claims name user, organization and session and end the configured minutes later; no other row changes. |
| SessionLaws.AcceptedIff | auth-service/internal/delivery/http/auth_handler.go:575-634 | In every continuation a token is accepted iff neither it nor its session has expired and none of the six requests was made. |
| SessionLaws.LoginLasts | auth-service/internal/delivery/http/auth_handler.go:447-539 | So a login's token is accepted in every continuation exactly until the configured minutes, in whole seconds, or thirty days have passed or one of the six requests was made. |
| SessionLaws.OnboardLasts | auth-service/internal/delivery/http/auth_handler.go:201-351 | The same for the owner's token that onboarding hands out. |
| SessionLaws.RotationRows | auth-service/internal/repository/session_repository.go:238-265 | A refresh that is answered flags the spent token, inserts a successor that ends 2592000000 ms from now, stamps the session's activity with the instant, leaves the session's end where it was, and changes nothing else. |
| SessionLaws.TokenLasts | auth-service/internal/delivery/http/auth_handler.go:834-913 | In every continuation a live refresh token is answered iff it has not expired, was not used up and its user was not taken away. |
| SessionLaws.LoginRefreshes | auth-service/internal/delivery/http/auth_handler.go:458-506 | A login's refresh token so lasts thirty days from the login. |
| SessionLaws.RotationRefreshes | auth-service/internal/delivery/http/auth_handler.go:874-913 | And a successor thirty days from its rotation. |
| SessionLaws.LogoutKeysLast | auth-service/internal/delivery/http/auth_handler.go:737-804 | The keys of a logout and of a logout-all expire 900000 ms later, and the latter records the second. |
| SessionLaws.RefusalKeyLasts | auth-service/internal/delivery/http/auth_handler.go:621-624 | A refusal by the database, and no other verdict, is written back, for 900000 ms. |
| SessionLaws.RemovalKeysLast | admin-service/src/memberships/memberships.service.ts:290-300 | Each reached session of a removed member is blacklisted for 86400000 ms. |
| TtlCoverage.LogoutCovers | auth-service/internal/delivery/http/auth_handler.go:737-739 | With lifetimes up to fifteen minutes, the key written by a logout refuses every token of the session until its exp, through later overwrites. |
| TtlCoverage.RemoveMemberCovers | admin-service/src/memberships/memberships.service.ts:290-300 | The same for every session removeMember reached, although later writes of the key use a shorter lifetime. |
| TtlCoverage.RemovalCoverageIff | admin-service/src/memberships/memberships.service.ts:290-300 | Exactly which lifetimes the key of a removal covers in every run: fifteen minutes if a logout or a blind verification may write the key again, a day if none does. |
| TtlCoverage.UntouchedRemovalCovers | admin-service/src/memberships/memberships.service.ts:292-298 | With lifetimes up to a day and nobody rewriting the key, it alone refuses every token of the session until its exp. |
| TtlCoverage.LogoutAllCovers | auth-service/internal/delivery/http/auth_handler.go:576-583 | The user key alone refuses every token with iat before the recorded second until its exp, and none issued in that second. |
| TtlCoverage.LogoutCoverageIff | auth-service/internal/delivery/http/auth_handler.go:737-739 | The key of a logout covers in every run exactly the configured lifetimes up to fifteen minutes. |
| TtlCoverage.LogoutAllCoverageIff | auth-service/internal/delivery/http/auth_handler.go:802-804 | The key of a logout-all covers in every run exactly the configured lifetimes up to fifteen minutes. |
| TtlCoverage.LongTokensOutliveTheBlacklist | auth-service/internal/service/token_service.go:63-85 | For every configured lifetime above fifteen minutes there is a run in which the key is gone while the token is unexpired. |
| Interleaving.ExecKeeps | auth-service/internal/repository/session_repository.go:41-289 | Every interleaving of any number of requests keeps the invariant of the fine-grained machine. |
| InterleavingResults.RotationIsLinear | auth-service/internal/repository/session_repository.go:202-289 | In every interleaving a session has at most one live token, a hash wins at most once, and two arrivals with one hash leave the family dead with no later winner. |
| InterleavingResults.ReplayEndsTheFamily | auth-service/internal/repository/session_repository.go:231-236 | After two arrivals with one hash, in every continuation the session stays revoked without live tokens and no rotation in the family succeeds. |
| InterleavingResults.DeadFamilyNeverWins | auth-service/internal/repository/session_repository.go:224-236 | No continuation rotates a token of a dead family. |
| InterleavingResults.TokensAreConserved | auth-service/internal/repository/session_repository.go:239-255 | A session owns exactly one token row for its creation and one for each rotation won in it, in every interleaving. |
| InterleavingResults.BlacklistIsSound | auth-service/internal/delivery/http/auth_handler.go:621-624 | At every point of every interleaving a blacklisted session is refused by the database, now and in all later states. |
| InterleavingResults.RefusedIsNeverAccepted | auth-service/internal/delivery/http/auth_handler.go:612-634 | Once the database refuses a session, no request lets one of its tokens through, not even a verification already under way. |
| InterleavingResults.LifetimeIsAbsolute | auth-service/internal/repository/session_repository.go:257-265 | However often a session is rotated, nothing of it is accepted later than creation plus thirty days, and what is accepted names the session's own user and organization. |
| InterleavingResults.ReleasedClaimsAgree | auth-service/internal/delivery/http/auth_handler.go:457-470 | Every token ever released agrees with its session row on user and organization. |
| InterleavingResults.RemovalIsFinalIff | admin-service/src/memberships/memberships.service.ts:265-288 | A deleted user's sessions stay revoked in every continuation iff all are revoked now and no creation request of the user is past its user lookup. |
| InterleavingResults.LoginStraddlingRemoval | auth-service/internal/delivery/http/auth_handler.go:370-506 | There is an interleaving in which a login reads the user before removeMember, commits after it, and leaves the removed member an unrevoked session. |
| InterleavingResults.LoginStraddlingLogoutAll | auth-service/internal/delivery/http/auth_handler.go:790-804 | There is an interleaving in which the database accepts a session whose unexpired token the logout-all key refuses. |
| LogoutAllKey.KeyAgreesIff | auth-service/internal/delivery/http/auth_handler.go:790-804 | As long as nobody asks for another logout-all of the user, the key refuses by age only tokens of revoked sessions in every continuation iff it does now, no creation with an older token is about to commit, no session of the user can come into being while a logout-all is in flight, and one past its revocation has left none unrevoked. |
| LogoutAllKey.KeyAgreesForeverIff | auth-service/internal/delivery/http/auth_handler.go:790-804 | Whatever is asked for, it does so iff in addition no session of the user can come into being at all. |
| LogoutAllKey.KeyInvReachable | auth-service/internal/delivery/http/auth_handler.go:506-506 | The invariant this rests on, no recorded second in the future and every session with a released token, holds of every interleaving. |
| Issuance.RevokedIsSilentIff | auth-service/internal/delivery/http/auth_handler.go:876-913 | At grain B a revoked session hands out no further token in any continuation iff no refresh of it has already rotated and will still find its user. |
| Issuance.RefreshStraddlingLogout | auth-service/internal/delivery/http/auth_handler.go:876-913 | There is an interleaving from empty tables in which a refresh straddles a logout and hands out a token of the revoked session. |
| Issuance.RemovalBoundsIssuance | admin-service/src/memberships/memberships.service.ts:265-288 | At grain B at most as many tokens of a removed member are handed out, in any continuation, as there were requests past the user lookup; the straggling session is never refreshed. |
| Issuance.RemovedMemberIsOut | admin-service/src/memberships/memberships.service.ts:265-301 | At grain B, once those requests are done and their tokens have expired, nothing of the member is accepted again in any continuation. |
| Grains.RequestPerformsItsStep | auth-service/internal/delivery/http/auth_handler.go:353-1180 | Whatever else is in flight and however its moves are made, a request that runs alone to its end with the operation's identifiers and Redis outcomes has exactly the effect of its handler's step and lets through exactly what the handler accepts. |
| Grains.RequestCanRun | auth-service/internal/delivery/http/auth_handler.go:353-1180 | Every operation can be played so, from every machine that agrees with the coarse state. |
| Grains.RunsAreInterleavings | auth-service/internal/delivery/http/auth_handler.go:353-1180 | Every run of whole handlers is an interleaving of single statements with the same rows, keys and access tokens. |
| RateLimit.BucketEqualsSlidingLog | auth-service/internal/delivery/middleware/rate_limit.go:21-41 | For non-decreasing clocks the constant-size bucket takes on every call the decision of a limiter that keeps the whole log. |
| RateLimit.BucketIsMinimumOverWindows | auth-service/internal/delivery/middleware/rate_limit.go:25-34 | The tokens available to a call are the minimum over all windows ending now of limit plus accrual minus admissions. |
| RateLimit.BucketBounds | auth-service/internal/delivery/middleware/rate_limit.go:25-43 | For arbitrary clocks the tokens stay in [0, limit] and last_refreshed is the running maximum. |
| RateLimit.AdmissionsAreFunded | auth-service/internal/delivery/middleware/rate_limit.go:25-43 | For arbitrary clocks any stretch of calls, also from the first, leaves and admits at most the tokens at its start plus what accrued as last_refreshed moved. |
| RateLimit.AdmissionsAreBounded | auth-service/internal/delivery/middleware/rate_limit.go:25-43 | The same in terms of the clocks: what accrues is bounded by the distance of their running maxima. |
| RateLimit.ExpiryInvisibleIff | auth-service/internal/delivery/middleware/rate_limit.go:43-44 | Dropping the key a day after its last use changes no decision and no stored state, for every request sequence, iff a day refills an empty bucket. |
| RateLimit.WindowsUpToADay | auth-service/internal/delivery/middleware/rate_limit.go:44-51 | For a limiter built from a count and a window, that is iff the window is at most 86400000 ms. |
| RateHeaders.RemainingIsExact | auth-service/internal/delivery/middleware/rate_limit.go:84-95 | The Remaining header is exactly the number of further calls at that instant that will be admitted, through both roundings. |
| RateHeaders.RetryAfterIsHonest | auth-service/internal/delivery/middleware/rate_limit.go:97-104 | A refused client that waits Retry-After seconds is admitted unless someone else was meanwhile. |
| RateHeaders.RetryIsLeast | auth-service/internal/delivery/middleware/rate_limit.go:97-104 | One second less than a Retry-After above one would not have earned the token that the header reckons with. |
| RateHeaders.RetryAfterIsTight | auth-service/internal/delivery/middleware/rate_limit.go:97-104 | A client that comes back a second earlier finds less than a token, up to the thousandth the script rounds away, and is refused if nothing was rounded. |
| RateHeaders.ResetIsHonest | auth-service/internal/delivery/middleware/rate_limit.go:86-93 | One second after the Reset header, without admissions in between, the bucket is full. |
| RateHeaders.ResetIsTight | auth-service/internal/delivery/middleware/rate_limit.go:86-93 | At the Reset second the refill has not exceeded what was missing: the header is not late. |
| RateHeaders.Limiter.Eval | auth-service/internal/delivery/middleware/rate_limit.go:14-46 | The script's assignments perform exactly one call of the specification and return its verdict and thousandths. |
| RateHeaders.Limiter.Handle | auth-service/internal/delivery/middleware/rate_limit.go:49-120 | One request performs one call. It is let through iff the call is admitted, and, with clocks that never run backwards, iff the sliding log over all requests so far allows it; Retry-After is sent iff it is refused. Without Redis it passes and nothing is stored. |
| Decimal.ValueOfPrint | auth-service/internal/service/password_service.go:82-83 | Printing a number in decimal and reading the digits gives the number back. |
| Decimal.NoLeadingZero | auth-service/internal/service/password_service.go:82-83 | No number but zero is printed with a leading zero. |
| Decimal.ValueOfCons | auth-service/internal/service/password_service.go:82-83 | The first digit of a numeral counts highest. |
| Base64.RoundTrip | auth-service/internal/service/password_service.go:79-80 | Decoding recovers every byte string that was encoded, and the encoding uses alphabet symbols only. |
| Base64.ReencodedIff | auth-service/internal/service/password_service.go:111-119 | An accepted string is the canonical encoding of its bytes iff it has no line breaks and its spare bits are zero. |
| Base64Bits.TheTable | auth-service/internal/service/password_service.go:79-80 | The table is the capitals, the small letters, the digits, + and /, so the statements about it are not empty. |
| Base64Bits.SymbolsAreTableOne | auth-service/internal/service/password_service.go:79-80 | Symbols and their values are those of table 1 of RFC 4648, in its order. |
| Base64Bits.EncodeSpellsTheBits | auth-service/internal/service/password_service.go:79-80 | The text spells the bits of the bytes, six to a character and highest first, padded with fewer than six zeros. |
| Base64Bits.DecodeReadsTheBits | auth-service/internal/service/password_service.go:113-121 | A text is accepted iff it holds only table characters and line breaks and the former do not leave a single one over; the bytes are then the leading bits it spells. |
| PasswordHash.ParseRecoversPrint | auth-service/internal/service/password_service.go:71-119 | For all parameters, salts and hashes, splitting, scanning and decoding recover exactly what was printed. |
| PasswordHash.VerifyAgreesWithKdf | auth-service/internal/service/password_service.go:89-129 | A password verifies against another's hash iff the key derivation, given the printed salt, parameters and key length, gives the same for both, under any configuration of the verifying service; it panics iff the derivation does. |
| PasswordHash.OwnPasswordVerifies | auth-service/internal/service/password_service.go:89-129 | The password that was hashed verifies, under any configuration of the verifying service. |
| PasswordHash.PrintHashIsInjective | auth-service/internal/service/password_service.go:82-83 | Different parameters, salts or hashes never print alike. |
| PasswordHash.ScanPrintedParams | auth-service/internal/service/password_service.go:105-109 | The scan of the parameter field recovers all three numbers at their full widths. |
| PasswordFormat.PrintedHash | auth-service/internal/service/password_service.go:82-83 | The printed string is $argon2id$v=19$m=..,t=..,p=..$salt$hash, letter by letter. |
| PasswordFormat.ReadsTheShape | auth-service/internal/service/password_service.go:89-121 | What every string of that shape is read as, for any numerals: version 19 of argon2id with numbers in range and sound base64 gives exactly its parts, everything else the error of the first check it fails. |
| PasswordFormat.InvalidFormatIff | auth-service/internal/service/password_service.go:90-93 | A string is refused for its format iff it does not hold five dollar signs. |
| Slug.SlugifiersAgreeIff | auth-service/internal/delivery/http/auth_handler.go:71-77 | The Go and the TypeScript slug of a name are equal iff no dotted capital I stands inside a word of it. |
| Slug.SlugifiersAgreeOnAscii | admin-service/src/organizations/organizations.service.ts:12-18 | On every ASCII name the two are equal, although one trims all end dashes and the other one at each end. |
| Slug.SlugsAreJoinedWords | admin-service/src/organizations/organizations.service.ts:12-18 | Both functions return the maximal a-z0-9 runs of the lowered text joined by single dashes. |
| Slug.SlugsAreTheFixedPoints | auth-service/internal/delivery/http/auth_handler.go:71-77 | Every result is empty or dash-joined groups, and such strings are exactly those either function leaves alone. |
| Slug.SlugifyIsIdempotent | auth-service/internal/delivery/http/auth_handler.go:71-77 | Either service's slug passes unchanged through both functions. |
| Slug.AllocateSlug | auth-service/internal/delivery/http/auth_handler.go:231-247 | The unbounded loop ends within one lookup more than there are taken slugs and returns the first free one of base, base-1, base-2, ..., or stops at the first failing lookup. |
| Slug.TakenCandidates | auth-service/internal/delivery/http/auth_handler.go:235-247 | As many taken candidates need as many taken slugs, since no two candidates are equal. |
| Slug.SomeCandidateIsFree | auth-service/internal/delivery/http/auth_handler.go:235-247 | Whatever slugs are taken, one of the first candidates, one more than there are taken slugs, is free. |
| SlugLetters.SlugKeepsTheLetters | auth-service/internal/delivery/http/auth_handler.go:71-77 | Without its dashes either slug is, for every name, the letters and digits of the name in order, each capital replaced by its partner in the written-out alphabet. |
| SlugLetters.SeparatorBecomesDash | admin-service/src/organizations/organizations.service.ts:12-18 | Any other character cuts the name: both sides are slugified by themselves and joined by one dash if both leave something. |
| SlugLetters.LettersMakeOneWord | admin-service/src/organizations/organizations.service.ts:12-18 | A name of letters and digits alone becomes one word, in TypeScript iff no dotted capital I stands before its last letter. |
| SlugLetters.SlugsIgnoreCase | auth-service/internal/delivery/http/auth_handler.go:71-77 | A name and its spelling in small letters have one slug, in both services. |
| SlugLetters.CandidatesSpelled | auth-service/internal/delivery/http/auth_handler.go:235-247 | Candidates are the base, a dash and the decimal number; each is a slug iff the base is not empty or it is the first. |
| SlugLetters.CleanTrimsAndLowers | auth-service/internal/delivery/http/auth_handler.go:138-138 | The stored form of an ASCII address is the address without the blanks at its ends, in small letters. |
| SlugLetters.AddressesIgnoreCase | auth-service/internal/delivery/http/auth_handler.go:138-138 | Addresses that differ only in capitals have one stored form. |
| Rbac.RunKeeps | admin-service/src/memberships/memberships.service.ts:107-180 | In every run of both services over all tenants, user_roles links users and roles of one organization, and names, addresses and bindings stay unique and grounded. |
| RbacResults.SystemRolesAreFixed | admin-service/src/rbac/rbac.service.ts:84-142 | A system role keeps its name and permission set through every run that does not delete its organization. |
| RbacResults.AssignSucceedsIff | admin-service/src/rbac/rbac.service.ts:159-186 | The count comparison accepts exactly duplicate-free lists of existing permissions for the organization's own non-system role; a refusal changes nothing. |
| RbacResults.AssignedPermissionsAreEffective | auth-service/internal/repository/user_repository.go:130-183 | After an assignment every user's permissions are the union over the user's roles, with exactly the assigned ones for that role. |
| RbacResults.DeletedRoleStopsGranting | admin-service/src/rbac/rbac.service.ts:122-142 | After a deletion every user's permissions are the union over the user's other roles. |
| RbacResults.GrantsComeFromAssignments | admin-service/src/rbac/rbac.service.ts:159-210 | In every run, what a role grants was granted at the start or is on a list since assigned to that role. |
| RbacResults.RolesComeFromInvitations | admin-service/src/memberships/memberships.service.ts:159-170 | In every run, a role that a user holds was held at the start or came with an invitation the user has since accepted. |
| RbacResults.CreatedRoleIsEarned | admin-service/src/rbac/rbac.service.ts:22-51 | A created role starts empty: every holder has since accepted an invitation with it and every permission has since been assigned to it, even if its id was in use before. |
| RbacResults.RemovedMembersCannotReturn | admin-service/src/memberships/memberships.service.ts:67-79 | After a removal, in every run, inviting the address succeeds iff the role exists, and accepting any such invitation is refused without effect. |
| RbacResults.InvitationGivesItsRole | admin-service/src/memberships/memberships.service.ts:55-180 | Whatever happens in between, whoever accepts an invitation becomes a member of the inviting organization under the invited address, with the invited role and no other and exactly its permissions. |
| RbacResults.AddressJoinsOnce | admin-service/src/memberships/memberships.service.ts:121-173 | However often it is invited, an address joins an organization at most once as long as whoever joined does not edit the profile; a role deleted meanwhile leaves a roleless member and a dead invitation. |
| RbacResults.AddressJoinsAgainIff | auth-service/internal/repository/user_repository.go:49-72 | With profile edits: a later invitation of the address admits a new member iff no row of the organization, deleted ones included, carries it any more as e-mail address or user name. |
| RbacResults.EditedAddressJoinsAgain | auth-service/internal/delivery/http/auth_handler.go:2103-2129 | Such a run exists: invite, accept, edit the profile, invite, accept. |
| RbacResults.DeletedRoleOrphansInvitation | admin-service/src/memberships/memberships.service.ts:159-173 | Such a dead invitation is reached: create a role, invite with it, delete it, accept. |
| RbacLaws.JoinedIsInvitedAgainIff | admin-service/src/memberships/memberships.service.ts:67-79 | In every run after joining under an address, as long as the organization is spared and the member edits nothing, inviting the address is refused as a member's iff the role is the organization's own and the member was not removed, and succeeds iff the role is its own and the member was; a refusal changes nothing. |
| RbacLaws.EditFreesTheAddress | admin-service/src/memberships/memberships.service.ts:67-79 | A profile edit frees the old address and takes the new one at once. |
| RbacLaws.OtherSpellingIsInvited | admin-service/src/memberships/memberships.service.ts:68-74 | Another spelling of a member's address is invited, and no one can accept it. |
| RbacLaws.LatestNameHolds | admin-service/src/rbac/rbac.service.ts:22-120 | In every run a role carries the name of its latest creation or renaming until it is renamed or deleted. |
| RbacLaws.RoleOperationsSucceedIff | admin-service/src/rbac/rbac.service.ts:22-142 | When a role can be created, renamed and deleted, in terms of the rows alone. |
| RbacLaws.HeldRolesStay | admin-service/src/rbac/rbac.service.ts:122-142 | In every run a user keeps a role until the role or an organization is deleted. |
| RbacLaws.GrantsStay | admin-service/src/rbac/rbac.service.ts:159-210 | In every run a role keeps a permission until its permissions are assigned anew or it or an organization is deleted. |
| RbacLaws.InvitationsLast | admin-service/src/memberships/memberships.service.ts:81-117 | In every run an invitation lasts, unchanged, until it is accepted, expires or its token is written again. |
| RbacLaws.ConsumedIsGone | admin-service/src/memberships/memberships.service.ts:110-173 | An invitation that was accepted or has expired is refused in every continuation that does not write its token again. |
| RbacLaws.RefusalsChangeNothing | admin-service/src/memberships/memberships.service.ts:55-305 | No refused operation changes anything, but for the acceptance whose role has gone, which leaves the new member. |
| RbacLaws.RoleErrors | admin-service/src/rbac/rbac.service.ts:84-186 | A foreign role is answered like a missing one, a system role is refused before anything else is looked at, otherwise at most the name or the list is at fault. |
| RbacLaws.InvitedCanJoin | admin-service/src/memberships/memberships.service.ts:107-180 | An unconsumed invitation is accepted iff its role and organization are there, the new user id is unused and no row has the address, and gives its role. |
| RbacLaws.OrganizationsAreIsolated | admin-service/src/rbac/rbac.service.ts:84-210 | Whatever runs for other organizations, an organization's roles, members, bindings and links, and every member's permissions, stay as they are. |
| RbacLaws.CreatedOrganizationIsEmpty | auth-service/internal/delivery/http/auth_handler.go:217-230 | A new organization is known and empty. |
| RbacLaws.DeletedOrganizationIsGone | admin-service/src/organizations/organizations.service.ts:91-100 | Deleting an organization leaves nothing of it. |
| RbacLaws.ProfileEditSucceedsIff | auth-service/internal/delivery/http/auth_handler.go:2097-2129 | In every run a profile edit goes through iff the member is there and no other row, deleted or not, has the stored address or the user name: the handler's lookups only choose the error. |
| RbacLaws.AddressesStayClean | auth-service/internal/delivery/http/auth_handler.go:138-150 | In every run every stored address is in its stored form. |
| RbacLaws.RemovedIsFlagged | admin-service/src/memberships/memberships.service.ts:249-288 | Removing a member flags exactly that row, iff it is the organization's and not flagged yet. |
| RbacServices.TenantDatabase.CreateRole | admin-service/src/rbac/rbac.service.ts:22-51 | Inserts a non-system role or reports the violated constraint, changing nothing else. |
| RbacServices.TenantDatabase.UpdateRole | admin-service/src/rbac/rbac.service.ts:84-120 | The checks and the rename in place are exactly the specified operation. |
| RbacServices.TenantDatabase.DeleteRole | admin-service/src/rbac/rbac.service.ts:122-142 | The deletion with its cascades is exactly the specified operation. |
| RbacServices.TenantDatabase.AssignPermissions | admin-service/src/rbac/rbac.service.ts:159-210 | The checks, the count of the rows found, the deletion and the insertion row by row are exactly the specified full replacement. |
| RbacServices.TenantDatabase.FindPermissions | admin-service/src/rbac/rbac.service.ts:178-182 | As many rows come back as there are existing permissions among the listed ids, however often an id is listed. |
| RbacServices.TenantDatabase.Invite | admin-service/src/memberships/memberships.service.ts:55-103 | The two checks and the stored invitation are exactly the specified operation; whom it refuses in a run: `RbacLaws.JoinedIsInvitedAgainIff`. |
| RbacServices.TenantDatabase.Accept | admin-service/src/memberships/memberships.service.ts:107-180 | Register, link, consume, with what each failing step leaves behind. |
| RbacServices.TenantDatabase.UpdateProfile | auth-service/internal/delivery/http/auth_handler.go:2068-2129 | The two lookups among active members and then the constraints over all rows are exactly the specified edit. |
| RbacServices.TenantDatabase.GetUserRolesAndPermissions | auth-service/internal/repository/user_repository.go:130-183 | Row by row, lists each role name of the user and each effective permission name exactly once. |
| RbacServices.TenantDatabase.PermissionNames | auth-service/internal/repository/user_repository.go:152-175 | Looping over the user's roles and their bindings collects exactly the effective permission names. |
| Collector.NothingIsLostOrDoubled | revamp-landing/client/public/__manus__/debug-collector.js:716-754 | After any run, however reports overlap and end, each pushed entry is in exactly one of delivered, in flight, buffered and dropped, once, and every cap is kept. |
| Collector.DroppedIffOverflowed | revamp-landing/client/public/__manus__/debug-collector.js:116-118 | A run has dropped entries iff one of its pushes or put-backs overflowed a buffer. |
| Collector.RoomForEveryPush | revamp-landing/client/public/__manus__/debug-collector.js:744-753 | As long as every push finds fewer entries than the cap in its buffer and in flight together, nothing is dropped, however reports overlap and end. |
| Collector.CapsAndCounts | revamp-landing/client/public/__manus__/debug-collector.js:23-28 | After any run at most 500 console entries, 200 requests and 500 interface events are buffered, and each buffer has counted what was logged to it. |
| Collector.PutBackKeepsTheNewest | revamp-landing/client/public/__manus__/debug-collector.js:744-753 | While reports do not overlap, every resting buffer, also after a put-back, is exactly the newest cap-many entries younger than all delivered ones, in order. |
| Collector.SortedIffTidy | revamp-landing/client/public/__manus__/debug-collector.js:744-753 | However reports overlap, the buffers are in order all through a run iff every failure found each buffer full or holding nothing older. |
| Collector.OverlappingFailuresReorder | revamp-landing/client/public/__manus__/debug-collector.js:716-754 | A run of two overlapping reports, failing oldest first, that leaves the buffer out of order. |
| CollectorPage.Page.PruneBuffer | revamp-landing/client/public/__manus__/debug-collector.js:116-118 | Keeps the newest maxSize entries. |
| CollectorPage.Page.LogUiEvent | revamp-landing/client/public/__manus__/debug-collector.js:240-250 | Pushing and pruning the page's array is exactly one step of the accounted model. |
| CollectorPage.Page.ReportLogs | revamp-landing/client/public/__manus__/debug-collector.js:716-743 | Empties all three arrays, hands exactly their contents to the request, and sends none when all are empty. |
| CollectorPage.Page.RequestSettled | revamp-landing/client/public/__manus__/debug-collector.js:738-753 | An answered request changes no array, a failed one is put back and pruned; both are exactly one step of the accounted model. |

## Left out

- Cryptography: signatures, SHA-256, Argon2id, TOTP and AES-GCM are abstract. Only claims that were issued pass the signature check, hashes are compared by identity, and new ids and refresh hashes are taken not to collide.
- SQL engine: each transaction is atomic. Row locks, isolation anomalies inside one transaction and database outages are not modelled; since any GetSession error is cached as a revocation, an outage would make verification stricter than the history.
- Onboarding transaction: the model lets it create a user, a session and a token. Foreign keys between organizations and users are not modelled, so whether migrations/000001_init_schema.up.sql:45-47 admits inserting the organization with its owner before the owner's row is not decided here.
- Clocks: the two services, Postgres and Redis read one clock, except that the rate limiter's bounds also hold for clocks that run backwards.
- Removing a member is final at grain A only; grain B states exactly when it is.
- At grain B MFA tokens are not handed out, so logout-all and password reset may be asked for at any time.
- Login by e-mail is a step on the row that the lookup returned; the outcome of the password check, the MFA code and the choice of an MFA configuration are inputs. Claims carry no roles, permissions, plan or e-mail.
- RateHeaders.Limiter.Eval: numbers are exact reals; IEEE rounding and Redis's decimal rendering of stored numbers are not modelled, and the cost is always 1.
- The limiter's key per identity and endpoint is one object each; how a client is identified is not modelled.
- Slug.SlugifiersAgreeIff: letters outside ASCII stand for their own lower case, except U+0130 and U+212A; this does not change any slug, since every other lower case is outside a-z0-9 and collapses alike. Malformed UTF-8 is not modelled.
- SlugLetters.CleanTrimsAndLowers: stated for ASCII addresses; letters outside ASCII stand for their own lower case in stored addresses too, except the same two.
- The random suffix that the admin service appends to a taken slug, and two onboardings racing for one slug (the unique constraint decides), are not modelled.
- PasswordHash: the password policy of ValidatePassword and the constant-time comparison's timing are not modelled. Strings are sequences of characters, not bytes.
- RbacServices.TenantDatabase.Accept: a new role's random id is taken not to equal that of a deleted role which a pending invitation still names.
- Collector: the beacon sent on page unload does not clear the buffers and is not modelled; an HTTP error status counts as delivered, as in the source. Entries are names, not payloads; their sanitizing is not modelled.
- The invitation's seven-day expiry is a step that may happen at any time. An organization's own row, its plan and its owner are not part of the session model, so users may still be registered under a deleted organization there.
- Tombstones: at grain B a replay of a deleted refresh token is logged as an arrival that lost; with the row removed it would be an unknown hash. Neither changes anything.
- Billing, plan limits, API keys, applications, audit logs, health checks, mail, middleware plumbing, the SDK and all user interfaces: thin operations that would add only easy members.
