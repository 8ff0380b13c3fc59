# Verified models of the billing, session, rate-control and parsing code

This project models the state machines of a multi-tenant marketing product in Dafny and proves the
guarantees its comments, tests and documentation promise. `dafny verify dfyconfig.toml` checks everything.

Code that works by changing things is a class with the same fields, whose methods are proved against
functions of the old state; the laws are then proved about those functions, or about state machines
whose steps are those functions. A `Run` is any finite sequence of enabled steps, so a theorem about runs
holds for every interleaving. Times are integer milliseconds and the clock never goes back. One SQL
statement, one store command or one script is one atomic step; where a theorem says *serialised*, a whole
request is one step. Random values are fresh, hashes are injective, and a signature verifies exactly when
the key produced it. Replies of other services, database picks without an order, and failures are
parameters that may be anything.

| module | models |
|---|---|
| `Subscriptions`, `WorkspaceAccess` | subscription rows; the timed lock decision, its cache, and the sweep that records it |
| `Payments`, `BillingRuns`, `PaidTime` | turning a payment into access once; serialised runs; conservation of paid time |
| `PaymentRaces`, `MonthRaces` | the payment transaction statement by statement, under read-committed isolation; what overlapping months add up to |
| `AccessReplica` | the access cache with reads, writes and row changes interleaved |
| `EngineAccess` | the worker's SQL predicate in three-valued logic, against the decision of the API |
| `Sessions`, `RefreshRaces` | refresh-token families, rotation, reuse detection and the writers they depend on; one family with refreshes interleaved |
| `Membership`, `Staleness`, `Sockets` | the membership cache, the guard, session versions on every replica, live sockets |
| `Totp`, `BackupCodes`, `BackupCodeRaces`, `PasswordReset`, `OAuthState` | credentials that work once |
| `LoginBackoff`, `Throttler`, `HttpClient` | counters and delays: sign-in backoff, rate limits, circuit breaker |
| `LeaderLock`, `PeriodicLock` | leases over a shared store, released by compare-and-delete or never |
| `JsBits`, `Ipv4`, `Ipv6` | 32-bit JavaScript arithmetic, CIDR masks, reading and judging addresses |
| `PgArray`, `FixPack` | PostgreSQL array literals; Markdown fences and the list of fixes |
| `Text`, `Arithmetic`, `Wrappers` | splitting, joining and printing; shared helpers |

## Where the code and its description differ

- The sweep calls itself idempotent. It is, exactly when one batch of 500 covers the orphans or there is no
  PRO plan to give them (`WorkspaceAccess.SecondSweepNoOp`).
- The worker's rule is described as the same rule as the API's. The API takes an empty provider code for no
  card, the SQL asks for NULL: the two agree exactly when no ended month carries an empty code
  (`EngineAccess.RulesAgreeIff`).
- Months bought one by one are meant to stack. They do, in any run, exactly when no month of the workspace is
  committed between another's read and its commit, unless it has run out by then
  (`MonthRaces.PaidTimeConservedIff`); two that both read first leave one month for two references
  (`MonthRaces.OverlappingMonthsCollapse`, `MonthRaces.WholeMonthLost`).
- Reissuing recovery codes is meant to invalidate every earlier set. Two reissues for one user that overlap
  leave twenty working codes (`BackupCodeRaces.OverlappingReissuesDouble`); `BackupCodeRaces.TenCodesIff` says
  exactly when there are ten. Beyond twenty, the bounded read may miss a code that should work
  (`BackupCodes.EveryCodeListedIff`).
- Rotation is meant to leave one live token per family, and reuse to end the family. Refreshes of one token
  that overlap fork the family, exactly as `RefreshRaces.LiveTokensCount` counts; and a family ended for
  reuse stays dead exactly when no refresh was under way (`RefreshRaces.ReuseEndsFamilyIff`).
- Asking for a password reset is meant to retire the older links. It retires those created before; one whose
  request was under way and creates its link later keeps working (`PasswordReset.LinksSinceRetirement`,
  `PasswordReset.OverlappingRequestsLeaveTwo`).
- A half-open circuit is described as letting exactly one request through, judged by its result. It lets
  through every call that starts until a failure opens it again (`HttpClient.FetchesUnlessReopened`), and a
  failed probe does so exactly when four failures have been recorded since the last success
  (`HttpClient.FailureOpensIff`), which a success arriving late undoes (`HttpClient.LateSuccessRun`).
- Session versions grow only during one row's life. Someone removed and invited again starts from 0, and a
  token of the earlier life is admitted again exactly when its version matches the new row's
  (`Staleness.OldLifeTokenAdmittedIff`).
- A PTTL that fails on its own is meant to count as no time served. When the other key's last failure is
  older it shortens the wait instead, and only then (`LoginBackoff.SilentKeyShortensIff`).
- The address parser is documented to answer null for what will not parse. For a text with one `::` and more
  than eight groups it throws a RangeError instead, and for no other text (`Ipv6.ThrowsIff`); next to eight
  groups it takes a `::` for no group at all, where section 2.2 of RFC 4291 asks for at least one. Neither is
  reached from the rest of the program, whose one caller passes only what Node's `isIP` has accepted as IPv6;
  `isIP` is not part of this model.
- A fence always closes its own block, but a snippet ending in a carriage return loses it, because that
  character merges with the line feed after it (`FixPack.FenceRoundTripIff`).
- The repository's own array writer does not quote. It is inverted exactly for elements without comma,
  quote or backslash, other than the list of one empty string (`PgArray.WrittenRoundTripIff`).

## Model

| member | source | states |
|---|---|---|
| WorkspaceAccess.DecisionStableUntilExpiry | apps/api/src/billing/workspace-access.service.ts:153-189 | an answer stays the decision on its row until its cache entry expires, and never longer than 30 s |
| WorkspaceAccess.WorkspaceAccessService.State | apps/api/src/billing/workspace-access.service.ts:153-189 | answers from a live entry, else decides on the row and caches with the earliest of TTL, trial end and period end |
| WorkspaceAccess.WorkspaceAccessService.StartTrial | apps/api/src/billing/workspace-access.service.ts:119-144 | creates a 24 h trial only where there is no row; a missing plan or a failed write answers null and changes nothing |
| WorkspaceAccess.WorkspaceAccessService.BackfillMissing | apps/api/src/billing/workspace-access.service.ts:330-366 | gives each orphan of one bounded batch a trial or a comped row, and counts them |
| WorkspaceAccess.WorkspaceAccessService.Sweep | apps/api/src/billing/workspace-access.service.ts:280-321 | the four statements in order, with the counts they report; the cache is emptied exactly when a row changed |
| WorkspaceAccess.SweepIsPerRow | apps/api/src/billing/workspace-access.service.ts:280-321 | the statements never disturb one another: a sweep rewrites every row on its own, in one step |
| WorkspaceAccess.StatementsIndependent | apps/api/src/billing/workspace-access.service.ts:280-321 | no statement of the sweep matches a row because of an earlier one |
| WorkspaceAccess.SweepCountsChanges | apps/api/src/billing/workspace-access.service.ts:305-321 | a sweep reports no work exactly when it changed no row |
| WorkspaceAccess.SweepPreservesLocked | apps/api/src/billing/workspace-access.service.ts:280-321 | recording expiry changes no answer: locked before is locked after, at every later moment |
| WorkspaceAccess.BackfillOpensTrial | apps/api/src/billing/workspace-access.service.ts:330-366 | a backfilled workspace is open for exactly 24 h from the sweep |
| WorkspaceAccess.SecondSweepNoOp | apps/api/src/billing/workspace-access.service.ts:280-366 | a second sweep changes nothing if and only if at most 500 orphans, or no PRO plan |
| BillingRuns.CachedAnswerIsExact | apps/api/src/billing/workspace-access.service.ts:148-252 | in every serialised run on one instance the answer at any moment is the decision on the row at that moment |
| BillingRuns.PartialSweepKeepsEntry | apps/api/src/billing/workspace-access.service.ts:280-321 | a sweep that fails half way leaves every cached answer right |
| AccessReplica.CachedAnswerIsRecent | apps/api/src/billing/workspace-access.service.ts:148-189 | with anything interleaved, a cached answer is the decision now on a row in force when it was read, cached under 30 s ago |
| AccessReplica.FreshAnswerIsRead | apps/api/src/billing/workspace-access.service.ts:153-189 | a call that missed answers with the decision on the row it read |
| Payments.BillingService.ApplyPayment | apps/api/src/billing/billing.module.ts:512-658 | refused, duplicate, failed or applied; only an applied payment changes rows, and it writes marker, end date, plan and code as stated |
| Payments.BillingService.VerifyPayment | apps/api/src/billing/billing.module.ts:459-501 | the browser's confirmation can only activate the workspace that asks, and leaves every other row alone |
| Payments.BillingService.HandlePaystackEvent | apps/api/src/billing/billing.module.ts:717-744 | charges and subscriptions apply, the two ending events cancel one holder of the code, others change nothing; the workspace that changed loses its cached answer |
| Payments.ReplayChangesNothing | apps/api/src/billing/billing.module.ts:512-658 | once a reference is applied, no later delivery of it changes any row |
| PaymentRaces.ExactlyOnce | apps/api/src/billing/billing.module.ts:545-640 | in every interleaving of transactions, aborts and other writers, a reference takes effect at most once, and its marker exists exactly when it did |
| PaymentRaces.SpentForGood | apps/api/src/billing/billing.module.ts:545-640 | no later run commits a spent reference again or moves its marker |
| PaymentRaces.UndisturbedMonthStacks | apps/api/src/billing/billing.module.ts:567-600 | whatever else runs, a month whose end date nobody writes between its read and its commit lands whole on top of the committed end date |
| MonthRaces.MonthsConservedIff | apps/api/src/billing/billing.module.ts:567-600 | for every order of reads and commits: no moment is paid twice if and only if no month was committed between another's read and commit and still running |
| MonthRaces.PaidTimeConservedIff | apps/api/src/billing/billing.module.ts:567-600 | over every interleaving in which a workspace buys single months: 31 days served for each committed reference if and only if no month was missed; with transactions shorter than a month, if and only if each read saw every earlier commit |
| MonthRaces.WholeMonthLost | apps/api/src/billing/billing.module.ts:567-600 | two months that had seen the same end date, not yet past, are the same 31 days |
| MonthRaces.OverlappingMonthsCollapse | apps/api/src/billing/billing.module.ts:567-600 | from any state without open transactions, for any workspace and any two months for it: the interleaving that adds two markers and one month |
| PaidTime.PaidTimeConserved | apps/api/src/billing/billing.module.ts:567-600 | over any serialised run of one-off payments: disjoint intervals, one per distinct reference, exactly 31 days each |
| PaidTime.PaidTimeServed | apps/api/src/billing/workspace-access.service.ts:234-247 | a workspace with bought months is unlocked exactly until the end of the last one, through sweeps, replays and other workspaces' events |
| PaidTime.StatementsKeepRow | apps/api/src/billing/workspace-access.service.ts:280-321 | no part of a sweep moves an end date, code, plan or slug, and it only demotes what has ended |
| PaidTime.NoSecondTrial | apps/api/src/billing/workspace-access.service.ts:119-144 | over a whole run no workspace re-enters its trial, and without a payment its end date never moves |
| PaidTime.RowStep | apps/api/src/billing/billing.module.ts:567-600 | only an applied, unspent payment of the workspace itself moves its end date |
| EngineAccess.QueryAgreesWithDecide | apps/engine/src/godeye_engine/db.py:459-503 | the SQL predicate over the outer join selects exactly the workspaces the API locks, but for an ended month with an empty code |
| EngineAccess.RulesAgreeIff | apps/engine/src/godeye_engine/db.py:459-503 | the two rules agree on all workspaces if and only if no ended month carries an empty code |
| Sessions.AuthService.Refresh | apps/api/src/auth/auth.service.ts:201-267 | rotates a usable token inside its family; a revoked one ends the family; unknown and expired ones change nothing |
| Sessions.AuthService.CreateSession | apps/api/src/auth/auth.service.ts:673-740 | one new unrevoked 30-day token, scoped to the workspace and family |
| Sessions.AuthService.Login | apps/api/src/auth/auth.service.ts:146-197 | a session in the oldest workspace, in a new family; none without a membership |
| Sessions.AuthService.Logout | apps/api/src/auth/auth.service.ts:269-276 | revokes the presented token only |
| Sessions.AuthService.SwitchOrg | apps/api/src/auth/auth.service.ts:513-520 | a new family in the other workspace, for members only |
| Sessions.AuthService.EndOtherSessions | apps/api/src/auth/auth.service.ts:338-380 | after a password change no token of the user is live but the one kept, every other person's live token still is, and nothing else about any token changes |
| Sessions.AuthService.Join | apps/api/src/auth/auth.service.ts:433-490 | membership first, then a session in the joined workspace; members already in it are refused |
| Sessions.MembersService.RevokeSessions | apps/api/src/members/members.service.ts:221-239 | no live token of the person in this workspace is left, every other live token still is, and nothing else about any token changes |
| Sessions.MembersService.Remove | apps/api/src/members/members.service.ts:179-208 | deletes the membership and ends its tokens |
| Sessions.FamilyInvariant | apps/api/src/auth/auth.service.ts:201-276 | in every serialised run a family has at most one unrevoked token, and every unrevoked scoped token belongs to a member |
| Sessions.RotationKeepsWorkspace | apps/api/src/auth/auth.service.ts:236-267 | rotation continues the family in the very workspace of the session, never another |
| Sessions.ReuseEndsFamily | apps/api/src/auth/auth.service.ts:201-235 | in serialised runs, after a revoked token is presented no later state has a live token of that family |
| RefreshRaces.LiveTokensCount | apps/api/src/auth/auth.service.ts:201-267 | refreshes interleaved statement by statement: live tokens are one more than completed refreshes less the tokens they replaced, so one exactly when no token was replaced twice |
| RefreshRaces.DistinctRotationsLeaveOne | apps/api/src/auth/auth.service.ts:201-276 | whatever else revokes tokens, while no token was replaced twice at most one is live |
| RefreshRaces.OverlappingRefreshesFork | apps/api/src/auth/auth.service.ts:201-267 | the run in which two refreshes of one token leave two live tokens |
| RefreshRaces.ReuseEndsFamilyIff | apps/api/src/auth/auth.service.ts:210-235 | presenting a revoked token ends the family for good if and only if no refresh was under way |
| Membership.MembershipService.Current | apps/api/src/common/membership.service.ts:54-71 | the cached row if under 5 s old, else the row, which is then cached |
| Membership.MembershipService.BumpSessionVersion | apps/api/src/common/membership.service.ts:85-102 | one version up, entry dropped; on a database error only the entry is dropped |
| Membership.MembershipService.BumpAllSessions | apps/api/src/common/membership.service.ts:105-117 | every row of the user one version up, and the entries of up to 100 of the user's workspaces dropped |
| Membership.RolesGuard.CanActivate | apps/api/src/common/roles.guard.ts:70-122 | the verdict on every route and token: the live row's version and role decide, a token without a role and an unannotated route are forbidden |
| Staleness.AdmissionIsBacked | apps/api/src/common/roles.guard.ts:96-121 | in every interleaving over replicas, an admitted request's version and a sufficient role were in the row under 5 s (and the call's lag) ago |
| Staleness.AdmissionAfterReadIsBacked | apps/api/src/common/roles.guard.ts:96-121 | the same for a request that had to read the row |
| Staleness.VersionGrows | apps/api/src/common/membership.service.ts:85-117 | while a row lives its version never falls |
| Staleness.OldTokensRefused | apps/api/src/common/membership.service.ts:85-117 | after a bump every older token is refused on every replica from 5 s (and the lag) on |
| Staleness.SettledAnswerIsExact | apps/api/src/common/membership.service.ts:54-71 | once a row has been left alone for 5 s (and the lag), every replica judges by that very row |
| Staleness.OldLifeTokenAdmittedIff | apps/api/src/members/members.service.ts:179-208 | after a removal and a new join, a token of the earlier life is admitted on every replica if and only if its version is the number of bumps since the join and the role suffices |
| Sockets.RealtimeGateway.HandleConnection | apps/api/src/realtime/realtime.gateway.ts:65-88 | a socket opens exactly when the token's version is the live one |
| Sockets.RealtimeGateway.DropLocally | apps/api/src/realtime/realtime.gateway.ts:111-113 | no socket of this person in this workspace is left open here, and every socket that went was one |
| Sockets.RealtimeGateway.RevalidateSockets | apps/api/src/realtime/realtime.gateway.ts:123-145 | the loop keeps exactly the authenticated sockets that are young enough and still match their row, and no unauthenticated one |
| Sockets.OpenSocketIsBacked | apps/api/src/realtime/realtime.gateway.ts:123-145 | in every run an open socket is at most 16 min old and its version was in the row under 65 s (and the lag) ago |
| Totp.MfaService.ForgetExpiredMfaCodes | apps/api/src/auth/auth.service.ts:664-669 | the loop forgets exactly the codes whose memory has run out |
| Totp.MfaService.AssertValidMfaCode | apps/api/src/auth/auth.service.ts:641-662 | accepted, not set up, invalid or already used, and what is remembered afterwards |
| Totp.StepAcceptedOnce | apps/api/src/auth/auth.service.ts:641-669 | over any run on one instance the code of a step is accepted at most once per user (section 5.2 of RFC 6238) |
| Totp.PurgeIsSafe | apps/api/src/auth/auth.service.ts:63-72 | the purge never forgets a code that could still be accepted for its step |
| BackupCodes.NormalizeReadsEverySpelling | apps/api/src/auth/backup-codes.service.ts:50-52 | any casing, hyphens and white space of an issued code read as that code |
| BackupCodes.PrintedCodeIsRead | apps/api/src/auth/backup-codes.service.ts:39-52 | what is printed is read back |
| BackupCodes.BackupCodesService.Regenerate | apps/api/src/auth/backup-codes.service.ts:85-100 | run whole: the user is left exactly the ten new rows, all unused, each shown code reads back as its row's code, and nobody else's rows change |
| BackupCodes.BackupCodesService.FindMatch | apps/api/src/auth/backup-codes.service.ts:136-166 | the loop finds the first matching row, or none exactly when nothing matches |
| BackupCodes.BackupCodesService.Redeem | apps/api/src/auth/backup-codes.service.ts:136-181 | succeeds exactly when the first listed match is still unused at the update, and uses up that row; a raced claim answers false |
| BackupCodes.EveryCodeListedIff | apps/api/src/auth/backup-codes.service.ts:139-143 | the bounded read lists every unused code, whatever its order, if and only if there are at most twenty |
| BackupCodes.MatchIsFoundIff | apps/api/src/auth/backup-codes.service.ts:139-158 | up to twenty unused codes, a redemption finds its match if and only if some unused code of the user matches |
| BackupCodeRaces.EachCodeOnce | apps/api/src/auth/backup-codes.service.ts:136-181 | in every interleaving of readers, claimers and reissues, statement by statement, each code succeeds at most once |
| BackupCodeRaces.CodesConserved | apps/api/src/auth/backup-codes.service.ts:85-181 | in every interleaving, redeemed and unused codes make ten for each reissue that no later replacement superseded |
| BackupCodeRaces.TenCodesIff | apps/api/src/auth/backup-codes.service.ts:85-100 | after a reissue there are ten codes if and only if every other reissue of that user was committed before some later replacement began its delete |
| BackupCodeRaces.SerialReissueLeavesTen | apps/api/src/auth/backup-codes.service.ts:85-100 | in particular when no other reissue of that user is committed between its delete and its commit |
| BackupCodeRaces.OverlappingReissuesDouble | apps/api/src/auth/backup-codes.service.ts:91-96 | whatever the table holds, the run in which two reissues for one user leave twenty unused codes |
| PasswordReset.PasswordResetService.Request | apps/api/src/auth/password-reset.service.ts:55-99 | leaves exactly one outstanding token for the user; an unknown address changes nothing |
| PasswordReset.PasswordResetService.Consume | apps/api/src/auth/password-reset.service.ts:109-147 | a usable token sets the password and ends the sessions, once; any other changes nothing |
| PasswordReset.PasswordResetService.PurgeExpired | apps/api/src/auth/password-reset.service.ts:150-155 | deletes exactly what expired before the given time, and counts it |
| PasswordReset.EachTokenOnce | apps/api/src/auth/password-reset.service.ts:55-147 | in every interleaving each token resets a password at most once |
| PasswordReset.RetiredLinksStayDead | apps/api/src/auth/password-reset.service.ts:55-99 | once retired, no earlier link works again, even for a request that had already read it |
| PasswordReset.LinksSinceRetirement | apps/api/src/auth/password-reset.service.ts:69-84 | in every interleaving the links that work are exactly those created since the last retirement and neither claimed nor purged |
| PasswordReset.LinksCountCreations | apps/api/src/auth/password-reset.service.ts:69-84 | with nothing claimed or purged, as many links work as were created since, so one if and only if one was |
| PasswordReset.OverlappingRequestsLeaveTwo | apps/api/src/auth/password-reset.service.ts:69-84 | the run in which two requests leave two working links |
| OAuthState.OAuthStateService.Issue | apps/api/src/connections/oauth-state.service.ts:178-219 | the record is stored before the state is signed; with the store down nothing is issued |
| OAuthState.OAuthStateService.Consume | apps/api/src/connections/oauth-state.service.ts:228-283 | which refusal is given when, when the cookie is cleared and the record taken, and success exactly when every check passes, with the record's workspace, person and verifier |
| OAuthState.EachStateOnce | apps/api/src/connections/oauth-state.service.ts:178-283 | in every interleaving each state succeeds at most once |
| OAuthState.SuccessMatchesOneIssue | apps/api/src/connections/oauth-state.service.ts:178-283 | a success returns the workspace and person of exactly one earlier issue, in the browser holding its nonce, within its lifetime |
| LoginBackoff.DelayGrows | apps/api/src/auth/login-backoff.service.ts:36-40 | more failures never wait less |
| LoginBackoff.LoginBackoffService.AssertNotBackedOff | apps/api/src/auth/login-backoff.service.ts:75-119 | admits exactly when nothing is left to wait, says how long otherwise, also when single PTTL commands fail, and passes when the store is down |
| LoginBackoff.SilentKeyShortensIff | apps/api/src/auth/login-backoff.service.ts:90-104 | a PTTL that fails for the account shortens the wait if and only if the address answers with fewer seconds left |
| LoginBackoff.LoginBackoffService.RecordFailure | apps/api/src/auth/login-backoff.service.ts:122-133 | counts both keys and restarts both windows |
| LoginBackoff.LoginBackoffService.RecordSuccess | apps/api/src/auth/login-backoff.service.ts:137-143 | clears the account's counter and leaves the address's |
| LoginBackoff.AdmittedHasWaited | apps/api/src/auth/login-backoff.service.ts:75-119 | an admitted attempt comes no sooner after each key's last failure than that key's own delay |
| LoginBackoff.QuietIsAdmitted | apps/api/src/auth/login-backoff.service.ts:75-119 | keys quiet for 900 s are always admitted |
| LoginBackoff.GuessingIsSlow | apps/api/src/auth/login-backoff.service.ts:36-143 | n >= 12 failures on one account with no success and no hour-long gap take at least 945 + 900(n - 12) s |
| Throttler.RedisThrottlerStorage.IncrementBy | apps/api/src/common/throttler-storage.ts:106-134 | the counter, lifetime and verdict of one hit, from the script or from the fallback |
| Throttler.RedisThrottlerStorage.OnStorageFailure | apps/api/src/common/throttler-storage.ts:166-192 | counts on in a live window and opens a new one otherwise, touches no other key, and reports the count, the rounded-up seconds left and the verdict |
| Throttler.FallbackCountsAlike | apps/api/src/common/throttler-storage.ts:28-70 | the fallback counts as the script does without a block duration |
| Throttler.LifetimeBound | apps/api/src/common/throttler-storage.ts:28-41 | with any positive costs, one key lifetime admits at most the limit, block extensions included |
| Throttler.AnyWindowBound | apps/api/src/common/throttler-storage.ts:28-41 | any half-open interval of one ttl admits at most twice the limit |
| Throttler.FallbackBound | apps/api/src/common/throttler-storage.ts:59-70 | N replicas on their own admit at most N times the limit in one counter window each |
| Throttler.FallbackWindowBound | apps/api/src/common/throttler-storage.ts:59-70 | and at most 2N times the limit in any interval of one ttl |
| HttpClient.HttpClients.RecordFailure | apps/api/src/common/http-client.ts:139-151 | one failure more, opening the circuit and raising the gauge at the fifth |
| HttpClient.HttpClients.HttpRequest | apps/api/src/common/http-client.ts:85-137 | how many fetches the retry loop makes, what it returns, and the breaker and gauge afterwards |
| HttpClient.GaugeReadsOpen | apps/api/src/common/http-client.ts:85-151 | in every interleaving of calls the gauge is 1 exactly while the circuit is open |
| HttpClient.EveryCallTallies | apps/api/src/common/http-client.ts:85-137 | each call makes at most retries + 1 fetches and, if it fetched, records exactly one outcome |
| HttpClient.NoFetchWhileOpen | apps/api/src/common/http-client.ts:85-108 | no call that starts within 30 s of the circuit opening fetches |
| HttpClient.OpeningNeedsFive | apps/api/src/common/http-client.ts:139-151 | the circuit opens only on the fifth or later failure in a row with no success between |
| HttpClient.FailedProbeReopens | apps/api/src/common/http-client.ts:85-151 | with serialised calls a failed half-open probe opens the circuit again at once |
| HttpClient.FetchesUnlessReopened | apps/api/src/common/http-client.ts:91-100 | in every run from a state that lets calls through, such as half open, a later call fetches if and only if no failure has opened the circuit again within 30 s |
| HttpClient.FailureOpensIff | apps/api/src/common/http-client.ts:139-151 | in every interleaving a failing probe, or any failing call, opens the circuit if and only if at least four failures were recorded since the last success |
| HttpClient.LateSuccessDisarmsProbe | apps/api/src/common/http-client.ts:85-151 | from any reachable open state with a call in flight: its late success lets a lone failing probe leave the circuit closed |
| HttpClient.LateSuccessRun | apps/api/src/common/http-client.ts:85-151 | such a run from the start: five of six calls fail, the sixth succeeds |
| HttpClient.SecondProbeEnters | apps/api/src/common/http-client.ts:91-100 | the plainest run in which two calls get through the half-open circuit |
| LeaderLock.LockStore.RunExclusively | apps/api/src/common/leader-lock.ts:49-83 | runs exactly when the lease was free and the store answered, gives back only its own lease even when the job throws, and passes the exception on |
| LeaderLock.OverlapMeansOverrun | apps/api/src/common/leader-lock.ts:49-83 | in every interleaving two jobs of one name overlap only if the earlier one overran its TTL |
| LeaderLock.ReleaseSparesOthers | apps/api/src/common/leader-lock.ts:49-83 | a late release never removes the lease of a job within its TTL |
| PeriodicLock.TickStore.Acquire | apps/engine/src/godeye_engine/periodic_lock.py:69-83 | wins a free tick and claims it for its TTL; runs anyway when the store is down |
| PeriodicLock.TickStore.OncePerTick | apps/engine/src/godeye_engine/periodic_lock.py:86-104 | the body's value exactly when the tick is won or the store is down |
| PeriodicLock.WinsAreTtlApart | apps/engine/src/godeye_engine/periodic_lock.py:69-83 | two answered wins of one name are at least one TTL apart |
| Ipv4.V4ToInt | apps/api/src/common/url-guard.ts:77-87 | the loop of shifts and ors on signed 32-bit words computes the base-256 value of the four octets |
| JsBits.ShiftInOctet | apps/api/src/common/url-guard.ts:84-84 | shifting by eight and joining an octet appends a base-256 digit modulo 2^32 |
| JsBits.MaskTestIsInterval | apps/api/src/common/url-guard.ts:93-98 | for every 32-bit value, base and prefix, equal masked values mean membership of an interval |
| Ipv4.BlockedV4Iff | apps/api/src/common/url-guard.ts:89-99 | an address is blocked exactly when it does not parse or lies in one of the fourteen intervals |
| Ipv4.ExactIsReserved | apps/api/src/common/url-guard.ts:74-90 | the two addresses listed singly lie in those intervals already |
| Ipv4.AsV4IsRead | apps/api/src/common/url-guard.ts:157-157 | printing two groups as a dotted quad and parsing it again loses nothing |
| Ipv6.ParseV6 | apps/api/src/common/url-guard.ts:115-150 | the rewriting of the text and the tail compute the parse function the laws are about |
| Ipv6.ReadsEverySpelling | apps/api/src/common/url-guard.ts:115-150 | every spelling of section 2.2 of RFC 4291, in any case, with brackets or a zone, is read as its eight groups, and any other number of well-formed groups is answered null or thrown at as stated |
| Ipv6.ThrowsIff | apps/api/src/common/url-guard.ts:131-144 | for every text whatever: a RangeError if and only if, before the dotted tail, there is exactly one '::' and more than eight groups are written in all |
| Ipv6.JudgedByEmbedded | apps/api/src/common/url-guard.ts:152-173 | mapped, compatible and NAT64 (section 2.1 of RFC 6052) addresses are blocked exactly when the embedded IPv4 address is, any other by three intervals |
| Ipv6.EverySpellingIsJudged | apps/api/src/common/url-guard.ts:152-173 | the verdict on a spelling is the verdict on the address it stands for |
| PgArray.ParsePgArray | apps/engine/src/godeye_engine/db.py:66-92 | the character loop computes the scan the laws are about |
| PgArray.QuotedRoundTrip | apps/engine/src/godeye_engine/db.py:66-92 | inverts PostgreSQL's output (section 8.15.6 of its manual) for every list of strings, whichever elements it chooses to quote |
| PgArray.WrittenRoundTripIff | apps/engine/src/godeye_engine/db.py:120-133 | inverts the unquoted writer if and only if no element holds comma, quote or backslash and the list is not one empty string |
| FixPack.FenceIsRead | apps/api/src/seo/fix-pack.ts:66-70 | read by section 4.5 of CommonMark, the block holds every character of the snippet and ends exactly at its own fence, whatever follows |
| FixPack.FenceInDocument | apps/api/src/seo/fix-pack.ts:148-159 | in the joined document the block of a snippet ends before the empty line pushed after it, whatever the rest of the document holds |
| FixPack.FenceRoundTripIff | apps/api/src/seo/fix-pack.ts:66-70 | without the final line ending the snippet comes back if and only if it does not end in a carriage return |
| FixPack.RenderFixes | apps/api/src/seo/fix-pack.ts:97-162 | the loop emits the lines of the headings and numbered entries of the sorted fixes |
| FixPack.PackIsComplete | apps/api/src/seo/fix-pack.ts:97-162 | every fix not dismissed once, numbered 1 to n, in stable severity order, one heading per known severity present |
| FixPack.StableSortIsUnique | apps/api/src/seo/fix-pack.ts:126-128 | any list in order of rank that keeps the given order within each rank is the sort used here |

## Left out

- Web pages, controllers, modules, telemetry, logging, audit entries and email: no state of interest here.
- Real cryptography and randomness: hashes are injective, signatures symbolic, random values fresh.
- Paystack, DNS, HTTP and the platform clients: their replies are arbitrary parameters.
- Checks before a session exists: password and second-factor prompts, breach lookups, invitation validity.
- Sessions.AuthService.EndOtherSessions: the password hash and the version bump of a password change are not in this method; the bump is a step of `Staleness`.
- Sessions.AuthService.CreateSession: the access token and the session version it carries are the claims of `Membership`; this method issues the refresh token.
- Sessions.AuthService.Login: starts where the credentials have been checked; the backoff is `LoginBackoff`, the codes are `Totp` and `BackupCodes`.
- Sessions.AuthService.Join: the invitation's validity and its acceptance mark come before, as the credentials do.
- Sessions.MembersService.Remove: the rank and owner checks come before.
- Sessions.FamilyInvariant: whole requests are steps; `RefreshRaces` has the statements of interleaved refreshes, for one family and without membership changes.
- Membership.RolesGuard.CanActivate: a token without a session version counts as version 0, which is taken as done when the claims are read.
- BackupCodes.NormalizeReadsEverySpelling: case and white space are the ASCII ones; issued codes hold nothing else.
- Ipv4.V4ToInt: other texts JavaScript's `Number` accepts inside one part (signs, exponents, hex, white space) are refused here; its callers pass digits only.
- Ipv4.BlockedV4Iff: the same texts count as unparseable, hence blocked.
- Ipv6.ParseV6: lower-casing is the ASCII one; other letters are no hex digits in either case.
- Host names, ports, protocols and the DNS answers of the URL guard: single checks around the address tests.
- Throttler.RedisThrottlerStorage.IncrementBy: a lost or flushed store mid-run; a run has the store up throughout, or counts in memory.
- LoginBackoff.GuessingIsSlow: the store is reachable and attempts are serialised, as the counters are read before they are written.
- Store restarts, partial pipelines and clock skew between replicas.
- FixPack.RenderFixes: the fixed prose, the dates and host in the header, and the appendix of generated files.
- Publishing, planning and token-refresh tasks.
