# AuraSpear back end: verified models

Dafny models of the parts of the back end where several writers meet the same rows, or where a
number, a string or a tree has to come out right, with proofs of what they keep. `dafny verify
dfyconfig.toml` checks all of it.

**Refresh-token families.** `auth_model.dfy` holds the three tables and every transaction on them as
a function from tables to tables; `auth_effects.dfy` says column by column, and without those
functions, what each leaves behind. `auth_protocol.dfy` puts sign-in, refresh, logout, forced
revocation, expiry, activity updates, the clock and Redis into one machine: each transaction is one
step, and so is each read, check and Redis command between two transactions; any number of requests
are in flight, and any step may come next. `auth_invariants.dfy`, `auth_steps.dfy` and
`auth_sessions.dfy` prove that every step keeps the invariants; `auth_runs.dfy`, `auth_delivery.dfy`,
`auth_replay.dfy`, `auth_blacklist_runs.dfy` and `auth_blacklist_window.dfy` state what follows for
whole runs, and `auth_writes.dfy` what each single step reads and writes. `auth_repository.dfy`,
`token_blacklist.dfy` and `auth_service.dfy` are the classes, updating their rows in place, each
method proved against the same functions and in plain terms; `auth_revocation.dfy` shows that the
order in which started revocation tasks happen to run is irrelevant.

**Case cycles.** `case_cycles.dfy` splits each request into a decision (the guards, on what was read)
and a write (what the database does, whatever has changed meanwhile). Serial runs put the two
together; interleavings are arbitrary sequences of writes. `case_counts.dfy` is about cases and their
counts, `case_cycles_service.dfy` the service over its tables.

**Numbers.** `sequence_numbers.dfy` and `attack_paths.dfy` (prefixed numbers, the greatest stored
string, one locked transaction), `agent_stats.dfy` (running mean), `token_quota.dfy` (read, check
what was read, count later).

**Alerts, batches, redaction.** `alerts.dfy` (read, check and unconditional write, interleaved),
`batches.dfy`, `alert_ingestion.dfy`, `redaction.dfy`.

## What the proofs found

- Every session row has the status of its family row throughout a run if and only if no sign-in
  writes its session row after its family was revoked or expired (`AuthRuns.RowsAgreeIffNoneLate`).
  The machine has a run that does (`AuthRuns.EarlyRevocationSplitsThem`), but no caller in the
  repository produces one: forced logouts take their targets from session rows
  (src/modules/users-control/users-control.repository.ts:110-190), and a refresh token is handed out
  only after its session row is written (src/modules/auth/auth.service.ts:183-200).
  `AuthDelivery.OrderlyRunsMirror` proves the agreement from just that.
- A replay closes an active family only when another request has already rotated the very token that
  was presented: there are no false alarms (`AuthReplay.NoFalseAlarm`).
- Issued access tokens carry no family (src/modules/auth/auth.utilities.ts:180-192), so ending an
  impersonation with one leaves the impersonated refresh family and session active
  (`AuthService.EndImpersonationWithIssuedToken`), and `touchSessionActivity` returns at once for
  them.
- The entry of a blacklisted token may be gone from its `exp` on, while verification still tolerates
  30 seconds: such a token is never accepted before `exp` while Redis can be reached
  (`AuthBlacklistRuns.BlacklistedUntilExpiry`), and can pass verification at every moment of
  [exp, exp + 30 s), after having been handed out and blacklisted in the ordinary way
  (`AuthBlacklistWindow.WindowIsReached`).
- A close that reaches a following cycle, and an update that clears the end before a following cycle,
  make cycles overlap; `CaseCycles.ServedKeepsIff` gives the exact condition. Two creates that both
  check before either writes do the same (`CaseCycles.StaleCheckOverlaps`,
  `CaseCycles.InsertKeepsIff`).
- The detail view of a cycle loads at most 500 cases but takes its total from the database, so open
  and closed add up to the total exactly for cycles of at most 500 cases
  (`CaseCounts.CountsInDetail`).
- Past 10^pad - 1 the string order turns round. Whatever numbers are stored, gaps included, the
  generated one is already taken exactly when the greatest string is 10^j - 1 for some j at or past
  the padding and 10^j is stored (`SequenceNumbers.NextTakenIff`); with nothing above 10^pad, exactly
  when 10^pad - 1 and 10^pad both are (`SequenceNumbers.TakenUpToPaddingIff`). The unique column then
  refuses every attempt (`AttackPaths.AttackPathsRepository.CreateWithNumber`).
- The quota is checked on a row that was read earlier. The bound L - 1 + k t holds when k counts runs
  from their read (`TokenQuota.CounterBound`); counted from the check there is no bound at all, even
  for k = 1 (`TokenQuota.CountingFromCheckIsNotEnough`).
- Some interleaving closes an alert and then reopens it, if and only if the alert was neither closed
  nor resolved at the start and the actions on it include both a close and something else
  (`Alerts.ReopensIff`; `Alerts.RaceReopensClosedAlert` is such a run, `Alerts.StaysFinalIff` the
  condition on a state in between). When no alert that can be acted on is named twice, every
  interleaving is the serial run (`Alerts.InterleavedIsSerial`).
- Bulk requests may repeat an id (src/modules/alerts/dto/bulk-alert-action.dto.ts:4). The reported
  count is the number of alerts that can be acted on, on every interleaving, if and only if none of
  those is named twice (`Alerts.CountIsExactIff`).
- The delete of a cycle filters on id and tenant only: served alone it never removes an active cycle
  (`CaseCycles.ActiveNeverDeleted`), but checked before an activation and written after it, it does
  (`CaseCycles.StaleDeleteRemovesActive`).

## Conventions

- Each Prisma transaction is atomic and takes effect at one moment; a failing statement undoes all of
  it. Unique indexes and foreign keys of prisma/schema.prisma hold. A lookup that returns a row
  together with a related row (the rotation with its family), and the three orphan counts of
  `countOrphanedCases`, are read from one state of the tables.
- Time is in milliseconds; a token's `exp` is in seconds (section 4.1.4 of RFC 7519). Redis and the
  server share one clock, which never goes back. Redis is a map from key to expiry that may be
  unreachable at any moment; `blacklist` then does nothing and `isBlacklisted` answers no.
- A token is its claims; signature verification accepts exactly the claims that were signed. A
  rotation row is named by its jti, because the hash column is unique and the hash is taken as
  injective. Random jtis are fresh.
- Membership and tenant resolution appear as a step that may deny the request after its checks and
  before its swap.
- The unawaited expiry is a pending step that may run at any later moment; in the undisturbed
  `AuthService.RefreshTokens` it runs before the call returns.
- `endDate: null` reaches `updateCycle` only from callers other than the HTTP route, whose schema
  turns null into a date (src/modules/case-cycles/dto/update-case-cycle.dto.ts:7). `Change.Clear`
  stands for it.

## Model

| member | source | states |
|---|---|---|
| AuthRuns.OneCommitPerGeneration | src/modules/auth/auth.repository.ts:274-339 | In every interleaving, whatever Redis does, no generation of a family is ever swapped by two different steps. |
| AuthRuns.ReachableChain | src/modules/auth/auth.repository.ts:166-190 | In every reachable state a family that has a rotation has exactly the generations 0..currentGeneration, each the parent of the next; in an active family all are used but the last, which is active. |
| AuthRuns.ReachableOneActive | src/modules/auth/auth.repository.ts:274-401 | In every reachable state no family, half-built or not, has two active rotations. |
| AuthRuns.StaleTokenIsRefused | src/modules/auth/auth.service.ts:712-760 | A refresh whose lookup found a row that is not current and active never gets tokens; once refused and its started expiry has run, the family is not active, and on the replay branch that row is marked replayed. |
| AuthRuns.ExpiredIsRefused | src/modules/auth/auth.service.ts:724-740 | A refresh checked at or after the expiry of its rotation or of its family is never current, never commits and never returns tokens, in any run. |
| AuthRuns.LostSwapIsReplay | src/modules/auth/auth.service.ts:946-970 | A refresh that passed its checks but whose family moved on never gets tokens; it can only end as a replay, with the family closed and its row marked replayed. |
| AuthRuns.SettledForever | src/modules/auth/auth.repository.ts:341-427 | Once revoked or expired, a family row never changes again in any run, and a family with a rotation gains no further one. |
| AuthRuns.SettledNeverCommits | src/modules/auth/auth.service.ts:230-256 | After a family is settled no refresh commits on it, including those that passed their checks earlier. |
| AuthRuns.NoCommitAfterRevocation | src/modules/auth/auth.repository.ts:348-414 | A revocation or expiry step settles its family, and nothing commits on it afterwards. |
| AuthRuns.FirstRevocationSticks | src/modules/auth/auth.repository.ts:341-401 | Reason, moment and actor of the first revocation stay on the family and session rows through any further revocations, expiries and refreshes. |
| AuthRuns.RefreshOutcomes | src/modules/auth/auth.service.ts:230-256 | Tokens go only to a request whose row was the active head when looked up, and belong to its direct successor; no request ever ends in a generation mismatch or a rolled-back transaction. |
| AuthRuns.SessionsMirror | src/modules/auth/auth.repository.ts:312-426 | If no family is revoked or expired before its session row exists, session status equals family status in every reachable state, and a revoked family has no active or used rotation left. |
| AuthRuns.LastWriteAgreesIff | src/modules/auth/auth.service.ts:541-592 | The last write of sign-in leaves session and family in agreement if and only if the family is still active at that moment. |
| AuthRuns.RowsAgreeIffNoneLate | src/modules/auth/auth.repository.ts:216-232 | In every state of a run each session row has the status of its family row, if and only if no sign-in of the run writes its session row when its family is no longer active. |
| AuthRuns.EarlyRevocationSplitsThem | src/modules/auth/auth.service.ts:541-551 | The machine has a run in which a family revoked during sign-in ends revoked with an active session. |
| AuthDelivery.OrderlyRunsMirror | src/modules/auth/auth.service.ts:183-200 | With tokens presented only after they were handed out, and forced revocations only of families with a session row, no revocation or expiry comes early, so sessions mirror families in every reachable state. |
| AuthDelivery.StepKeepsBacked | src/modules/auth/auth.service.ts:541-592 | In such runs every refresh under way and every pending expiry belongs to a family with a session row. |
| AuthReplay.NoFalseAlarm | src/modules/auth/auth.service.ts:780-804 | In every interleaving, when the answer to a replay is about to close an active family, another request with exactly the same claims has already committed its rotation. |
| AuthReplay.StepKeepsReplayInv | src/modules/auth/auth.repository.ts:294-299 | Every step keeps: each used row was rotated away by some request, and each request heading for a replay on a still active family holds a row that is no longer active. |
| AuthRuns.Reachable | src/modules/auth/auth.service.ts:230-256 | Every reachable state of the machine satisfies the whole invariant (tables, signatures, every request in flight). |
| AuthRuns.Forward | src/modules/auth/auth.repository.ts:274-427 | Between any two moments of a run counters only grow, settled rows stay, row identities and parents never change, and pending expiries stay pending until their family is settled. |
| AuthBlacklistRuns.BlacklistedUntilExpiry | src/modules/auth/auth.service.ts:821-862 | Once an entry covers a refresh token, and as long as later calls for its jti pass a time to live that reaches `exp` (CallersAreHonest: all callers do), a verification that reaches Redis refuses it until `exp`; one that accepts it asked at or after `exp` and had been presented before `exp` plus 30 seconds. |
| AuthServiceModule.BlacklistedIsRefused | src/modules/auth/auth.service.ts:821-862 | The same refusal for a token of either kind: what Redis came to cover is not accepted before its `exp`. |
| AuthBlacklistRuns.CallersAreHonest | src/modules/auth/auth.service.ts:655-684 | Both times to live that callers compute reach the token's `exp`, and with Redis up the entry covers it. |
| AuthBlacklistRuns.AskMeaning | src/modules/auth/token-blacklist.service.ts:47-64 | With Redis up, the question lets a token through exactly when no entry for it is left. |
| AuthBlacklistWindow.WindowIsReached | src/modules/auth/auth.constants.ts:6-6 | For every `exp` and every moment in [exp, exp + 30 s) there is a run, Redis up throughout, in which a token that was handed out by a finished sign-in and then blacklisted passes verification at that moment. |
| AuthBlacklistRuns.CoveredForever | src/modules/auth/token-blacklist.service.ts:26-31 | An entry that reaches a token's `exp` keeps reaching it over whole runs, overwritten or not, as long as callers pass a time to live that does. |
| AuthBlacklistRuns.FinishCovers | src/modules/auth/auth.service.ts:972-978 | A refresh that got tokens has blacklisted the token it came with until its `exp`, if Redis was reachable. |
| AuthBlacklistRuns.DecodedWasPresented | src/modules/auth/auth.service.ts:828-834 | Every decoded token of a run was presented earlier, before its `exp` plus the tolerance. |
| AuthInvariants.FamilyHasChain | src/modules/auth/auth.repository.ts:274-339 | From the row invariant: the complete, linked list of a family's rotations, with the status of each in an active family. |
| AuthInvariants.ChainBelow | src/modules/auth/auth.repository.ts:300-308 | Below any rotation every smaller generation of its family exists. |
| AuthInvariants.RotateNeverAborts | src/modules/auth/auth.repository.ts:274-339 | A swap of a family's own row never fails on a unique index or a missing row. |
| AuthInvariants.RotateEvolves | src/modules/auth/auth.repository.ts:274-339 | A swap moves the tables forward only: no settled row changes, no row is lost or re-keyed, no rotation is added to a settled family. |
| AuthInvariants.RotateKeeps | src/modules/auth/auth.repository.ts:274-339 | A swap keeps links, unique generations, heads and the statuses along the chain. |
| AuthInvariants.RevokeEvolves | src/modules/auth/auth.repository.ts:341-401 | A revocation moves the tables forward only, whoever runs it and whatever the state. |
| AuthInvariants.RevokeKeeps | src/modules/auth/auth.repository.ts:341-401 | A revocation, with or without a replayed row of its own family, keeps the chain invariant. |
| AuthInvariants.ExpireKeeps | src/modules/auth/auth.repository.ts:403-427 | An expiry keeps the chain invariant. |
| AuthInvariants.TouchKeeps | src/modules/auth/auth.repository.ts:240-272 | An activity update keeps the chain invariant. |
| AuthInvariants.CreateFamilyKeeps | src/modules/auth/auth.repository.ts:166-176 | The first write of sign-in keeps the chain invariant and moves the tables forward only. |
| AuthInvariants.CreateFirstRotationKeeps | src/modules/auth/auth.repository.ts:178-190 | So does the second, also into a family revoked in between. |
| AuthInvariants.CreateSessionKeeps | src/modules/auth/auth.repository.ts:216-232 | So does the third. |
| AuthEffects.RotateSwaps | src/modules/auth/auth.repository.ts:274-339 | Column by column: a won swap gives the family the next generation, expiry and tenant and keeps its user, uses up the presented row at this moment, adds the successor, marks an active session as seen, and changes no other row; otherwise nothing changes; it is lost exactly when the family is not active at the expected generation. |
| AuthEffects.RevokeRevokes | src/modules/auth/auth.repository.ts:341-401 | Column by column: reason, moment and actor on an active family and session, active and used rotations revoked, the replayed row marked, every other row and column unchanged. |
| AuthEffects.ExpireExpires | src/modules/auth/auth.repository.ts:403-427 | Column by column: status and reason of an active family and session, nothing else. |
| AuthEffects.TouchTouches | src/modules/auth/auth.repository.ts:240-272 | Column by column: the activity columns of an active session; missing values leave theirs alone. |
| AuthWrites.SwapWrites | src/modules/auth/auth.service.ts:918-970 | In the machine, a committed refresh writes exactly that, with its own tenant, tokens, context and the current moment, and signs the next token; a lost one writes nothing. |
| AuthWrites.ReplayWrites | src/modules/auth/auth.service.ts:780-804 | The answer to a replay revokes the family for that reason, now, and marks the presented row. |
| AuthWrites.IdleWrites | src/modules/auth/auth.repository.ts:240-427 | What revocations, expiries, activity updates and blacklist calls change in the machine, and that they change nothing else. |
| AuthWrites.SignInWrites | src/modules/auth/auth.service.ts:541-592 | The three writes of sign-in add exactly their rows; one that fails adds none. |
| AuthWrites.PresentMeans | src/modules/auth/auth.service.ts:828-834 | A token is taken up exactly when it was signed as it stands and the moment is before `exp` plus 30 seconds. |
| AuthWrites.LookupMeans | src/modules/auth/auth.service.ts:686-710 | The lookup yields the row of the presented jti with its family, and only for the family the token names. |
| AuthWrites.CheckMeans | src/modules/auth/auth.service.ts:712-760 | When each outcome of the checks occurs, in the order mismatch, revoked, expired, replay, current. |
| AuthWrites.FinishMeans | src/modules/auth/auth.service.ts:972-978 | The last step blacklists the old token until its `exp`, within a second, and changes no table. |
| AuthSteps.StepKeepsInv | src/modules/auth/auth.service.ts:230-256 | Every enabled step of any request keeps the invariant of the whole machine and moves it forward. |
| AuthSteps.SwapKeeps | src/modules/auth/auth.service.ts:918-970 | The same for the swap: won, lost to another request, or on a settled family. |
| AuthSteps.RevokeReplayedKeeps | src/modules/auth/auth.service.ts:780-804 | The same for the revocation that answers a replay. |
| AuthSteps.ExpireFamilyKeeps | src/modules/auth/auth.service.ts:724-740 | The same for the unawaited expiry, whenever it runs. |
| AuthSteps.CheckKeeps | src/modules/auth/auth.service.ts:712-760 | The same for the local checks: each refusal leaves behind what it claims about the family. |
| AuthSessions.StepMirrors | src/modules/auth/auth.repository.ts:312-426 | Every step except an early revocation or expiry keeps sessions and families in agreement. |
| AuthRepositoryModule.AuthRepository.CreateRefreshTokenFamily | src/modules/auth/auth.repository.ts:166-176 | Adds an active family with these values, or nothing, exactly when the id is taken. |
| AuthRepositoryModule.AuthRepository.CreateRefreshTokenRotation | src/modules/auth/auth.repository.ts:178-190 | Adds an active rotation, or nothing when the family is missing or a unique index objects. |
| AuthRepositoryModule.AuthRepository.CreateUserSession | src/modules/auth/auth.repository.ts:216-232 | Adds an active session, or nothing when the family is missing or already has one. |
| AuthRepositoryModule.AuthRepository.TouchUserSession | src/modules/auth/auth.repository.ts:240-272 | Updates an active session only; missing values leave their columns alone. |
| AuthRepositoryModule.AuthRepository.RotateRefreshTokenFamily | src/modules/auth/auth.repository.ts:274-339 | Statement by statement the compare-and-swap of the run theorems, and column by column what a won one writes, the family's tenant included; a lost swap and a failed statement change nothing. |
| AuthRepositoryModule.AuthRepository.RevokeRefreshTokenFamily | src/modules/auth/auth.repository.ts:341-401 | The revocation of the run theorems, column by column; it fails exactly when the row to mark does not exist. |
| AuthRepositoryModule.AuthRepository.ExpireRefreshTokenFamily | src/modules/auth/auth.repository.ts:403-427 | The expiry of the run theorems, column by column. |
| TokenBlacklist.TokenBlacklistService.Blacklist | src/modules/auth/token-blacklist.service.ts:26-38 | Sets an entry for at least one second; does nothing when Redis is unreachable. |
| TokenBlacklist.TokenBlacklistService.IsBlacklisted | src/modules/auth/token-blacklist.service.ts:47-64 | True exactly for an entry that has not run out in a reachable Redis. |
| TokenBlacklist.EntryCoversToken | src/modules/auth/auth.utilities.ts:60-62 | An entry with the remaining time of a token ends at or after max(exp, one second from now), by less than a second. |
| TokenBlacklist.EntryCoversDate | src/common/utils/date-time.utility.ts:123-125 | The same for an expiry kept as a date, which is rounded up. |
| AuthRevocation.RevokeTargetsInAnyOrder | src/modules/auth/auth.service.ts:628-684 | Duplicates included and in every order of the started tasks: each existing target family and its session end closed, all other families, rotations and sessions are unchanged. |
| AuthRevocation.TargetsRevokedAs | src/modules/auth/auth.service.ts:655-684 | In every order of the started tasks each target that was active carries the reason, moment and actor of the call on its rows; one that was closed before stays as it was. |
| AuthRevocation.RevokeTargetsBlacklist | src/modules/auth/auth.service.ts:655-684 | With Redis reachable, in every order, each target's current access token ends up blacklisted until some target's expiry of it, one second from now at the least, rounded up to seconds. |
| AuthRevocation.TasksClose | src/modules/auth/auth.service.ts:648-650 | Any list of tasks closes exactly the families it names. |
| AuthRevocation.TasksOfTargets | src/modules/auth/auth.service.ts:655-684 | A task is built if and only if some target asks for it. |
| AuthServiceModule.AuthService.IssueSession | src/modules/auth/auth.service.ts:170-200 | Undisturbed sign-in yields a complete family with one active rotation and an active session; a taken id changes nothing; a taken jti leaves a family without a rotation. |
| AuthServiceModule.AuthService.BuildRevocationTasks | src/modules/auth/auth.service.ts:655-684 | One pass builds exactly one revocation per target, and before it a blacklist entry where an access token is known, in order. |
| AuthServiceModule.AuthService.RevokeSessionTargets | src/modules/auth/auth.service.ts:628-653 | Every target is revoked with the given reason, moment and actor, none is left active, others are untouched, current access tokens are blacklisted until they end, and the count is the number of targets. |
| AuthServiceModule.AuthService.VerifyToken | src/modules/auth/auth.service.ts:821-862 | Accepts exactly tokens with a good signature, of the expected type, before `exp` plus 30 seconds if they have one, and not blacklisted in a reachable Redis; and says which check refused. |
| AuthServiceModule.AuthService.PerformLogout | src/modules/auth/auth.service.ts:274-321 | Logs out exactly when both tokens are complete, acceptable and of one subject; then the family is closed and both tokens are blacklisted to their ends, and nothing else changes; otherwise nothing changes. |
| AuthServiceModule.AuthService.RevokeImpersonationTokens | src/modules/auth/auth.service.ts:903-916 | Blacklists the caller's token; revokes only a family the token names. |
| AuthServiceModule.AuthService.EndImpersonation | src/modules/auth/auth.service.ts:422-454 | Refused without any change unless impersonating; otherwise the caller's token and named family are revoked first, and stay so when the administrator has no membership; the new session is complete. |
| AuthServiceModule.AuthService.EndImpersonationWithIssuedToken | src/modules/auth/auth.service.ts:492-508 | Called with an access token as the service issues them, it changes no existing row: the impersonated family and session stay active. |
| AuthServiceModule.AuthService.HandleRefreshReplay | src/modules/auth/auth.service.ts:780-804 | Revokes the family and marks the presented row as replayed. |
| AuthServiceModule.AuthService.AssertRefreshRotationCurrent | src/modules/auth/auth.service.ts:712-760 | When each outcome occurs (mismatch, revoked, expired before replay, replay, current) and what each does to the tables; agrees with the check of the machine. |
| AuthServiceModule.AuthService.PersistRotation | src/modules/auth/auth.service.ts:946-970 | From whatever the tables have become since the lookup: the swap, or on a lost one the replay revocation, or nothing when a statement fails. |
| AuthServiceModule.AuthService.RefreshTokens | src/modules/auth/auth.service.ts:230-256 | Undisturbed: tokens exactly for the current row of an active, unexpired family; replay exactly for another row of such a family, which closes it; expiry exactly for an expired one; what is written, column by column, tenant and session context included, and the blacklist afterwards. |
| CaseCycles.OverlapIsIntersection | src/modules/case-cycles/case-cycles.utilities.ts:79-88 | For proper intervals the test holds if and only if the two half-open intervals share a moment. |
| CaseCycles.OverlapSymmetric | src/modules/case-cycles/case-cycles.utilities.ts:79-88 | The test is symmetric, open ends included. |
| CaseCycles.ActivationGuardsMeanToday | src/modules/case-cycles/case-cycles.service.ts:328-343 | The two activation guards accept exactly the cycles that contain today. |
| CaseCycles.InterleavedWritesKeepOneActive | src/modules/case-cycles/case-cycles.repository.ts:109-137 | After any sequence of writes, however stale the guards behind them, a tenant has at most one active cycle. |
| CaseCycles.WriteKeepsOneActive | src/modules/case-cycles/case-cycles.repository.ts:98-137 | The same for one write of any kind. |
| CaseCycles.ActiveNeverInFuture | src/modules/case-cycles/case-cycles.service.ts:146-207 | In serial runs under a clock that never goes back, an active cycle never starts after today. |
| CaseCycles.ActiveNeverDeleted | src/modules/case-cycles/case-cycles.service.ts:213-229 | Served alone, a request never removes an active cycle. |
| CaseCycles.WriteRemovesIff | src/modules/case-cycles/case-cycles.repository.ts:149-161 | A write removes a cycle, active or not, if and only if it is a delete with its id and tenant. |
| CaseCycles.StaleDeleteRemovesActive | src/modules/case-cycles/case-cycles.repository.ts:149-161 | A delete checked before an activation and written after it removes an active cycle. |
| CaseCycles.ServedKeepsIff | src/modules/case-cycles/case-cycles.service.ts:119-256 | A request that passes its guards keeps the tenant's cycles disjoint if and only if it is neither a close that reaches a following cycle nor a cleared end with a cycle following. |
| CaseCycles.CloseKeepsIff | src/modules/case-cycles/case-cycles.service.ts:235-256 | The same for a close, which runs no overlap check. |
| CaseCycles.UpdateKeepsIff | src/modules/case-cycles/case-cycles.service.ts:146-174 | The same for an update, whose check treats a cleared end as not given. |
| CaseCycles.InsertKeepsIff | src/modules/case-cycles/case-cycles.service.ts:119-140 | An insert keeps the cycles disjoint if and only if the check would still pass when it is written. |
| CaseCycles.SafeRunsKeepNoOverlap | src/modules/case-cycles/case-cycles.service.ts:119-256 | Every serial run of such requests keeps the cycles of every tenant pairwise disjoint. |
| CaseCycles.HabitsAreSafe | src/modules/case-cycles/case-cycles.service.ts:146-256 | Never clearing an end and never closing later than planned is enough. |
| CaseCycles.LateCloseAndClearedEndOverlap | src/modules/case-cycles/case-cycles.service.ts:235-256 | Concrete requests after which two cycles overlap: a late close, and a cleared end. |
| CaseCycles.StaleCheckOverlaps | src/modules/case-cycles/case-cycles.service.ts:119-140 | Two creates checked before either is written are both accepted and overlap. |
| CaseCyclesServiceModule.CaseCyclesService.CheckDateOverlap | src/modules/case-cycles/case-cycles.service.ts:369-391 | The loop reports a clash exactly when some other cycle of the tenant overlaps. |
| CaseCyclesServiceModule.CaseCyclesService.CreateCycle | src/modules/case-cycles/case-cycles.service.ts:119-140 | Accepted exactly when start is before end and every other cycle of the tenant is over before it or starts after it; adds a closed cycle with these dates. Follows the decision and write of the run theorems. |
| CaseCyclesServiceModule.CaseCyclesService.UpdateCycle | src/modules/case-cycles/case-cycles.service.ts:146-174 | Accepted exactly for a row of the tenant whose effective dates are in order and, when given, clear of the others; an active cycle whose dates changed stays active exactly when the effective dates contain today; all other columns and cycles stay. |
| CaseCyclesServiceModule.CaseCyclesService.ActivateCycle | src/modules/case-cycles/case-cycles.service.ts:180-207 | Accepted exactly for a closed row of the tenant with start <= today and no end before today; then it is the tenant's only active cycle, those it replaces are stamped as closed, and no dates change. |
| CaseCyclesServiceModule.CaseCyclesService.CloseCycle | src/modules/case-cycles/case-cycles.service.ts:235-256 | Accepted exactly for an active row of the tenant; closes it with the given end, or now, and stamps who and when. |
| CaseCyclesServiceModule.CaseCyclesService.DeleteCycle | src/modules/case-cycles/case-cycles.service.ts:213-229 | Accepted exactly for a closed row of the tenant; removes it and empties exactly the links of cases to it. |
| CaseCounts.RunsKeepCases | src/modules/case-cycles/case-cycles.repository.ts:149-161 | Over every run no case is lost, changes tenant or status, or points at a missing cycle; links only ever become empty. |
| CaseCounts.ServeKeepsCases | src/modules/case-cycles/case-cycles.repository.ts:149-161 | One request empties exactly the links to a cycle it removed. |
| CaseCounts.CountsAddUpAfterRun | src/modules/case-cycles/case-cycles.service.ts:73-79 | After every run the case counts of a tenant's cycles and the orphan count add up to all its cases, whose number never changes. |
| CaseCounts.CountOrphaned | src/modules/case-cycles/case-cycles.repository.ts:30-36 | The tenant's cases without a cycle, split into those not closed and those closed. |
| CaseCounts.OpenPlusClosed | src/modules/case-cycles/case-cycles.repository.ts:30-36 | Open and closed parts of any set of cases make up the whole. |
| CaseCounts.CountOpenAndClosed | src/modules/case-cycles/case-cycles.utilities.ts:39-53 | The loop returns the exact numbers of closed and of other statuses. |
| CaseCounts.CountsInDetail | src/modules/case-cycles/case-cycles.service.ts:99-113 | The detail view's open and closed numbers add up to its total if and only if the cycle has at most 500 cases. |
| CaseCounts.FiveHundredAndOneCases | src/modules/case-cycles/case-cycles.repository.ts:59-69 | A cycle of 501 open cases shows 501, 500 and 0. |
| SequenceNumbers.ParseUndoesPrint | src/common/utils/sequence-number.utility.ts:19-38 | For every prefix that ends with its separator, padding and number, reading back a printed number gives it, and the next one is its successor. |
| SequenceNumbers.StartsAtOne | src/common/utils/sequence-number.utility.ts:24-35 | With nothing stored, or a last segment that does not start like a number, the next number is one. |
| SequenceNumbers.RestIsIgnored | src/common/utils/sequence-number.utility.ts:28-33 | Whatever follows the digits of the last segment is ignored. |
| SequenceNumbers.BlanksAndPlusAreSkipped | src/common/utils/sequence-number.utility.ts:30-30 | White space before the digits, and one plus sign, are skipped. |
| SequenceNumbers.FormatOrder | src/common/utils/sequence-number.utility.ts:37-37 | While both numbers fit the padding, stored strings sort like their numbers. |
| SequenceNumbers.OverflowSortsLow | src/common/utils/sequence-number.utility.ts:37-37 | 10^pad sorts below 10^pad - 1, for every padding. |
| SequenceNumbers.NextIsFreshBelowBound | src/common/utils/sequence-number.utility.ts:19-38 | While every stored number is below 10^pad, the greatest string is the greatest number, and the generated number is above all stored ones and not stored. |
| SequenceNumbers.NextTakenIff | src/common/utils/sequence-number.utility.ts:19-38 | For any stored numbers: the generated number is already stored if and only if, for some j at or past the padding, the greatest string is 10^j - 1 and 10^j is stored. |
| SequenceNumbers.TakenUpToPaddingIff | src/common/utils/sequence-number.utility.ts:19-38 | With nothing above 10^pad, gaps or not: taken if and only if 10^pad - 1 and 10^pad are both stored, and then the generator returns 10^pad. |
| SequenceNumbers.GreatestUpToPadding | src/modules/attack-paths/attack-paths.repository.ts:133-139 | With nothing above 10^pad, which stored number the descending sort puts first: the greatest below 10^pad, unless 10^pad is stored and all others are at most 10^(pad - 1). |
| SequenceNumbers.LexIsNumericAtEqualLength | src/modules/attack-paths/attack-paths.repository.ts:133-139 | Digit strings of one length sort exactly like their values. |
| AttackPaths.AttackPathsRepository.FindLast | src/modules/attack-paths/attack-paths.repository.ts:133-139 | The greatest stored string with the prefix; none exactly when there is none. |
| AttackPaths.AttackPathsRepository.CreateWithNumber | src/modules/attack-paths/attack-paths.repository.ts:102-142 | For any table, gaps included: inserts the successor of the number that sorts last, which was not stored, or is refused and changes nothing; refused exactly when the table is exhausted, which up to 10000 means that 9999 and 10000 are both stored. |
| AttackPaths.FirstOf2026 | src/modules/attack-paths/attack-paths.repository.ts:130-141 | The first numbers of 2026 are AP-2026-0001 and so on; the ten-thousandth is AP-2026-10000. |
| AgentStats.MeanErrorBound | src/modules/ai-agents/ai-agents.repository.ts:245-249 | After n completions from zero, n times the stored mean misses the sum S of durations by at most (n(n+1) - 2) / 4. |
| AgentStats.MeanWithinRange | src/modules/ai-agents/ai-agents.repository.ts:245-249 | The stored mean stays between the smallest and the largest duration. |
| AgentStats.TotalsExact | src/modules/ai-agents/ai-agents.repository.ts:251-259 | Task count and token total equal the exact count and sum. |
| AgentStats.RoundingError | src/modules/ai-agents/ai-agents.repository.ts:249-249 | Rounding a quotient moves its n-fold by at most n / 2. |
| AgentStats.HalvesGoUp | src/modules/ai-agents/ai-agents.repository.ts:249-249 | The rounded quotient is the nearest integer, and the greater one of two as near. |
| AgentStats.AiAgentsRepository.MarkSessionCompleted | src/modules/ai-agents/ai-agents.repository.ts:210-261 | Completes the session and updates the agent's totals and mean, only for an agent of the tenant; a missing session changes nothing. |
| TokenQuota.CheckMeaning | src/modules/ai/ai.utilities.ts:784-810 | Allowed exactly when no positive limit is reached; otherwise the shortest such period with its numbers. |
| TokenQuota.CounterBound | src/modules/ai/ai.service.ts:372-414 | With at most k runs in flight, counted from the read of a row that will pass its check to the count, and at most t tokens each, a counter that starts below its limit L never exceeds L - 1 + k t, in every interleaving of reads, checks, counts, failures and resets. |
| TokenQuota.CountingFromCheckIsNotEnough | src/modules/ai/ai.service.ts:380-382 | Counted from the check, no bound holds: with never more than one run between check and count, n runs that read the same row add n t tokens, for every n and t. |
| TokenQuota.StaleReadsOvershoot | src/modules/ai/ai.service.ts:440-449 | Two stale reads take a counter with limit 10 from 9 to 19 with five tokens each. |
| TokenQuota.BoundIsReached | src/modules/ai/ai.service.ts:529-549 | The bound counted from the read is reached exactly, for every k and t. |
| TokenQuota.StepKeepsReserve | src/modules/ai/ai.service.ts:440-449 | The invariant behind the bound: what is counted plus t for every run in flight stays below L + k t. |
| TokenQuota.CountersAreIndependent | src/modules/agent-config/agent-config.utilities.ts:107-118 | Each counter equals the tokens recorded since its own last reset, whatever happens to the others. |
| TokenQuota.AgentConfigRepository.IncrementTokenUsage | src/modules/agent-config/agent-config.repository.ts:61-82 | Adds to all three counters and changes nothing else; a missing row is created with limits of 50,000, 500,000 and 5,000,000 tokens. |
| TokenQuota.AgentConfigRepository.ResetTokenCounters | src/modules/agent-config/agent-config.repository.ts:50-59 | Resets one counter and sets the moment of that period only; fails without a row. |
| Alerts.InterleavedIsSerial | src/modules/alerts/alerts.service.ts:221-250 | When no alert that can be acted on is named twice (distinct ids in particular), every finished interleaving of the read-check and write steps ends in the table and outcomes of the serial run; a job succeeds exactly when its alert exists and is not closed or resolved. |
| Alerts.FinalIsAbsorbingSerially | src/modules/alerts/alerts.service.ts:299-328 | Served one at a time, no action ever changes a closed or resolved alert. |
| Alerts.CloseIsLastSerially | src/modules/alerts/alerts.service.ts:130-152 | Served one at a time, a close that succeeded has the last word on its alert. |
| Alerts.StepReopensIff | src/modules/alerts/alerts.repository.ts:28-43 | One step takes a closed or resolved alert out of its status if and only if it is the write of a job on that alert that had passed its check and is not a close. |
| Alerts.ReopensIff | src/modules/alerts/alerts.service.ts:75-152 | On the table and the jobs alone: an alert that some interleaving makes final can be taken out of that status again, if and only if it could be acted on at the start and the jobs hold both a close and another action on it. |
| Alerts.StaysFinalIff | src/modules/alerts/alerts.service.ts:75-152 | From any state in between with a closed or resolved alert: it stays so on every further schedule if and only if no job past its check on it is anything but a close. |
| Alerts.FinalUntouched | src/modules/alerts/alerts.service.ts:299-328 | With no job past its check on it, no further schedule changes anything in its row. |
| Alerts.RaceReopensClosedAlert | src/modules/alerts/alerts.repository.ts:28-43 | A concrete schedule on one alert: a write after a stale check reopens a closed alert and both actions report success. |
| Alerts.SuccessesAreEligible | src/modules/alerts/alerts.service.ts:221-250 | Served serially, when no alert that can be acted on is named twice, the success count is the number of ids that exist and are not closed or resolved. |
| Alerts.CountIsExactIff | src/modules/alerts/alerts.service.ts:221-250 | For every list of ids: the success count is that number on every finished interleaving, if and only if the list names none of those alerts twice. |
| Alerts.AlertsService.Perform | src/modules/alerts/alerts.service.ts:75-152 | Not found and already closed exactly when they apply, without any change; otherwise, action by action, the columns of the one row that change and their values, all others as before. |
| Alerts.AlertsService.Bulk | src/modules/alerts/alerts.service.ts:221-250 | The table and success count of the serial run; successes and failures add up to the ids. |
| Batches.ProcessInBatches | src/common/utils/batch.utility.ts:8-24 | For every list and batch size of at least one: it ends, and result i is that of item i. |
| Batches.ChunksMakeUpTheList | src/common/utils/batch.utility.ts:32-48 | The chunks, put together, are the list. |
| Batches.ChunksAreFull | src/common/utils/batch.utility.ts:32-48 | No chunk is empty or too long, and all but the last are full. |
| Batches.ChunkedIsPerChunk | src/common/utils/batch.utility.ts:32-48 | Result i is the processor's answer for chunk i. |
| AlertIngestion.UpsertAllIngests | src/modules/alerts/alerts.repository.ts:45-56 | Distinct hits add exactly the unseen ids as new alerts, change only the raw event of known ones, and leave all others alone. |
| AlertIngestion.AnyOrderSameTable | src/modules/alerts/alerts.service.ts:163-171 | The order in which upserts finish makes no difference. |
| AlertIngestion.IngestHitsTwice | src/modules/alerts/alerts.utilities.ts:128-203 | Ingesting the same hits again, at any later moment, leaves the same table. |
| AlertIngestion.AlertsRepository.UpsertByExternalId | src/modules/alerts/alerts.repository.ts:45-56 | One upsert. |
| AlertIngestion.AlertsRepository.UpsertInBatches | src/common/utils/batch.utility.ts:8-24 | Batch after batch, one result per operation in order, and exactly the accepted ones are applied. |
| AlertIngestion.AlertsRepository.Ingest | src/modules/alerts/alerts.service.ts:157-186 | Counts and failures make up the hits; when every upsert succeeds and no two hits go to one alert, each hit is stored under its document id (else its own id): a new alert with its title, severity, timestamp (else the fallback) and status, or a known alert with only another raw event; no other alert changes. |
| AlertIngestion.LevelBounds | src/modules/alerts/alerts.utilities.ts:113-122 | The bounds 12, 8, 5 and 3 of the severities; no level and level 0 are information. |
| AlertIngestion.CountIngestedResults | src/modules/alerts/alerts.utilities.ts:237-253 | The count is the number of fulfilled results; the messages are those of the rejected ones, in order. |
| Redaction.FieldsAfterRedaction | src/common/utils/redaction.utility.ts:5-34 | At levels 0 to 5, reached through objects or arrays of objects: every sensitive field is replaced, every other atom and, at level 5, every other value is unchanged, keys and lengths stay. |
| Redaction.SensitiveKeys | src/common/utils/redaction.constants.ts:5-25 | Which keys are sensitive, name by name. |
| Redaction.RedactedAt | src/common/utils/redaction.utility.ts:5-34 | Every object reached on a path of at most five open steps is the redaction of the object that was there. |
| Redaction.RedactTwiceEntries | src/common/utils/redaction.utility.ts:5-34 | Redacting twice is redacting once, from every depth. |
| Redaction.RedactSensitiveFields | src/common/utils/redaction.utility.ts:5-34 | The loop over an insertion-ordered map, with its recursion, computes that redaction. |

## Left out

- Signing, SHA-256 and bcrypt, issuing of login and impersonation payloads, cookies, `parseExpiryToSeconds`: a token is its claims here.
- Membership, tenant and user lookups during a refresh: one step that may deny it. The tenant written by a swap is an arbitrary argument.
- The Redis keys for family generations (`setFamilyGeneration`, `invalidateFamily`): no modelled operation reads them.
- `touchSessionActivity` after its first test: issued access tokens never get past it; the row update itself is `TouchUserSession`.
- Deletion of users, tenants and families (cascades): families and rotations are never removed here.
- Names and descriptions of cycles, owners of cases, listing and paging of cycles: not read by any modelled rule. Moving a case into a cycle belongs to another module.
- AuthRuns.SettledForever: a family settled before its first rotation was written may still gain that one rotation, so the claim about rotations is for families that have one.
- AlertIngestion.AlertsRepository.UpsertBatch: takes the upserts of a batch one after the other; that any other order gives the same table is AnyOrderSameTable, for distinct hits.
- Alerts.AlertsService.Bulk: serves its ids one after the other; InterleavedIsSerial carries the result over to the concurrent calls, when no alert that can be acted on is named twice; CountIsExactIff covers the other lists.
- AuthServiceModule.AuthService.RevokeSessionTargets: runs its tasks in the order they were started; RevokeTargetsInAnyOrder covers all others.
- Batches.ProcessInBatches: for a batch size of at least one; with zero `processInBatches` never ends.
- SequenceNumbers.ParseUndoesPrint: numbers beyond 2^53, other white space than blank, tab and line ends, and a leading sign other than plus are not modelled; the database is taken to order digit strings by character code.
- AgentStats.MeanErrorBound: exact integers with halves rounded up; floating-point error, `totalCost` and 32-bit columns are not modelled.
- TokenQuota.CounterBound: recorded token counts are not negative and the limits stay fixed; the global budget and estimated costs are not modelled.
- Text, network and MITRE fields of a Wazuh alert, entity extraction and triage dispatch: a row keeps title, severity, timestamp, status and raw event. A hit without any id is not modelled.
- Redaction.RedactSensitiveFields: keys that look like array indices, which JavaScript lists first, and the key `__proto__` are not treated specially; a tree is finite and its values plain.
- Controllers, guards, logging, audit, AI providers, connectors and search-query builders: wiring, text and network.
