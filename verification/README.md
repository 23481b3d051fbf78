# Verified models of the core protocols

This project models the stateful core of the backend in Dafny and proves what it keeps,
in every run and for every input:

- **Sessions and refresh tokens** (`AuthTransactions`, `AuthEffects`, `AuthRepository`,
  `AuthProtocol`, `AuthAnswers`, `AuthSessionLifecycle`, `AuthInvariants`, `AuthTheorems`). Every
  repository transaction is a method over mutable tables, proved to commit one named state change
  and to do to each row what it is for; every request (refresh, logout, login,
  revoke, reset, change, suspend, delete, push tokens) is a process whose database calls
  interleave with those of any number of others. The scheme is refresh-token rotation as
  in section 4.14.2 of RFC 9700.
- **List queries** (`ListSort`, `Scalars`, `ListCursor`, `Filters`, `FilterMeaning`,
  `FilterParsing`, `AdminUsersFilters`, `CursorAfter`, `Pagination`, `ListQuery`). The sort, cursor and filter parameters, the
  keyset clause, the page cut, and what following `nextCursor` enumerates.
- **Accounts** (`AccountLifecycle`, `ConcurrentAccounts`, `LastAdmin`). Role, status and
  deletion with their audit rows, as atomic transactions and as transactions that overlap, and
  the last-admin guard statement by statement and row lock by row lock.
- **Idempotency keys** (`StableStringify`, `StringifyTheorems`, `StringifyLimits`,
  `IdempotencyRecord`, `Idempotency`, `IdempotencyService`). The canonical text behind the request hash, the
  stored records, and the life of one Redis key shared by interleaving requests.
- **Limits and backoff** (`RateLimit`, `TxRetry`).
- **Profile images** (`ProfileImage`, `ProfileImageService`, `ProfileImageRuns`). Stored files
  and the profile's reference to one, one database call at a time.

`Wrappers`, `Text`, `JsonValue` and `UserModel` hold what several of them share.

Code that updates state in place is a class or a loop proved against a function of the old
state; the theorems are about that function and about runs of it. A run is any sequence of
actions of any length: spawning a request, advancing one of them by one step, letting time
pass.

Some statements one might expect are false of the code. For each there is a run or an input
in which it fails, and the exact condition under which it fails or holds:

- *A revoked session has no live token.* It fails (`RevokedSessionMayHoldLiveToken`) at
  exactly one kind of step, the token insert of a login whose session was revoked since its
  own insert (`OnlyLateLoginsLeaveLiveTokens`). Such a token is the only one of its session
  and is refused (`LiveTokenOfRevokedSessionIsAlone`).
- *The last-admin guard always leaves an active admin.* It fails (`RaisedTargetSlipsThrough`)
  exactly after a commit that raises the target of a lowering which took no guard and has not
  written yet (`OnlyExposedRaisesEndanger`); without such a commit it holds
  (`AnActiveAdminRemains`).
- *One execution at a time per idempotency key.* While the first acquisition is outstanding, a
  second request acquires the key exactly when the first has outlived its lock
  (`SecondExecutionExactlyAfterExpiry`), and then the late one can delete the other's lock
  (`LateHandlerFreesAnothersLock`). What its DEL or SET hits is its own lock exactly until that
  lock expires (`OwnLockExactlyUntilExpiry`).
- *A normalized sort parses to itself.* It does exactly when the completed sort has at most
  `maxFields` fields (`NormalizedReparses`, `FullSortIsRefusedWhenRepeated`).
- *The rate limit bounds every window's length.* It does exactly when a block lasts at least a
  window, for every configuration (`LimitNeedsLongBlocks`, `ShortBlockAdmitsMore`).
- *Equal request texts mean equal payloads.* They do, up to the order of keys, exactly for a
  payload within the limits on depth, arrays, keys, strings and total length
  (`IdentifiedExactlyWithin`); any other has the text of a different one (`BeyondCollides`).
- *A completed upload leaves the user with an image.* Whether completeUpload attaches the file or
  finds it attached, it does exactly when the file was not deleted since it was read
  (`CompletionLeaves`), and a mark decided on before still takes the file afterwards
  (`MarkTakesEvenAttachedImage`). Three runs lose both the new and the previous image
  (`ExpiryDuringCompletion`, `CompletionDuringExpiry`, `ExpiryDuringRetry`).
- *A deleted account has no image.* An image it had stays ACTIVE (`DeletedAccountWithImage`) and
  none is added (`DeletedAccountGainsNoImage`), so it has none exactly when it had none at its
  deletion or that one was marked since, by a job or by a rejected upload
  (`DeletedAccountsImages`, `OnlyMarkTakesDeletedAccountsImage`, `DeletedAccountKeepsImage`).
- *A canceled deletion is not carried out, every request is accounted for, a deleted account
  stays deleted.* All hold of account transactions that do not overlap, and of any run in which no
  row changes between a transaction's read and its commit (`FreshRunsAreSerial`). Otherwise the
  audit rows are off by exactly the overtaken requests and finalizations
  (`RequestsOffByOvertakes`, `RequestedTwice`, `CanceledYetDeleted`), and a deleted account can
  come back exactly while a status change that read it before is under way
  (`DeletedForGoodExactlyWhen`, `DeletedYetActive`).

The admin filter mapping by itself drops every filter it does not recognize, and no other
(`AppliedExactlyWhenRecognized`); such filters never reach it, so for every accepted query it
applies them all (`AcceptedFiltersSelect`).

## Model

| member | source | states |
|---|---|---|
| AuthRepository.AuthRepository.RotationTransaction | libs/features/auth/infra/persistence/prisma-auth.repository.refresh-tokens.ts:135-172 | the statements of the rotation commit the swap of the presented token for its successor, or leave every table as it was when the compare-and-set misses or the session is gone |
| AuthRepository.AuthRepository.CreateToken | libs/features/auth/infra/persistence/prisma-auth.repository.refresh-tokens.ts:17-36 | inserting a token for an existing session adds exactly that row; for a deleted session nothing changes |
| AuthRepository.AuthRepository.RevokeSessionByRefreshTokenHash | libs/features/auth/infra/persistence/prisma-auth.repository.refresh-tokens.ts:177-192 | a known hash revokes its session and all its tokens in whatever the tables have become since the lookup; an unknown one changes nothing |
| AuthRepository.AuthRepository.RevokeSessionAndTokens | libs/features/auth/infra/persistence/prisma-auth.repository.refresh-tokens.ts:194-221 | the three updates revoke the session and its tokens without overwriting an earlier revokedAt |
| AuthRepository.AuthRepository.RevokeSessionById | libs/features/auth/infra/persistence/prisma-auth.repository.sessions.ts:156-202 | only the owner's session is revoked, with its tokens; otherwise nothing changes |
| AuthRepository.AuthRepository.RevokeActiveSessionForDevice | libs/features/auth/infra/persistence/prisma-auth.repository.sessions.ts:288-319 | the one open session that holds the key is revoked with its tokens, and no other row changes |
| AuthRepository.AuthRepository.Create | libs/features/auth/infra/persistence/prisma-auth.repository.sessions.ts:321-340 | a session is inserted unless its active key is taken or its user does not exist |
| AuthRepository.AuthRepository.UpsertSessionPushToken | libs/features/auth/infra/persistence/prisma-auth.repository.sessions.ts:204-266 | a push token moves to the caller's open session and to no other; an unusable session takes it from nobody |
| AuthRepository.AuthRepository.RevokeSessionPushToken | libs/features/auth/infra/persistence/prisma-auth.repository.sessions.ts:268-286 | clears the push token of the user's own session only |
| AuthRepository.AuthRepository.ResetPasswordByTokenHash | libs/features/auth/infra/persistence/prisma-auth.repository.credentials.ts:21-75 | an unspent, unexpired reset token changes the password, revokes every session, token and other open reset token of the user; any other is refused without effect |
| AuthRepository.AuthRepository.ChangePasswordAndRevokeOtherSessions | libs/features/auth/infra/persistence/prisma-auth.repository.credentials.ts:77-138 | with the expected old hash, the password changes and all other open sessions are revoked with their tokens; otherwise nothing changes |
| AuthRepository.AuthRepository.SetUserStatus | libs/features/admin/infra/persistence/prisma-admin-users.repository.ts:126-215 | suspension revokes every session and token of the user in the same transaction and leaves push tokens |
| AuthRepository.AuthRepository.FinalizeDeletion | apps/worker/src/jobs/users-account-deletion.handlers.ts:105-134 | finalization deletes the user's credentials, reset tokens and sessions, and with them the refresh tokens, and nobody else's |
| AuthSessionLifecycle.AuthSessionLifecycleService.Refresh | libs/features/auth/app/auth-session-lifecycle.service.ts:42-130 | whatever happens between its calls, a refresh answers as the interleaving model does, and gives each answer exactly when the user, session and token rows at its two reads and its transaction call for it: tokens rotated only for an active user, an open unexpired session and a live token, and then always |
| AuthSessionLifecycle.RefreshAnswers | libs/features/auth/app/auth-session-lifecycle.service.ts:42-130 | each of the seven answers of a refresh if and only if its condition on the rows, and the tables it leaves |
| AuthSessionLifecycle.LoginMeans | libs/features/auth/app/auth-session-lifecycle.service.ts:155-188 | when a login is answered how, and the session and token rows it leaves |
| AuthAnswers.TransactionMeans | libs/features/auth/infra/persistence/prisma-auth.repository.credentials.ts:21-138 | what each request of one transaction does to every row, and when it is refused |
| AuthSessionLifecycle.AuthSessionLifecycleService.RotateRefreshToken | libs/features/auth/infra/persistence/prisma-auth.repository.refresh-tokens.ts:80-175 | the same for the read, the rotation transaction and the revocation after a lost race, with the exact condition of each answer |
| AuthSessionLifecycle.AuthSessionLifecycleService.Logout | libs/features/auth/app/auth-session-lifecycle.service.ts:132-139 | the same for a logout's lookup and revocation: a known token's session is closed with its tokens |
| AuthSessionLifecycle.AuthSessionLifecycleService.CreateSessionAndTokens | libs/features/auth/app/auth-session-lifecycle.service.ts:155-188 | the same for a login's device revocation, session insert and token insert |
| AuthInvariants.RevokeKeeps | libs/features/auth/infra/persistence/prisma-auth.repository.refresh-tokens.ts:199-220 | every revoking transaction keeps the table invariants, writes timestamps once, and sweeps the tokens of each session it revokes |
| AuthInvariants.SwapExtendsChain | libs/features/auth/infra/persistence/prisma-auth.repository.refresh-tokens.ts:136-154 | the presented token is the last of its session's chain and the successor becomes the new last |
| AuthInvariants.SwapKeeps | libs/features/auth/infra/persistence/prisma-auth.repository.refresh-tokens.ts:136-164 | a committed rotation keeps all table invariants |
| AuthInvariants.ProcStable | libs/features/auth/infra/persistence/prisma-auth.repository.refresh-tokens.ts:80-175 | what a request knows from its earlier reads survives any step of any other request |
| AuthInvariants.ProgressKeeps | libs/features/auth/app/auth-session-lifecycle.service.ts:42-188 | every step of every request keeps the table invariants and establishes what the request relies on next |
| AuthInvariants.NoNewClash | libs/features/auth/infra/persistence/prisma-auth.repository.refresh-tokens.ts:146-153 | no step can claim a rotation, a reset or a fresh session that another request already has |
| AuthInvariants.RunKeeps | libs/features/auth/infra/persistence/prisma-auth.repository.refresh-tokens.ts:80-221 | the whole invariant holds in every run |
| AuthTheorems.RotationCommitsOnOpenSession | libs/features/auth/infra/persistence/prisma-auth.repository.refresh-tokens.ts:80-175 | a rotation answered ok commits while its session is unrevoked and unexpired and its token live, although that was checked outside the transaction |
| AuthTheorems.UndisturbedRefreshRotates | libs/features/auth/app/auth-session-lifecycle.service.ts:42-130 | from every reachable state a refresh that nothing interrupts rotates the token exactly when user, session and token are good, and its successor can be refreshed in turn |
| AuthTheorems.TokensFormOneChain | libs/features/auth/infra/persistence/prisma-auth.repository.refresh-tokens.ts:135-164 | the tokens of a session form one acyclic chain, only its last can be live, and all expire with the session |
| AuthTheorems.EachTokenSpentOnce | libs/features/auth/infra/persistence/prisma-auth.repository.refresh-tokens.ts:146-153 | no token is rotated twice and no reset token changes the password twice |
| AuthTheorems.LiveTokenOfRevokedSessionIsAlone | libs/features/auth/infra/persistence/prisma-auth.repository.refresh-tokens.ts:112-120 | a live token of a revoked session is its only token and is always refused |
| AuthTheorems.OnlyLateLoginsLeaveLiveTokens | libs/features/auth/app/auth-session-lifecycle.service.ts:155-188 | a step of a run gives a revoked session an unrevoked token if and only if it is the token insert of a login whose session is already revoked |
| AuthTheorems.RevokedSessionMayHoldLiveToken | libs/features/auth/app/auth-session-lifecycle.service.ts:155-188 | a reachable state with a live token of a revoked session, because login inserts session and token in separate steps |
| AuthTheorems.WrittenAtMostOnce | libs/features/auth/infra/persistence/prisma-auth.repository.refresh-tokens.ts:194-221 | over any run, revokedAt, usedAt and replacedById are written at most once, identities stay, deleted rows never return |
| AuthTheorems.ReuseEndsTheSession | libs/features/auth/app/auth-session-lifecycle.service.ts:80-127 | after a refresh reports reuse its session stays revoked or deleted, and no refresh of its tokens, in flight or later, succeeds |
| AuthTheorems.LogoutEndsTheSession | libs/features/auth/app/auth-session-lifecycle.service.ts:132-139 | the same after a logout |
| AuthTheorems.ReplayIsReported | libs/features/auth/app/auth-session-lifecycle.service.ts:80-88 | a refresh that saw its token already used can only end by reporting reuse |
| AuthTheorems.ActiveKeyInjective | libs/features/auth/app/auth.service.helpers.ts:100-103 | the active key determines user and device, since user ids hold no colon |
| AuthTheorems.OneOpenSessionPerDevice | libs/features/auth/infra/persistence/prisma-auth.repository.sessions.ts:288-340 | revoked sessions have no active key, open ones with a device hold exactly theirs, and open sessions are unique per user and device |
| AuthTheorems.LoneLoginNeverConflicts | libs/features/auth/app/auth-session-lifecycle.service.ts:155-188 | a login that no other login for the device overlaps never trips the unique index |
| AuthTheorems.ResetLocksEverythingOut | libs/features/auth/infra/persistence/prisma-auth.repository.credentials.ts:29-74 | a successful reset leaves every session the user had revoked for good, their tokens revoked, their reset tokens spent |
| AuthTheorems.EndedExactlyAndForGood | libs/features/auth/infra/persistence/prisma-auth.repository.sessions.ts:156-202 | an open session is ended by exactly the revocation, logout, reuse, device login, reset, password change, suspension or deletion that is for it, and then for good in every continuation |
| AuthTheorems.EarlierResetTokensNeverWork | libs/features/auth/infra/persistence/prisma-auth.repository.credentials.ts:29-74 | after a successful reset, in any continuation no request, in flight or later, changes the password with a reset token the user had by then |
| CursorAfter.BuildCursorAfterWhere | libs/shared/list-query/cursor-after.ts:30-58 | the loops build the OR of ANDs, or report the first sort field the cursor lacks |
| CursorAfter.AfterWhereMeansLexAfter | libs/shared/list-query/cursor-after.ts:30-58 | the clause holds for exactly the rows strictly after the cursor in the lexicographic order with one direction per field |
| CursorAfter.LexAfterAtFirstDifference | libs/shared/list-query/cursor-after.ts:39-55 | that order is decided at the first field on which the rows differ |
| CursorAfter.LexAfterTransitive | libs/shared/list-query/cursor-after.ts:30-58 | it is transitive when every column is totally ordered |
| CursorAfter.LexAfterConnected | libs/shared/list-query/cursor-after.ts:30-58 | rows that differ in some sort field are comparable |
| Pagination.MergeMeansAll | libs/features/admin/infra/persistence/prisma-list-query.helpers.ts:40-45 | merging where clauses and dropping empty ones loses no condition |
| Pagination.BuildNextCursor | libs/features/admin/infra/persistence/prisma-admin-users.query-builders.ts:187-206 | the next cursor holds the last row's value of every sort field, and exists only when there is more |
| Pagination.ListUsers | libs/features/admin/infra/persistence/prisma-admin-users.repository.ts:36-70 | one page is the first `limit` rows of the query, with `hasMore` decided by one extra row |
| Pagination.PagesSoFar | libs/features/admin/infra/persistence/prisma-admin-users.repository.ts:58-63 | after any number of pages, exactly a prefix of the sorted listing has been seen and the cursor stands at its end |
| Pagination.WalkEnumeratesListing | libs/features/admin/infra/persistence/prisma-admin-users.repository.ts:36-70 | following nextCursor visits every matching row exactly once, in order, in max(1, ceil(n / limit)) pages |
| Pagination.WalkCanBeFinished | libs/features/admin/infra/persistence/prisma-admin-users.repository.ts:36-70 | every partial walk can be continued until no cursor is left |
| ListSort.ParseSortQuery | libs/shared/list-query/sort.ts:29-94 | the token loop returns the completed sort, or every complaint in order |
| ListSort.SortMeans | libs/shared/list-query/sort.ts:29-94 | a sort parameter is accepted if and only if its tokens name distinct allowed fields, not too many, and is then those in order, or the default, with the tie-breaker; and what is complained of otherwise |
| ListSort.ParsedSort | libs/shared/list-query/sort.ts:59-93 | a returned sort has distinct allowed fields and contains the tie-breaker |
| ListSort.NormalizeInjective | libs/shared/list-query/sort.ts:11-13 | two sorts with the same normalized text are the same sort |
| ListSort.NormalizedReparses | libs/shared/list-query/sort.ts:11-94 | a normalized sort parses to itself exactly when it has at most maxFields fields |
| ListSort.FullSortIsRefusedWhenRepeated | libs/shared/list-query/sort.ts:74-90 | the appended tie-breaker can push a sort over the limit when its normalized text is sent back |
| Scalars.ParseScalarMeans | libs/shared/list-query/scalars.ts:6-65 | a raw value is read as a scalar if and only if it denotes it |
| Scalars.CanonicalReads | libs/shared/list-query/scalars.ts:6-65 | canonical scalars of every field type survive a trip through a cursor |
| ListCursor.DecodeCursorV1 | libs/shared/list-query/cursor.ts:33-116 | the decoder returns the values of `after`, or exactly the set of its complaints |
| ListCursor.DecodeMeans | libs/shared/list-query/cursor.ts:33-116 | any cursor is accepted if and only if it is a payload for this sort with a value of its type for every entry and one for every sort field |
| ListCursor.CursorRoundTrip | libs/shared/list-query/cursor.ts:16-116 | a proper cursor decodes to its own values exactly when it is short enough and was made for this sort, and is refused otherwise |
| ListCursor.AcceptedCursorCoversSort | libs/shared/list-query/cursor.ts:65-115 | an accepted cursor was made for this sort, has a value for every sort field, and only allowed columns |
| ListQuery.NextCursorSurvives | libs/features/admin/infra/persistence/prisma-admin-users.query-builders.ts:187-206 | for every sort the parser returns, the cursor of a page decodes on the next request to exactly that cursor |
| ListQuery.ClientReceivesListing | libs/features/admin/infra/persistence/prisma-admin-users.repository.ts:36-70 | a client that sends each encoded cursor back with the same raw sort is never refused, and has in the end every matching row exactly once, in order, in max(1, ceil(n / limit)) pages |
| FilterParsing.FilterParser.Parse | libs/shared/list-query/filter.ts:30-187 | the loops over either spelling accept exactly the filters whose every statement fits its field, and collect exactly the expressions of what is stated |
| FilterParsing.FilterParser.AddExpr | libs/shared/list-query/filter.ts:52-104 | one expression is added, or one issue |
| Filters.CollectAll | libs/shared/list-query/filter.ts:182-186 | a filter is accepted exactly when each of its items is, and then lists their expressions in order |
| Filters.SpellingsAgree | libs/shared/list-query/filter.ts:39-180 | the nested and the bracketed spelling are accepted together and parse to the same list |
| FilterMeaning.ParsedMeans | libs/shared/list-query/filter.ts:30-187 | a raw filter in either spelling is accepted if and only if every statement in it fits its field, and is then parsed to exactly the expressions of its statements |
| FilterMeaning.ComplaintsAreJustified | libs/shared/list-query/filter.ts:61-187 | every complaint names a statement that does not fit |
| AdminUsersFilters.RawFilterSelects | libs/shared/list-query/filter.ts:30-187 | for every accepted raw filter the listing selects exactly the rows of which each `field operator value` in it is true: gte at or after the date, lte at or before, eq equal, in one of the items |
| AdminUsersFilters.MapUsersFilters | libs/features/admin/infra/persistence/prisma-admin-users.query-builders.ts:91-142 | the loop pushes one clause for each filter it recognizes |
| AdminUsersFilters.ParsedAreAccepted | libs/features/admin/infra/http/admin-users.controller.ts:37-42 | every filter accepted under the users allowlist has a form the mapping handles |
| AdminUsersFilters.ClauseMeans | libs/features/admin/infra/persistence/prisma-admin-users.query-builders.ts:96-138 | the clause of an accepted filter holds for exactly the rows that meet it |
| AdminUsersFilters.AcceptedFiltersSelect | libs/features/admin/infra/persistence/prisma-admin-users.query-builders.ts:91-159 | for every accepted raw filter the merged clause selects exactly the rows meeting every parsed filter and the other conditions |
| AdminUsersFilters.AppliedExactlyWhenRecognized | libs/features/admin/infra/persistence/prisma-admin-users.query-builders.ts:91-142 | over all filters, parsed or not: the mapped clause selects the rows that meet the filter exactly when the mapping recognizes it, and otherwise restricts nothing |
| AccountLifecycle.AccountStore.RequestAccountDeletion | libs/features/users/infra/persistence/prisma-users.repository.ts:178-236 | a deletion request sets the four fields and one audit row, or reports the pending, missing or last-admin case without effect |
| AccountLifecycle.AccountStore.RequestWithGracePeriod | libs/features/users/app/users.service.ts:38-72 | a new request is due thirty days later; a repeated one keeps its date |
| AccountLifecycle.AccountStore.CancelAccountDeletion | libs/features/users/infra/persistence/prisma-users.repository.ts:238-286 | a cancel clears the four fields and adds one audit row |
| AccountLifecycle.AccountStore.RunFinalizeAccountDeletion | apps/worker/src/jobs/users-account-deletion.handlers.ts:34-161 | finalization deletes exactly the due accounts, with their audit rows, except the only active admin |
| AccountLifecycle.AccountStore.SetUserRole | libs/features/admin/infra/persistence/prisma-admin-users.repository.ts:72-124 | a role change with its audit row, refused exactly for a missing account and for the only active admin that would lose the role; nothing else changes |
| AccountLifecycle.AccountStore.SetUserStatus | libs/features/admin/infra/persistence/prisma-admin-users.repository.ts:126-215 | a status change with its audit row, refused exactly for a missing account and for the only active admin that would be suspended; nothing else changes |
| AccountLifecycle.AccountStore.LockActiveAdminInvariant | libs/platform/db/row-locks.ts:8-16 | the count of the active admins |
| AccountLifecycle.SetRoleMeans | libs/features/admin/infra/persistence/prisma-admin-users.repository.ts:76-123 | every answer of a role change if and only if its case, and the account and audit row it leaves |
| AccountLifecycle.FinalizeMeans | apps/worker/src/jobs/users-account-deletion.handlers.ts:34-161 | the same for a finalization |
| AccountLifecycle.AdminStays | libs/platform/db/row-locks.ts:8-16 | no request, cancel, finalization, role or status change takes the last active admin away |
| AccountLifecycle.AdminRemains | libs/platform/db/row-locks.ts:8-16 | so one remains in every run of atomic transactions |
| AccountLifecycle.RequestsAreConserved | libs/features/users/infra/persistence/prisma-users.repository.ts:187-285 | REQUESTED rows = CANCELED + FINALIZED + one if a deletion is pending, in every run of atomic transactions |
| AccountLifecycle.MissingSessionIdUnreachable | apps/worker/src/jobs/users-account-deletion.handlers.ts:70-101 | the four deletion fields are all set or all null, so the invariant throw cannot happen |
| AccountLifecycle.FinalizedOnlyAfterGracePeriod | apps/worker/src/jobs/users-account-deletion.handlers.ts:57-68 | every FINALIZED row follows a request of that user at least thirty days older that nothing canceled in between |
| AccountLifecycle.AuditsExplainTheAccount | libs/features/admin/infra/persistence/prisma-admin-users.repository.ts:72-215 | the status rows of a user form a chain ending at the current status, the role rows end at the role of an account not deleted |
| AccountLifecycle.DeletedIsTerminal | apps/worker/src/jobs/users-account-deletion.handlers.ts:53-55 | no atomic transaction changes a deleted account |
| ConcurrentAccounts.FreshRunsAreSerial | libs/features/users/infra/persistence/prisma-users.repository.ts:187-234 | an interleaved run in which no row changes between a transaction's read and its commit commits what a run of atomic transactions in commit order does |
| ConcurrentAccounts.RequestsOffByOvertakes | libs/features/users/infra/persistence/prisma-users.repository.ts:187-285 | in every interleaving, REQUESTED rows - CANCELED - FINALIZED - pending = overtaken requests - overtaken finalizations |
| ConcurrentAccounts.RequestedTwice | libs/features/users/infra/persistence/prisma-users.repository.ts:190-231 | two overlapping first requests of a user are both recorded |
| ConcurrentAccounts.CanceledYetDeleted | apps/worker/src/jobs/users-account-deletion.handlers.ts:34-121 | a run in which an account is deleted although its user canceled after the worker's read |
| ConcurrentAccounts.DeletedForGoodExactlyWhen | libs/features/admin/infra/persistence/prisma-admin-users.repository.ts:143-187 | a deleted account stays deleted in every continuation if and only if no status change that read it before is still to commit |
| ConcurrentAccounts.DeletedYetActive | libs/features/admin/infra/persistence/prisma-admin-users.repository.ts:143-187 | a run in which a reactivation overwrites a finalized deletion |
| LastAdmin.StepKeeps | libs/features/admin/infra/persistence/prisma-admin-users.repository.ts:76-123 | every statement, row lock and commit keeps the guard's invariant, unless it commits a raise of an unguarded lowering's target |
| LastAdmin.AnActiveAdminRemains | libs/platform/db/row-locks.ts:8-16 | in every statement-level interleaving at least one active admin remains, if no commit raises the target of a lowering that took no guard and has not written yet |
| LastAdmin.OnlyExposedRaisesEndanger | libs/features/admin/infra/persistence/prisma-admin-users.repository.ts:143-185 | that assumption is exact: a step raises such a target if and only if from then on the last active admin can be lost without any further such raise |
| LastAdmin.UndisturbedChange | libs/features/admin/infra/persistence/prisma-admin-users.repository.ts:76-123 | a change that nothing interrupts is refused exactly for a missing user and for the only active admin it would take away, and otherwise makes exactly the change asked for |
| LastAdmin.RaisedTargetSlipsThrough | libs/features/admin/infra/persistence/prisma-admin-users.repository.ts:143-185 | without that assumption a run ends with no active admin |
| StableStringify.StableStringifyValue | libs/platform/http/idempotency/idempotency.core.ts:49-86 | the recursion with its pushed parts computes the canonical text |
| StringifyTheorems.KeyOrderIgnored | libs/platform/http/idempotency/idempotency.core.ts:73-79 | payloads equal up to key order at every level have the same text, whatever their size |
| StringifyTheorems.ValueReads | libs/platform/http/idempotency/idempotency.core.ts:49-86 | the text of a payload within the limits tells it from every other payload, even one that is cut, and tells where it ends |
| StringifyTheorems.TextIdentifiesPayload | libs/platform/http/idempotency/idempotency.core.ts:49-86 | a payload within the limits has the same text as any other payload, of whatever size, exactly when the two are equal up to key order |
| StringifyTheorems.LongStringsCollide | libs/platform/http/idempotency/idempotency.core.ts:44-47 | beyond the string limit texts agree exactly when the first 1024 UTF-16 units do |
| StringifyLimits.BeyondCollides | libs/platform/http/idempotency/idempotency.core.ts:44-86 | every payload beyond a limit, wherever in it the limit is passed, has the same text as a different payload |
| StringifyLimits.IdentifiedExactlyWithin | libs/platform/http/idempotency/idempotency.core.ts:49-86 | a payload shares its text with no different one if and only if it is within the limits |
| IdempotencyRecord.ParseStoredRecord | libs/platform/http/idempotency/idempotency.core.ts:107-155 | the reader with its header loop returns what a stored text means, or nothing |
| IdempotencyRecord.ParseMeans | libs/platform/http/idempotency/idempotency.core.ts:107-155 | a stored text reads as a record if and only if its fields are those of that record |
| IdempotencyRecord.RecordRoundTrip | libs/platform/http/idempotency/idempotency.core.ts:107-181 | a stored record reads back as itself exactly when it is canonical |
| IdempotencyRecord.ReadIsCanonical | libs/platform/http/idempotency/idempotency.core.ts:107-155 | whatever is read is canonical, so storing it again changes nothing |
| Idempotency.OneExecutionAtATime | libs/platform/http/idempotency/idempotency.service.ts:110-167 | when no acquisition outlives its lock, at most one is outstanding in any state of any run |
| Idempotency.CachedReplyAnswersEveryone | libs/platform/http/idempotency/idempotency.service.ts:124-237 | for ttlSeconds after a reply is cached no handler starts, and every request is answered by exactly that record or by CONFLICT; only one already told to wait may give up |
| Idempotency.SuccessIsReplayed | libs/platform/http/idempotency/idempotency.service.ts:205-237 | a success of a handler in time is cached whatever others do, with its status, body and location, and for ttlSeconds every next request of the same payload is answered with it |
| Idempotency.FailureIsReleased | libs/platform/http/idempotency/idempotency.service.ts:205-252 | after a throw, an error status or a reply too long to store nothing is cached and the next request acquires the key |
| Idempotency.JudgeMeans | libs/platform/http/idempotency/idempotency.service.ts:136-167 | a stored record lets a request wait exactly while it shows an acquisition for the same payload |
| Idempotency.ReleaseFreesTheKey | libs/platform/http/idempotency/idempotency.service.ts:239-252 | a release in time deletes its own lock, whatever others do between its GET and its DEL, and the next request acquires the key |
| Idempotency.OwnLockExactlyUntilExpiry | libs/platform/http/idempotency/idempotency.service.ts:205-252 | what an outstanding acquisition overwrites or deletes is its own lock in every interleaving if and only if that lock has not expired |
| Idempotency.SecondExecutionExactlyAfterExpiry | libs/platform/http/idempotency/idempotency.service.ts:113-122 | while an acquisition is outstanding, a request whose SET NX runs at time T acquires too if and only if the lock has expired by T |
| Idempotency.LateHandlerFreesAnothersLock | libs/platform/http/idempotency/idempotency.service.ts:239-252 | a run in which two handlers run at once and the late one deletes the other's lock |
| Idempotency.HeadersWords | libs/platform/http/idempotency/idempotency.interceptor.ts:13-23 | the replayed headers are trimmed and not blank, hence survive storage |
| IdempotencyService.IdempotencyStore.Begin | libs/platform/http/idempotency/idempotency.service.ts:110-167 | the commands of begin, each at its own moment, do what the interleaving model does: the key is acquired exactly when it is absent at a SET NX, and otherwise the record found is reported |
| IdempotencyService.IdempotencyStore.Complete | libs/platform/http/idempotency/idempotency.service.ts:205-237 | complete caches exactly the replies below 400 that fit, as records of that reply for ttlSeconds, and releases its lock after any other |
| IdempotencyService.IdempotencyStore.Release | libs/platform/http/idempotency/idempotency.service.ts:239-252 | release reads the key and, if that showed an in-progress record of the same payload, deletes whatever the key then holds; otherwise it changes nothing |
| IdempotencyService.WaitForCompletion | libs/platform/http/idempotency/idempotency.service.ts:169-203 | the polling loop ends at the first decisive reading or at the deadline, in the same answer as the model's commands, having slept less than waitMs before its last reading |
| IdempotencyService.OneWayToEnd | libs/platform/http/idempotency/idempotency.service.ts:181-202 | what the clock and the key showed determines the outcome and the number of readings |
| IdempotencyService.DefaultWaitReadsTenTimes | libs/platform/http/idempotency/idempotency.service.ts:178-185 | with the default wait the key is read at most ten times |
| IdempotencyService.AdmissionMeans | libs/platform/http/idempotency/idempotency.service.ts:54-103 | which requests are let through, skipped or refused, if and only if |
| IdempotencyService.KeysAreScoped | libs/platform/http/idempotency/idempotency.service.ts:54-103 | two admitted requests meet at a key exactly when trimmed user id, operation and trimmed Idempotency-Key agree |
| RateLimit.IpRateLimiter.ApplyIpRateLimit | libs/features/auth/infra/rate-limit/rate-limit.utils.ts:28-54 | one call counts, expires, blocks or refuses as the keys say |
| RateLimit.AdmissionsAreBounded | libs/features/auth/infra/rate-limit/rate-limit.utils.ts:39-54 | with a block of at least a window, no stretch of windowSeconds admits more than max(1, 2 * maxAttempts - 2) calls, so never more than 2 * maxAttempts - 1 |
| RateLimit.BoundIsMet | libs/features/auth/infra/rate-limit/rate-limit.utils.ts:39-54 | every configuration has a run in which that many calls are admitted within one window's length |
| RateLimit.RefusalsAreBounded | libs/features/auth/infra/rate-limit/rate-limit.utils.ts:19-26 | every refusal in any run, whatever the configuration, asks to retry after 1 to blockSeconds seconds |
| RateLimit.ApplyShows | libs/features/auth/infra/rate-limit/rate-limit.utils.ts:28-54 | each call keeps the relation between the keys and the last admission; a refusal is within half a second of the block's end exactly while at least half a second remains, and after that asks for blockSeconds |
| RateLimit.LimitNeedsLongBlocks | libs/features/auth/infra/rate-limit/rate-limit.utils.ts:39-54 | for every configuration, the bound holds in all runs exactly when a block lasts at least a window |
| RateLimit.ShortBlockAdmitsMore | libs/features/auth/infra/rate-limit/rate-limit.utils.ts:49-51 | for every configuration with a shorter block, a run in which one call more than the bound is admitted within one window's length |
| TxRetry.WithTransactionRetry | libs/platform/db/tx-retry.ts:75-104 | the body runs at most maxAttempts times; the first success or the first final error is returned; the trailing error only without attempts |
| TxRetry.OneEnding | libs/platform/db/tx-retry.ts:84-103 | that ending is unique and never the trailing error |
| TxRetry.DelaysNeverDecrease | libs/platform/db/tx-retry.ts:44-53 | unjittered delays never decrease and stay under the cap |
| TxRetry.DelaysDouble | libs/platform/db/tx-retry.ts:44-53 | the first delay is the base and each doubles the one before until the cap |
| TxRetry.DelayIsEven | libs/platform/db/tx-retry.ts:44-53 | the random number takes the jitter off a delay evenly, and the result is rounded |
| TxRetry.JitterStaysWithin | libs/platform/db/tx-retry.ts:44-53 | a jittered delay lies between the rounded floor and the unjittered delay |
| TxRetry.RetriesSleepWithinBounds | libs/platform/db/tx-retry.ts:84-101 | total sleep is at most min((n-1) * cap, base * (2^(n-1) - 1)) |
| TxRetry.SettingsAreSound | libs/platform/db/tx-retry.ts:26-42 | whatever the options, the cap is at least the base and the ratio between 0 and 1; sound options are taken as they are |
| ProfileImage.ProfileImageRepository.AttachProfileImageFile | libs/features/users/infra/persistence/prisma-profile-image.repository.ts:111-166 | the statements activate the file, attach it, and delete the previous one |
| ProfileImage.ProfileImageRepository.ClearProfileImage | libs/features/users/infra/persistence/prisma-profile-image.repository.ts:168-205 | the statements detach and delete the current file |
| ProfileImage.ProfileImageRepository.MarkStoredFileDeleted | libs/features/users/infra/persistence/prisma-profile-image.repository.ts:236-251 | the owner's file becomes DELETED unless it already is |
| ProfileImage.ProfileImageRepository.GetCurrentProfileImageFile | libs/features/users/infra/persistence/prisma-profile-image.repository.ts:207-234 | the attached file if it is the user's and ACTIVE |
| ProfileImageService.UserProfileImageService.CreateProfileImageFile | libs/features/users/infra/persistence/prisma-profile-image.repository.ts:43-77 | an upload is recorded for a present user, even if the account is deleted before the insert |
| ProfileImageService.UserProfileImageService.CompleteUpload | libs/features/users/app/user-profile-image.service.ts:116-192 | whatever happens between its reads, completing leaves the tables as the model does, and each of its answers is given exactly in its case |
| ProfileImageService.UserProfileImageService.GetProfileImage | libs/features/users/infra/persistence/prisma-profile-image.repository.ts:207-234 | the three separate reads answer as the model does |
| ProfileImageService.UserProfileImageService.RunDeleteProfileImageStoredFile | apps/worker/src/jobs/users-account-deletion.handlers.ts:166-216 | the delete job marks the owner's file unless storage is off, and otherwise changes nothing |
| ProfileImageService.UserProfileImageService.RunExpireProfileImageUpload | apps/worker/src/jobs/users-account-deletion.handlers.ts:218-266 | the expiry job deletes a file exactly when it saw it UPLOADING, and otherwise changes nothing |
| ProfileImageRuns.JobSpares | apps/worker/src/jobs/users-account-deletion.handlers.ts:166-266 | an expiry job that finds its file not UPLOADING, or a deletion job without storage, never changes a table in any run |
| ProfileImageRuns.UploadedIsSpared | apps/worker/src/jobs/users-account-deletion.handlers.ts:218-266 | once a file is uploaded no expiry job that looks at it from then on touches it, whenever it runs |
| ProfileImage.MarkTakesEvenAttachedImage | apps/worker/src/jobs/users-account-deletion.handlers.ts:239-258 | a mark removes its file from the ACTIVE ones even when it was attached since the job looked, and leaves the reference |
| ProfileImage.StatusMovesForward | apps/worker/src/jobs/users-account-deletion.handlers.ts:166-266 | in any interleaving a file's status only moves UPLOADING to ACTIVE to DELETED |
| ProfileImage.CurrentAgreesWithScan | libs/features/users/infra/persistence/prisma-profile-image.repository.ts:111-234 | a user's only ACTIVE file is the attached one, and the current image agrees with a scan |
| ProfileImage.ShownFileIsCurrent | libs/features/users/infra/persistence/prisma-profile-image.repository.ts:207-234 | a file shown after three separate reads was the user's ACTIVE attached file at the last of them |
| ProfileImage.CompletionLeaves | libs/features/users/app/user-profile-image.service.ts:146-192 | a completeUpload that answers with success, by either route, leaves its file as the only image, or none at all exactly when the file was deleted since it was read |
| ProfileImage.ClearLeavesNothing | libs/features/users/infra/persistence/prisma-profile-image.repository.ts:168-205 | after a clear no image is shown or ACTIVE, and what was shown is DELETED |
| ProfileImageRuns.ExpiryDuringCompletion | libs/features/users/app/user-profile-image.service.ts:145-192 | a run in which an upload is deleted by its expiry job between completeUpload's read and its attach: both images are DELETED and none is left |
| ProfileImageRuns.CompletionDuringExpiry | apps/worker/src/jobs/users-account-deletion.handlers.ts:239-258 | a run in which the expiry job deletes the file that was attached since it looked: both images are DELETED and none is left |
| ProfileImageRuns.ExpiryDuringRetry | libs/features/users/app/user-profile-image.service.ts:129-149 | a run in which a repeated completeUpload answers with success, attaching nothing, while the file it read ACTIVE has been deleted |
| ProfileImageRuns.DeletedAccountWithImage | apps/worker/src/jobs/users-account-deletion.handlers.ts:105-126 | a reachable state of a deleted account with an ACTIVE image |
| ProfileImageRuns.OnlyMarkTakesDeletedAccountsImage | apps/worker/src/jobs/users-account-deletion.handlers.ts:166-266 | the image of a deleted account leaves the ACTIVE files at a step if and only if that step is a mark on it, by a job or by a rejecting completeUpload |
| ProfileImageRuns.DeletedAccountGainsNoImage | libs/features/users/infra/persistence/prisma-profile-image.repository.ts:111-166 | no step gives a deleted account an image |
| ProfileImageRuns.DeletedAccountsImages | apps/worker/src/jobs/users-account-deletion.handlers.ts:105-266 | after any run, the images of a deleted account are exactly those it had at the start that no step marked |
| ProfileImageRuns.DeletedAccountKeepsImage | apps/worker/src/jobs/users-account-deletion.handlers.ts:123-126 | in every run without such a mark it stays ACTIVE, attached and hidden |

## Left out

- AuthRepository.AuthRepository.SetUserStatus: covers the users, sessions and tokens only; the last-admin guard and the audit row of the same transaction are in `AccountLifecycle` and `LastAdmin`.
- AuthRepository.AuthRepository.FinalizeDeletion: covers the credential, reset, session and token rows only; when finalization happens, and its audit rows, are in `AccountLifecycle`. External identities and e-mail verification tokens are not modelled.
- ListQuery.ClientReceivesListing: takes canonical column values and cursors within the length limit; the rows do not change between requests.
- AdminUsersFilters.RawFilterSelects: the clause of the search term is a parameter.
- Pagination.ListUsers: takes the sorted rows of one unchanging table; rows that change between pages are not modelled.
- LastAdmin.AnActiveAdminRemains: assumes that no commit raises the target of a lowering that took no guard and has not written yet; `OnlyExposedRaisesEndanger` shows that nothing less would do.
- AccountLifecycle.AccountStore.LockActiveAdminInvariant: the count only; the row locks are in `LastAdmin`.
- Idempotency.OneExecutionAtATime: assumes that every acquisition finishes before its lock's time to live, and that Redis does not evict keys.
- Idempotency.CachedReplyAnswersEveryone: the same assumptions up to the moment of caching.
- RateLimit.AdmissionsAreBounded: takes the Redis commands of one call as one step, with times in order.
- TxRetry.WithTransactionRetry: base and cap are integers; fractional options are not modelled. The isolation level and the classification of errors are parameters.
- ConcurrentAccounts.FreshRunsAreSerial: besides unchanged rows it takes a guard that let a transaction pass to count two active admins at its commit; keeping the counted rows locked and active until then is what `LastAdmin` proves of the guard.
- StringifyLimits.BeyondCollides: the different payload is some JSON value; for a request whose whole text is too long it may have a fifth outermost key, which no request has.
- IdempotencyRecord.RecordRoundTrip: numbers too large for a double, which JSON.parse reads as infinite, are not modelled.
- Filters.SpellingsAgree: names that cannot stand between brackets (empty, or holding a closing bracket), field names that begin like a bracketed key, and empty operator objects are excluded; JavaScript's reordering of integer-like keys is not modelled.
- Hashing, JWT, OIDC, object storage, queues, e-mail and push delivery. A refresh token is identified with its hash; fresh ids come from a counter and are never issued again; a job may fire at any time.
- Base64url, the text of JSON beyond the canonical stringifier, `Date`, `Number` and regular expressions: parsed trees and parameters stand for them. The length of an encoded cursor or stored record is a parameter.
- Numbers in the canonical text are taken by their rendering, so 0 and -0 are the same; `undefined` and `Buffer` values do not occur in parsed JSON. The hash of a text is not modelled; a text cut inside a surrogate pair is hashed with a replacement character there.
- Case-insensitive comparison covers ASCII; the collation of a column is any total order.
- Transactions are atomic, except in the last-admin guard and in `ConcurrentAccounts`, where each is a read and a commit and the guard's row locks are left to `LastAdmin`. The clock of each request in the session protocol is arbitrary.
- Session metadata without a protocol role: IP address, user agent, device name, push platform and push timestamps.
- The session listing: its query, cursor and page cut have the same shape as the user listing.
- A Redis key counts as gone from the millisecond its time to live ends. Crashes between two Redis commands, and Redis errors, are not modelled.
- Controllers, DTOs, permissions, logging, telemetry and configuration.
