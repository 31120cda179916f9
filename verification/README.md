# Verified model of the platform's stateful cores

A Dafny model of the parts of the service template that are state machines or algorithms: the batched
backfill and the column-rename checklist, role inheritance, cached feature flags, refresh-token rotation,
the circuit breaker, the login throttle, the nonce store, API-key lineages, and the strings that signatures
are computed over. Each part is stated over every input, every run or every interleaving.

`dafny verify dfyconfig.toml` checks everything.

| file | models |
|---|---|
| `Backfill.dfy` | the backfill generator and its consumer (`app/db/migration_helpers.py`) |
| `ColumnRename.dfy` | the expand/contract checklist as a rolling deployment (same file) |
| `RoleHierarchy.dfy` | `app/services/rbac_service.py`, `app/routers/roles.py` |
| `FeatureFlags.dfy`, `FlagStaleness.dfy` | `app/services/feature_service.py`, one request at a time, then interleaved |
| `RefreshTokens.dfy` | `app/routers/auth.py`, `app/core/deps.py`, `app/tasks/cleanup_tasks.py` |
| `CircuitBreaker.dfy` | `app/core/circuit_breaker.py` |
| `LoginThrottle.dfy`, `NonceStore.dfy` | `app/core/throttle.py`, `app/core/s2s.py` |
| `ApiKeys.dfy` | `app/services/api_key_service.py` |
| `CanonicalStrings.dfy`, `Delimited.dfy` | `app/services/audit_service.py`, `app/core/s2s.py`, and joining fields with a delimiter |

Where the code updates something in place, a class has its fields and methods, and each method is proved
equal to a step function on the class's `View()`; the theorems are about runs of those step functions.

## What is assumed

- Database tables are sequences or maps and a statement is atomic. Primary keys are unique and ordered
  (integers stand for any finite ordered set of keys). `rowcount` is the number of rows matched. A backfill's
  SET and WHERE look at one row at a time, and nobody else writes to its table during a run.
- A page of the generator is one step of the rename protocol; its SELECT and UPDATE have the same effect
  together, because the UPDATE reads the old column when it runs and an insert in between is one behind the
  cursor.
- The generator's bounds query is done when it is constructed, and its `pks[-1] >= max_pk` test right after
  the page rather than on the next resumption; neither can be told apart while nobody else writes.
- Times are integers or reals, with no rounding, and the clock does not go back.
- What `get_api_key_user` makes of a request is a parameter of the token model. An HTTP field value has no
  newline (section 5.5 of RFC 9110), which covers timestamp and nonce. That `request.url.path` has none either is
  assumed of the web framework; `CanonicalStrings.SecondReadingIff` says what a newline would do.
- The two queries behind a decoded token, for its revocation row and for its user, are one step.
- UUIDs, token ids and raw keys are fresh. A token decodes exactly when it was signed here and its `exp` is
  still ahead. Revocation is enabled. The message authentication code is injective where that is said.
- In `FeatureFlags` Redis is reachable; in `FlagStaleness` any cache read may fail, any cache delete may be lost
  or late and any fill may fail. In `CircuitBreaker` each method under the lock is one step.

## Where the code differs from its documentation or its apparent intent

The model follows the code.

- `docs/identity/rbac.md:23` gives inheritance the other way round from `_collect_role_permissions` and the
  module's docstring: a role has its parent's permissions.
- The first explicit role of a user replaces the built-in permissions of their role string
  (`RoleHierarchy.FirstGrantReplacesBuiltin`).
- The cursor test of the backfill is `>=`, so a row that still matches after its update is in the next page too.
  SET is applied to it again (`Backfill.SharedRowUpdatedTwice`), `processed` ends above `total_rows` if such a
  row ends a page (`Backfill.ProcessedIsTotalIff`), and where no page can get past such a row the loop never ends
  (`Backfill.TerminatesIff`): with `batch_size=1`, or with a filter such as the docstring's
  `status = 'active'` when the last matching row is not the last row of the table.
- The checklist's fill has the filter `new IS NULL`, and a NULL old value still matches after it: in batches of
  one it need not end (`ColumnRename.FillTerminatesIff`).
- The checklist runs the backfill (step 2) before it deploys dual writes (step 3), so a V1 write that comes too
  late for the backfill is not what V3 and V4 read; a batched backfill also misses inserts behind its cursor or
  above the largest key it started with. `ColumnRename.ReadsLatestIff` says for every run which reads are right.
  That both columns carry the same data in steps 3-5 (`docs/migrations/zero-downtime.md:159`) can fail in each of
  them (`ColumnRename.ColumnsCanDiffer`): after late writes, and once V4 writes. `ColumnRename.ColumnsAgreeIff` says
  exactly when it holds.
- The documentation promises that writing a flag invalidates its cache entry. A reader that read the database
  before the write can fill the cache after the delete (`FlagStaleness.DeleteCanBeOvertaken`); the invalidation
  holds until the next write exactly when no such reader is in flight (`FlagStaleness.InvalidationHoldsIff`).
- `CircuitBreaker.call` does not record a cancelled call. Once as many probes as are allowed have been lost so and
  nothing else is in flight, the breaker rejects for ever, and only then (`CircuitBreaker.StuckForEverIff`,
  `CircuitBreaker.StuckHasLostProbes`); every configuration can get there (`CircuitBreaker.CancelledProbesStick`).
  `__aexit__` records cancellation as a failure.
- Requests that decode a token before its exp and reach its revocation row after it can notice the cleanup, and
  can spend a refresh token twice (`RefreshTokens.CleanupUnobservableIff`, `RefreshTokens.RotatesOnceIff`).
- A nonce is kept for 300 seconds from arrival, not from the timestamp, so a request whose timestamp is ahead of
  the clock can be accepted twice (`NonceStore.AcceptedAgainIff`).
- A permission is tested as a string, so resource names that go on from one another at a colon are confused, and
  no others (`RoleHierarchy.AlwaysPairsIff`).
- Line 79 of `rbac_service.py` reads a result that line 78 has consumed; the model has the effect on the table.

## Model

| member | source | states |
|---|---|---|
| `Backfill.TerminatesIff` | app/db/migration_helpers.py:102-144 | for every job, table and page size, the loop ends if and only if every matching row either stops matching after some number of updates, or is the table's last row, or (pages of two or more) has a later matching row; or pages are empty |
| `Backfill.ClearsAtOnce` | app/db/migration_helpers.py:102-144 | when a row that survives one update also survives a second, "stops matching some time" is just "the first update clears it" |
| `Backfill.NeverDone` | app/db/migration_helpers.py:102-144 | a row that never stops matching and that no page can pass keeps the loop going for ever, with the cursor never beyond it |
| `Backfill.RefinesSingleUpdateIff` | app/db/migration_helpers.py:88-147 | finished runs equal the single filtered UPDATE on every table and page size if and only if SET is idempotent on the rows that keep matching |
| `Backfill.FinishedIsSingleUpdate` | app/db/migration_helpers.py:88-147 | a finished run leaves exactly the single UPDATE's table, untouched rows included, if SET is idempotent on the rows that keep matching (a filter the update clears has none) or, whatever SET does, if no slice of b matching rows ends in a row that is looked at again |
| `Backfill.PartialRunIsPartialUpdate` | app/db/migration_helpers.py:102-144 | under either of those conditions, stopped after any batch, each row is as it was or as the single UPDATE makes it |
| `Backfill.SharedRowUpdatedTwice` | app/db/migration_helpers.py:102-144 | on three equal rows that keep matching, pages of two give the middle row its SET twice |
| `Backfill.PagesShare` | app/db/migration_helpers.py:104-144 | in any state two successive pages have exactly the last row of the first in common if its update left it matching, and otherwise no row |
| `Backfill.SelfClearingCounts` | app/db/migration_helpers.py:102-147 | when the update clears its filter the counts sum to the n rows that matched, in ceil(n / b) batches |
| `Backfill.StableCounts` | app/db/migration_helpers.py:102-147 | when it never does (no filter), q batches count n + q - 1 rows and q is ceil((n - 1) / (b - 1)) for n >= 2 |
| `Backfill.ProcessedIsTotalIff` | app/db/migration_helpers.py:283-301 | for every job, table and page size, a finished run has `processed` at least `total_rows`, and equal if and only if no slice of b matching rows (nor the last one) ends in a row that still matches, other than the table's last row |
| `Backfill.CountsExactIff` | app/db/migration_helpers.py:283-301 | a job is counted exactly on every table with every page size if and only if its update always clears the filter |
| `Backfill.OnePageIsTotalIff` | app/db/migration_helpers.py:283-301 | with a filter that is never cleared, `processed` is `total_rows` if and only if one batch is enough |
| `Backfill.BackfillGenerator.constructor` | app/db/migration_helpers.py:88-103 | the generator begins at the smallest key, or is finished when the table is empty |
| `Backfill.BackfillGenerator.Next` | app/db/migration_helpers.py:106-144 | one resumption makes exactly the step that the run theorems are about and yields the next batch number with the size of its page, or ends |
| `Backfill.BackfillProgress.Update` | app/db/migration_helpers.py:227-239 | adds the batch's rows and one batch |
| `Backfill.SafeBackfill` | app/db/migration_helpers.py:283-301 | whenever the loop can end it does; the result has the initial number of matching rows as total, the sum of all yielded counts as processed, and one batch per count; processed is total under the condition of ProcessedIsTotalIff |
| `ColumnRename.LiveVersionsHaveTheirColumns` | app/db/migration_helpers.py:304-358 | in every interleaving no live version names a column that is missing, in particular after the drop in step 6 |
| `ColumnRename.ColumnsAre` | app/db/migration_helpers.py:304-358 | the new column exists from step 1 on and the old one until it is dropped |
| `ColumnRename.VersionsTouchWhatTheyUse` | app/db/migration_helpers.py:304-358 | each version writes exactly the columns it uses and reads one of them |
| `ColumnRename.CanComplete` | app/db/migration_helpers.py:304-358 | from every reachable state the roll-out can be completed: V4 alone serves and the old column is gone |
| `ColumnRename.ReadsLatestIff` | app/db/migration_helpers.py:304-358 | in every run, a live version reads the row's latest write if and only if it is V1 or V2, or the last write on time (made by V2 or later, or carried over by the backfill) has the latest value |
| `ColumnRename.CleanReadsAreLatest` | app/db/migration_helpers.py:304-358 | in every interleaving without a V1 write the backfill misses (after it, to a filled row, behind its cursor or above its bound), every read of every live version returns the row's latest write |
| `ColumnRename.LateWriteIsReadIff` | app/db/migration_helpers.py:304-358 | after any clean run in which V1 still serves after the backfill, one V1 write and the rest of the roll-out lead to a V3 read that is the latest write only if the value was there already |
| `ColumnRename.ColumnsAgreeIff` | app/db/migration_helpers.py:304-358 | in every run, at every step, a row's two columns are equal if and only if the last write on time and the last write by a version before V4 have the same value; until step 4, if and only if the last write on time has the latest value |
| `ColumnRename.ColumnsAgreeUntilV4` | app/db/migration_helpers.py:304-358 | so in clean runs both columns are equal from the end of the backfill until V4 is deployed |
| `ColumnRename.ColumnsCanDiffer` | app/db/migration_helpers.py:304-358 | in each of the steps 3 to 5 some run has them differ, in step 5 a clean one |
| `ColumnRename.CleanAlways` | app/db/migration_helpers.py:304-358 | every step of a clean run keeps the invariant relating versions, columns and the latest writes |
| `ColumnRename.FillTerminatesIff` | app/db/migration_helpers.py:320-326 | run in batches on the new column, step 2 ends if and only if pages do not have one row, or no row but the last has NULL in the old column |
| `ColumnRename.FillIsTheUpdate` | app/db/migration_helpers.py:320-326 | when it ends it has done what the checklist's single UPDATE does |
| `RoleHierarchy.WalkIsClosure` | app/services/rbac_service.py:104-129 | from any closed visited set, the walk adds exactly the reflexive-transitive parent closure of its start, cycles or not |
| `RoleHierarchy.RbacService.CollectRolePermissions` | app/services/rbac_service.py:104-129 | the recursion terminates, marks exactly the roles of the walk as visited and returns exactly their permission strings |
| `RoleHierarchy.RbacService.GetEffectivePermissions` | app/services/rbac_service.py:141-156 | the result is the union of own permissions over the closure of all granted roles, or the built-in set without grants, so sharing `visited` loses nothing |
| `RoleHierarchy.RbacService.UserHasPermission` | app/services/rbac_service.py:159-163 | the answer is the string test on the effective set; it is matching on (resource, action) pairs with wildcards, for built-in permissions always and for granted ones where no held resource and the one asked about extend each other at a colon |
| `RoleHierarchy.StringCheckIsPairCheck` | app/services/rbac_service.py:132-163 | the same for any user and any set of strings that is the effective one |
| `RoleHierarchy.AlwaysPairsIff` | app/services/rbac_service.py:115-163 | over a set of resource names, the string test is the pair test for all tables, users and questions if and only if no name goes on from another at a colon |
| `RoleHierarchy.ColonFreeApart` | app/services/rbac_service.py:120 | colon-free names never do |
| `RoleHierarchy.GrantAddsClosure` | app/services/rbac_service.py:72-84 | a grant adds exactly the permissions of the new role's closure, and keeps grants unique |
| `RoleHierarchy.FirstGrantReplacesBuiltin` | app/services/rbac_service.py:141-156 | the first grant leaves exactly the closure's permissions and none of the built-in ones |
| `RoleHierarchy.GrantThenRevoke` | app/services/rbac_service.py:72-96 | granting a role not held and revoking it restores the tables, so the effective permissions |
| `RoleHierarchy.RevokeRemoves` | app/services/rbac_service.py:87-96 | a revocation leaves exactly what the other granted roles carry, and reports whether the role was granted |
| `RoleHierarchy.CreatedIff` | app/routers/roles.py:42-63 | a taken name is refused before a missing parent; otherwise exactly one role is added, with the given name, and nothing else changes |
| `RoleHierarchy.CreatedInherits` | app/routers/roles.py:42-63 | the new role inherits from itself and from exactly what its parent inherits from; other roles inherit from what they did |
| `RoleHierarchy.AddedInherits` | app/services/rbac_service.py:16-27 | even where another role already named the new id as its parent, every role's ancestors are given exactly |
| `RoleHierarchy.ReachableTables` | app/routers/roles.py:42-63 | in every table the handler builds names are unique and no role names one that is not there |
| `RoleHierarchy.RolesFormAForest` | app/routers/roles.py:42-63 | in every roles table built by the handler no role is its own proper ancestor and every chain of parents ends in a root |
| `RoleHierarchy.CreationOrderRanks` | app/routers/roles.py:42-63 | creation order ranks every parent below its children |
| `RoleHierarchy.RbacService.Create` | app/routers/roles.py:42-63 | a taken name or a missing parent leaves the table alone; otherwise one role is added |
| `RoleHierarchy.RbacService.Assign` | app/routers/roles.py:94-114 | grants an existing role, once, and nothing for a missing one |
| `RoleHierarchy.RbacService.Remove` | app/routers/roles.py:117-128 | removes the grant and says whether there was one |
| `FeatureFlags.ClashIff` | app/services/feature_service.py:23-28 | slots of two different flags can share a cache key if and only if one name continues the other with a subject type at a colon |
| `FeatureFlags.ColonFreeNonClashing` | app/services/feature_service.py:23-28 | colon-free flag names never clash |
| `FeatureFlags.IsEnabledExact` | app/services/feature_service.py:78-103 | in a coherent state the cached lookup equals the user, tenant, global evaluator without a cache, and stays coherent |
| `FeatureFlags.CoherentAlways` | app/services/feature_service.py:78-214 | any run of reads, writes, deletes and expiries keeps every live entry equal to the database |
| `FeatureFlags.AlwaysExactIff` | app/services/feature_service.py:78-214 | over every run from an empty cache all answers are the cache-free ones if and only if no two flag names clash |
| `FeatureFlags.AnswersAreLastWrites` | app/services/feature_service.py:78-214 | after every run from an empty cache over flags that do not clash, `is_enabled` is what the run last set and did not delete for the user, else for the tenant, else for the flag, or what the database began with |
| `FeatureFlags.ReadFills` | app/services/feature_service.py:106-138 | a miss caches what the database has for 60 seconds, a hit and an absent override cache nothing |
| `FeatureFlags.FeatureService.GetGlobal` | app/services/feature_service.py:106-116 | value, cache fill and expiry are those of one layer of the lookup |
| `FeatureFlags.FeatureService.GetOverride` | app/services/feature_service.py:119-138 | the same for an override, an absent one not being cached |
| `FeatureFlags.FeatureService.Enabled` | app/services/feature_service.py:78-103 | answers and fills the cache as the specification does |
| `FeatureFlags.FeatureService.PutFlag` | app/services/feature_service.py:141-160 | writes the flag, then drops its cache entry and no other |
| `FeatureFlags.FeatureService.PutOverride` | app/services/feature_service.py:163-190 | writes the override, then drops its cache entry and no other |
| `FeatureFlags.FeatureService.RemoveOverride` | app/services/feature_service.py:193-214 | deletes an existing override with its cache entry; otherwise changes nothing and says so |
| `FlagStaleness.BoundedStaleness` | app/services/feature_service.py:106-138 | in every interleaving, deletes lost or not, a cached value used at t was the database's value for that slot at some moment after t - 60 - d, where d bounds a reader's gap between read and fill |
| `FlagStaleness.AlwaysSourced` | app/services/feature_service.py:106-138 | everything cached or in flight was the database's value at a bounded earlier time |
| `FlagStaleness.InvalidationHoldsIff` | app/services/feature_service.py:31-65 | a slot just deleted from the cache is served with the database's value in every interleaving until its next write, if and only if no reader in flight holds another value of it; from any state, if and only if its live cache entry is right too |
| `FlagStaleness.WriteVisibleIff` | app/services/feature_service.py:141-214 | after a write and its cache delete every cached value of the slot is the one written, until the next write, if and only if no reader in flight holds the other one |
| `FlagStaleness.DbIsLastCommitted` | app/services/feature_service.py:141-214 | the database has what was last committed, or what it began with |
| `FlagStaleness.FillsAlwaysWithin` | app/services/feature_service.py:106-138 | every reachable state is one InvalidationHoldsIff decides |
| `FlagStaleness.DeleteCanBeOvertaken` | app/services/feature_service.py:141-160 | a run that reaches the failing case: a reader slower than a writer leaves the old value cached for the whole TTL |
| `RefreshTokens.CleanupUnobservable` | app/tasks/cleanup_tasks.py:11-17 | in every interleaving of decoding, reading and inserting in which no row is read or inserted after its token's exp, runs with and without cleanup serve exactly the same requests |
| `RefreshTokens.CleanupUnobservableIff` | app/tasks/cleanup_tasks.py:11-17 | over all runs from the empty database whose reads and inserts come at most `slack` after exp, that holds if and only if the slack is not positive |
| `RefreshTokens.RotatesAtMostOnce` | app/routers/auth.py:90-126 | however these steps, cleanup and time interleave, a refresh token is rotated at most once if reads and inserts come no later than its exp |
| `RefreshTokens.RotatesOnceIff` | app/routers/auth.py:90-126 | over all runs with that slack, if and only if it is not positive |
| `RefreshTokens.OneUsablePerLogin` | app/routers/auth.py:90-126 | at every moment of every such run each login has at most one descendant that can be refreshed |
| `RefreshTokens.OneLiveAlways` | app/routers/auth.py:90-126 | every step keeps at most one unrevoked, unexpired refresh token per login |
| `RefreshTokens.LateInsertRotatesTwice` | app/routers/auth.py:101-126 | from any state with a usable token, two checks, a cleanup and one insert just after exp serve both refreshes, which without cleanup they would not |
| `RefreshTokens.LogoutEndsLineage` | app/routers/auth.py:129-159 | once the insert of a logout for a refresh token is served, no token of that login is accepted for a refresh ever again, over every timely run before and after, whatever requests are under way |
| `RefreshTokens.InstantIsTimely` | app/core/deps.py:25-34 | whatever requests interleave while the clock stands still, they meet the time limit |
| `RefreshTokens.LoginTokensWork` | app/routers/auth.py:70-87 | a login is served if and only if the user exists; after every run that follows, its access token identifies the user exactly before its expiry, while the user exists and until it is revoked, its refresh token may be refreshed on the same terms, and neither passes for the other |
| `RefreshTokens.RotationTokensWork` | app/routers/auth.py:90-126 | the insert step of a refresh is served if and only if its token is unspent; the new tokens work on those terms for the subject of the spent one, which is refused from then on |
| `RefreshTokens.RefusedAlways` | app/core/deps.py:16-40 | a token revoked or expired is refused after every run, cleanup or not |
| `RefreshTokens.ResetTokenIsNoLogin` | app/core/auth.py:42-48 | a password-reset token never passes as an access or a refresh token |
| `RefreshTokens.LogoutServedIff` | app/routers/auth.py:129-159 | a logout succeeds if and only if its bearer token can be revoked, the refresh token decodes, and if it is the user's it can be revoked too |
| `RefreshTokens.LogoutLogsOut` | app/routers/auth.py:129-159 | it revokes those two tokens at most, another user's never, and served it has both refused after every run that follows |
| `RefreshTokens.CurrentUserIsItsSteps` | app/core/deps.py:16-40 | an uninterrupted check of an access token is its decode step and its read step |
| `RefreshTokens.RefreshIsItsSteps` | app/routers/auth.py:90-126 | an uninterrupted refresh is its decode, read and insert steps, and succeeds exactly when the guards hold |
| `RefreshTokens.LogoutIsItsSteps` | app/routers/auth.py:129-159 | an uninterrupted logout is the composition of its interleavable steps |
| `RefreshTokens.AuthService.GetCurrentUser` | app/core/deps.py:16-40 | the user of an API key first, nobody for a rejected key; without one the subject of an unexpired, unrevoked access token, if the user exists, and nobody otherwise |
| `RefreshTokens.AuthService.RevokeToken` | app/routers/auth.py:32-48 | inserts a row with the token's exp unless the jti is there already |
| `RefreshTokens.AuthService.IssueTokens` | app/core/auth.py:11-21 | signs one access and one refresh token under fresh ids, in the given lineage |
| `RefreshTokens.AuthService.LogIn` | app/routers/auth.py:70-87 | starts a new lineage for an existing user |
| `RefreshTokens.AuthService.RefreshTokens` | app/routers/auth.py:90-126 | serves exactly when the guards hold, and then spends the token and issues its successors |
| `RefreshTokens.AuthService.LogOut` | app/routers/auth.py:129-159 | revokes the bearer token, then the given refresh token if it is the user's, and says whether that succeeded |
| `RefreshTokens.AuthService.CollectRevoked` | app/tasks/cleanup_tasks.py:11-17 | deletes exactly the rows past expiry and returns their number |
| `CircuitBreaker.TraceDecidesState` | app/core/circuit_breaker.py:74-107 | after any interleaving, late completions included, the breaker is closed if and only if fewer failures than the threshold were recorded since the last success, and otherwise `_opened_at` is the most recent failure's time |
| `CircuitBreaker.FailureCountIs` | app/core/circuit_breaker.py:89-107 | `_failure_count` is the number of failures recorded since the last success outside half-open |
| `CircuitBreaker.AdmittedIff` | app/core/circuit_breaker.py:74-87 | a call is admitted if and only if fewer failures than the threshold were recorded since the last success, or the recovery timeout has passed since the last failure and fewer calls than `half_open_max_calls` were admitted since the last record |
| `CircuitBreaker.OutcomesDecideState` | app/core/circuit_breaker.py:109-135 | in any mixture of `call` and `async with` in flight, the breaker is closed if and only if fewer uses than the threshold failed since one last returned; an exception fails, cancellation fails in `async with` only, a nested open breaker never |
| `CircuitBreaker.EpisodesAccounted` | app/core/circuit_breaker.py:74-107 | in half-open `_half_open_calls` is the episode's outstanding probes plus those that ended unrecorded, and the number admitted since the last record |
| `CircuitBreaker.ProbesBounded` | app/core/circuit_breaker.py:84-87 | between two recorded completions a breaker that is not closed admits at most `half_open_max_calls` calls |
| `CircuitBreaker.HalfOpenHasProbe` | app/core/circuit_breaker.py:84-103 | with no unrecorded end, half-open has a probe in flight and the completion of any call in flight leaves half-open |
| `CircuitBreaker.StuckUntilRecorded` | app/core/circuit_breaker.py:76-87 | with its probes used up a half-open breaker rejects every call, however long one waits, until something is recorded |
| `CircuitBreaker.StuckForEverIff` | app/core/circuit_breaker.py:74-125 | after any run, no continuation in which only calls in flight end admits a call ever again if and only if nothing is in flight and the breaker is half-open with its probes used up (or not closed with none allowed) |
| `CircuitBreaker.StuckHasLostProbes` | app/core/circuit_breaker.py:74-125 | with probes allowed, if and only if it is half-open, nothing is in flight, and as many probes as allowed ended unrecorded |
| `CircuitBreaker.CancelledProbesStick` | app/core/circuit_breaker.py:109-125 | in every configuration a run of cancelled probes leads there |
| `CircuitBreaker.NoEarlyAdmission` | app/core/circuit_breaker.py:76-107 | after a failure that leaves it open no call is admitted before the recovery timeout, unless a success is recorded in between; late failures only push the time on |
| `CircuitBreaker.ContextManagerLosesNothing` | app/core/circuit_breaker.py:127-135 | used through `async with` alone, with no nested breaker, it never loses a probe |
| `CircuitBreaker.CircuitBreakerObject.constructor` | app/core/circuit_breaker.py:51-68 | starts closed with nothing counted |
| `CircuitBreaker.CircuitBreakerObject.CheckAndMaybeTransition` | app/core/circuit_breaker.py:74-87 | admits, rejects and moves to half-open as the specification does |
| `CircuitBreaker.CircuitBreakerObject.RecordSuccess` | app/core/circuit_breaker.py:89-95 | closes and clears every counter, from any state |
| `CircuitBreaker.CircuitBreakerObject.RecordFailure` | app/core/circuit_breaker.py:97-107 | counts or reopens, from any state |
| `CircuitBreaker.CircuitBreakerObject.FinishCall` | app/core/circuit_breaker.py:109-125 | a returned call records a success, one that raised a failure, a cancelled one or a nested open breaker nothing; it is one completion event of the runs |
| `CircuitBreaker.CircuitBreakerObject.Exit` | app/core/circuit_breaker.py:131-135 | a block that returned records a success, one that raised or was cancelled a failure, a nested open breaker nothing; it is one completion event of the runs |
| `LoginThrottle.OneWindowBound` | app/core/throttle.py:26-36 | each window admits at most LOGIN_MAX_ATTEMPTS attempts |
| `LoginThrottle.SlidingWindowBound` | app/core/throttle.py:26-36 | any closed interval of length LOGIN_LOCKOUT_SECONDS has at most 2 * LOGIN_MAX_ATTEMPTS - 1 admitted attempts |
| `LoginThrottle.SlidingLimitAttained` | app/core/throttle.py:26-36 | for every positive limit and lockout some attempts attain that bound |
| `LoginThrottle.LockoutEnds` | app/core/throttle.py:26-36 | attempts during a window, blocked or not, never move its beginning; the first attempt after it starts afresh |
| `LoginThrottle.UsersAreIndependent` | app/core/throttle.py:26-45 | a user's window is what that user's attempts since their last reset make, from nothing after a reset, whoever else tries or is reset |
| `LoginThrottle.Throttle.CheckLogin` | app/core/throttle.py:26-36 | changes the user's window as specified and admits up to the limit |
| `LoginThrottle.Throttle.ResetLogin` | app/core/throttle.py:39-45 | forgets that user's window only |
| `NonceStore.AcceptedAtMostOnce` | app/core/s2s.py:105-125 | over any run in time order, after an acceptance no later request with that service and nonce is accepted unless its timestamp is ahead of the first arrival |
| `NonceStore.AcceptedAgainIff` | app/core/s2s.py:105-125 | an accepted request would be accepted again later if and only if its timestamp was ahead of the clock |
| `NonceStore.AcceptedIff` | app/core/s2s.py:85-155 | in every run from an empty store, a request is accepted if and only if the feature is on, no header is missing, its timestamp is within 300 seconds of the clock on either side, it is signed with its service's secret, and no arrival in the 300 seconds before used its nonce for that service |
| `NonceStore.OutcomeMeans` | app/core/s2s.py:85-155 | what every other answer says about the request and the store |
| `NonceStore.OneSignatureOneRequest` | app/core/s2s.py:72-155 | accepted newline-free requests of a service with one signature agree in method, path, timestamp, nonce and body digest |
| `NonceStore.SignatureAcceptedAtMostOnce` | app/core/s2s.py:72-155 | over any run in time order a signature is accepted at most once, unless its timestamp was ahead of the clock |
| `NonceStore.RememberedFor` | app/core/s2s.py:79-125 | no eviction forgets a nonce within the tolerance of its arrival |
| `NonceStore.ExpiriesInWindow` | app/core/s2s.py:79-125 | after each nonce check at `now` every expiry stored for the service is in [now, now + 300] |
| `NonceStore.Verifier.EvictExpired` | app/core/s2s.py:79-82 | keeps exactly the nonces of the service whose expiry is not past, and all other services |
| `NonceStore.Verifier.VerifySignature` | app/core/s2s.py:85-155 | the order of the guards, each outcome, and the store left by each |
| `ApiKeys.LineageInvariant` | app/services/api_key_service.py:34-112 | after any run each lineage has at most one unrevoked key, with the owner, name, scopes and expiry of its issue |
| `ApiKeys.KeyIsWhatWasAsked` | app/services/api_key_service.py:34-130 | every key of every run has the owner, name, joined scopes and expiry asked for by the issue its lineage began with, through any rotations; the raw key returned when it was made opens it, unless revoked, exactly until issue time plus days, or always for none or 0 |
| `ApiKeys.TimesAreOperations` | app/services/api_key_service.py:72-130 | a key's revocation time is that of the last revocation by its owner or rotation of it, its last use that of the last request it opened |
| `ApiKeys.RotationConserves` | app/services/api_key_service.py:84-112 | a rotation conserves the number of unrevoked keys |
| `ApiKeys.ActiveBalance` | app/services/api_key_service.py:34-130 | over any run the number of unrevoked keys is the initial one plus issues minus revocations of unrevoked keys, whatever was rotated or authenticated |
| `ApiKeys.RevokedNeverAuthenticates` | app/services/api_key_service.py:72-130 | whatever follows, a revoked raw key opens no row at any time |
| `ApiKeys.RotatedKeyWorks` | app/services/api_key_service.py:84-130 | the new raw key opens the new row exactly until the issued expiry, and the old row is revoked |
| `ApiKeys.ValidAlways` | app/services/api_key_service.py:34-130 | every operation keeps lineages linked, hashes unique and one active key per lineage |
| `ApiKeys.ApiKeyService.IssueKey` | app/services/api_key_service.py:34-60 | starts a lineage with the given grant |
| `ApiKeys.ApiKeyService.RotateKey` | app/services/api_key_service.py:84-112 | revokes the owner's unrevoked key and adds its successor, or does nothing |
| `ApiKeys.ApiKeyService.RevokeKey` | app/services/api_key_service.py:72-81 | revokes the owner's key, or does nothing |
| `ApiKeys.ApiKeyService.FindActive` | app/services/api_key_service.py:120-126 | finds an unrevoked row with the hash if there is one |
| `ApiKeys.ApiKeyService.AuthenticateKey` | app/services/api_key_service.py:115-130 | finds the one row the raw key opens, marks it used and changes nothing else |
| `CanonicalStrings.CanonicalText` | app/services/audit_service.py:12-24 | the seven columns in order, joined by pipes, NULL as nothing |
| `CanonicalStrings.TamperingDetected` | app/services/audit_service.py:12-37 | if no column of a row has a pipe, its signature verifies for a row if and only if every column agrees, NULL and "" being one in the optional columns |
| `CanonicalStrings.UndetectedIff` | app/services/audit_service.py:12-37 | a row with the same time that does not agree passes with its signature if and only if some column but the time has a pipe |
| `CanonicalStrings.AuditLog.LogAction` | app/services/audit_service.py:40-67 | appends a signed row; all rows of the log verify |
| `CanonicalStrings.MessageDetermines` | app/core/s2s.py:72-76 | newline-free requests have one message if and only if method, path, timestamp, nonce and body digest agree |
| `CanonicalStrings.MessageText` | app/core/s2s.py:72-76 | method, path, timestamp and nonce in order, a line each, and the digest of a body |
| `CanonicalStrings.SecondReadingIff` | app/core/s2s.py:72-76 | a message can come from other fields if and only if the request has a body, or a newline in its path, timestamp or nonce (see the assumptions: as received they have none) |
| `Delimited.JoinInjective` | app/core/s2s.py:72-76 | joining is injective on delimiter-free fields, whatever their number |
| `Delimited.JoinInjectiveFixed` | app/services/audit_service.py:12-24 | delimiter-free fields are told apart from any others of the same number |
| `Delimited.CollisionIff` | app/services/rbac_service.py:120 | two first fields can collide if and only if one extends the other at a delimiter |

## Left out

- The Redis branch of the throttle: its expiry happens inside Redis.
- Concurrent API-key requests: two rotations of one key that both read it before either commits are not modelled; the lineage theorems are about requests one after the other.
- Redis failures while flags are served one request at a time; `FlagStaleness` has lost deletes and lost fills.
- Rows added to or changed in a table by others while a backfill runs on it. In the rename protocol others do write.
- A negative `batch_size`, whose LIMIT databases treat differently.
- `column_exists`, `run_idempotent_migration`, elapsed time, percentage and logging of a backfill.
- The return value of `grant_role`, the timestamps and descriptions of roles and grants, permission creation and assignment, and the listing handlers: reads and single inserts.
- Password checks and password reset; a login is taken to have the right password.
- Webhooks, idempotency keys, pagination, websockets, scaling, configuration and the secrets caches: their invariants are read off one branch.
- SAML, OAuth, e-mail, storage, telemetry, logging, and the shaping of HTTP responses: wrappers around libraries.
- Hashing, signing and token encoding themselves, and floating-point rounding of times.
