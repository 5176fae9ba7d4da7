# Delivery, caching and listing protocols of the egras backend

This project models the background-delivery and storage protocols of a multi-tenant backend and proves
what they promise. Each protocol is a step machine over shared tables: a `State`, a `Step` datatype with one
constructor per SQL statement or await, `Enabled`, `Do`, and theorems about every run (`Leads`). Beside the
machines stand classes that update their fields in place the way the services and repositories do; the contract
of each method says which run of the machine, or which specification function, the call performs.

| file | what it holds |
|---|---|
| Counting | quotients, plain and rounded up, by way of recursions that need no multiplication |
| Keyset | `ORDER BY (time, id) LIMIT n` as a specification (`IsTop`) and as a method |
| JobModel, Backoff | job rows, `claim_due`, the outcome statements, the saturating retry delay |
| JobLease, JobFinality, JobRunner | any number of runners leasing jobs; when Done and Dead are final; the runner and its repository as objects |
| OutboxRelay, OutboxRelayer | appenders and relayers with row locks and buffered writes; the relayer loop |
| Pipeline | both protocols over one `jobs` table |
| FeatureCache, FeatureWindow, FeatureService | the flag cache under concurrency; when an invalidation can be overtaken; evaluator and services as objects with calls that do not overlap |
| LastOwner, OrganisationRepository | the multi-statement member removal; the membership repository |
| Paging, Listings, UserListing, Walks | keyset pages, walks over changing tables, the five lists that promise them |
| ServiceAccountWalk | the list whose cursor comes from the dropped row |
| AuditPipeline, AuditWorker | the bounded audit queue and its retrying consumer |
| ApiKeys, KeyFormat | key life cycle; the wire format |
| Json, SpecNormaliser | JSON values; the OpenAPI rewrite that precedes code generation |

## Findings

Promises that do not hold as the code or its documentation puts them, with the exact condition under which they do:

- Done can be left: the outcome statements match on the id alone. In any run, recording an outcome changes a finished row if
  and only if the row is dead, or done and the outcome is not success (`JobFinality.RecordingSparesFinished`). A `state = 'running'`
  guard would exclude that and more (a late outcome on a row that is pending again), though not a late outcome on a row
  another runner has leased. If every outcome is recorded before `locked_until`, finished rows
  never change, however late handlers start or return (`JobFinality.FinishedJobsStayFinished`). Whenever a runner executes
  a leased job and another one of the kind is idle, one late outcome can take the job out of Done
  (`JobFinality.UndisciplinedRunLeavesDone`).
- A visibility timeout below one second grants leases that have already ended (`JobLease.OnlyWholeSecondsGrantWork`).
- An evaluation can cache an old value after the write that replaced it was invalidated. The window is a call on the key
  that is past its look at the overrides, is about to cache a value other than the new answer, and began less than one TTL ago.
  Until the next write, an evaluation begun after the invalidation can be answered otherwise than from the store if and only
  if the write fell into the window (`FeatureWindow.InvalidationHoldsOutsideTheWindow`); if no write of a run does, every live
  entry agrees with the store (`FeatureWindow.GuardedRunsAgree`). An evaluation begun before the write is outside this
  promise (`FeatureWindow.EarlierCallsMayStillReadIt`). In any case staleness is bounded by the TTL (`FeatureCache.AnswersAreBoundedlyStale`).
- A grant of ownership can let an organisation lose its last owner. The window is a removal of the grantee that has passed its
  checks, has not deleted yet and locked no other owner. In any state reached, the organisation can lose its last owner
  after the grant, later grants keeping out of the window, if and only if this one fell into it (`LastOwner.WindowIsExact`).
- Fractions of a second in the initial retry delay are dropped, so one below a second never waits at all
  (`Backoff.SubSecondInitialNeverWaits`); `Backoff.BackoffIsIdeal` says exactly when the delay is the one asked for.
- A later retry can wait less than an earlier one: with factor 0, the first retry compared with a later one, unless
  it does not wait at all (`Backoff.BackoffNeverShrinks`).
- The service-account walk loses one row per full page (`ServiceAccountWalk.AccountWalkSkipsRows`). The test that would
  notice, tests/it/security_service_service_accounts_test.rs:126-137, is not listed in tests/it/main.rs:30-44.
- A channel page of limit 0, which src/tenants/interface.rs:698 lets through, comes back empty and without a cursor; that is
  wrong if and only if anything follows (`Listings.ListInboundChannels`).
- Rotating a key that is already revoked succeeds and adds an active key (`ApiKeys.RotationKeepsActiveCount`).
- README.md:89 of the repository says the audit backoff doubles; src/audit/worker.rs:84 multiplies by 4. The model follows the code.
- `normalise_spec` is not idempotent when a `description` or `title` it keeps unvisited is itself a schema
  (`SpecNormaliser.UncleanTitleFallsLater`); `SpecNormaliser.NormalisingTwice` gives the exact condition.

## Model

| member | source | states |
|---|---|---|
| `OutboxRelay.EveryEventIsDeliveredOnce` | src/outbox/relayer.rs:88-111 | In every interleaving of relayers and appenders, with aborts anywhere, a committed event has exactly one job with its type and payload once relayed and none before; no job is made for an event that is not there or not relayed; nothing is enqueued twice |
| `OutboxRelay.CommitKeepsInv` | src/outbox/relayer.rs:98-110 | Committing a relaying or appending transaction keeps the invariant over committed tables and all other open transactions |
| `OutboxRelay.ClaimKeepsInv` | src/outbox/persistence/outbox_repository_pg.rs:71-91 | Skipping locked rows keeps the claims of open transactions disjoint |
| `OutboxRelay.EnqueueKeepsInv` | src/jobs/persistence/jobs_repository_pg.rs:66-86 | An uncommitted insert adds one pending job for the next claimed event and is seen by nobody else |
| `OutboxRelay.AppendedEventIsStored` | src/outbox/persistence/outbox_repository_pg.rs:48-69 | A committed append is there with its type, payload and the instant its transaction began, unrelayed; nothing else changes |
| `OutboxRelay.AbortLeavesTables` | src/outbox/relayer.rs:89-97 | An abort leaves all tables alone and gives up the claims |
| `OutboxRelayer.Database.EnqueueInTx` | src/jobs/persistence/jobs_repository_pg.rs:66-86 | The row inserted has the given kind, payload, attempt limit and instant, is pending with no attempts and unlocked |
| `OutboxRelayer.OutboxRelayer.Tick` | src/outbox/relayer.rs:88-111 | One call is a run of the step machine. It relays the oldest pending, unlocked events by creation instant and then id, at most a batch, fewer only when there are no more; adds exactly one fresh job per event, with its type and payload, the configured attempt limit and the current instant; stamps exactly those events; and changes nothing else |
| `OutboxRelayer.OutboxRelayer.Drain` | src/outbox/relayer.rs:113-139 | A lone relayer enqueues all pending events in (created_at, id) order, in ceil(n / batch) productive ticks, and then finds nothing |
| `OutboxRelayer.RoundKeepsProgress` | src/outbox/persistence/outbox_repository_pg.rs:76-84 | One more batch continues the original order; only the last batch may be short |
| `OutboxRelayer.Database.ClaimUnrelayedInTx` | src/outbox/persistence/outbox_repository_pg.rs:71-91 | Locks and returns the first unrelayed, unlocked rows |
| `OutboxRelayer.Database.CommitTx` | src/outbox/persistence/outbox_repository_pg.rs:93-112 | On commit the claimed rows carry the instant the transaction began, and the buffered jobs appear |
| `JobLease.DisciplinedRunsAreSafe` | src/jobs/runner.rs:110-204 | From an empty table under the lease discipline: one runner at most executes a job; Done only after a success inside the latest lease; claims = attempts + expired leases + (1 if Running or Done); live jobs have attempts < max(1, max_attempts) and Dead ones at most that; with no lost lease at most that many dispatches |
| `JobFinality.FinishedJobsStayFinished` | src/jobs/persistence/jobs_repository_pg.rs:171-233 | If outcomes are recorded before `locked_until`, a Done or Dead row never changes again, with no assumption on when handlers start or return |
| `JobFinality.TimelyRunKeepsFinished` | src/jobs/persistence/jobs_repository_pg.rs:114-233 | The same from any state in which unexpired leases are the ones their rows record, which such runs keep |
| `JobFinality.RecordingSparesFinished` | src/jobs/persistence/jobs_repository_pg.rs:171-233 | In any run, a step leaves every finished row unchanged if and only if it is not the recording of an outcome on a dead row, or of one other than success on a done row |
| `JobFinality.UndisciplinedRunLeavesDone` | src/jobs/runner.rs:162-203 | From any state in which a runner executes a leased job and another one of the kind is idle: a run with every outcome in time after which the job is Done, and recording the first runner's outcome takes it out of Done |
| `JobLease.ClaimKeepsInv` | src/jobs/persistence/jobs_repository_pg.rs:114-146 | Claiming due rows, expired ones included, keeps every unexpired lease the one its row records |
| `JobLease.SettlingKeepsInv` | src/jobs/runner.rs:162-203 | Recording an outcome inside the lease keeps the accounting and every other runner's leases |
| `JobLease.LiveLeasesCoincide` | src/jobs/persistence/jobs_repository_pg.rs:127-133 | Two unexpired leases on one job are one lease |
| `JobLease.LeasedKindsAreRegistered` | src/jobs/runner.rs:152-160 | In any run, disciplined or not, a leased job has a handler in its runner: the no-handler branch is unreachable from `run` |
| `JobLease.OnlyWholeSecondsGrantWork` | src/jobs/persistence/jobs_repository_pg.rs:98-130 | A freshly claimed job can be started within its lease if and only if the visibility is at least one whole second |
| `JobRunner.JobsRepository.ClaimDue` | src/jobs/persistence/jobs_repository_pg.rs:88-169 | At most `limit` rows are leased, each of a registered kind and either pending with its time come or running under an ended lease; each becomes Running for the worker until `visibility` whole seconds from now and is otherwise as it was, as is every other row; due rows left behind have run_at no earlier, and there are none when fewer are returned |
| `JobRunner.JobsRepository.MarkDone` | src/jobs/persistence/jobs_repository_pg.rs:171-186 | Changes that row alone, to Done and unlocked |
| `JobRunner.JobsRepository.MarkFailedRetry` | src/jobs/persistence/jobs_repository_pg.rs:188-213 | Changes that row alone: Pending again at the given instant, one more attempt, error kept, unlocked |
| `JobRunner.JobsRepository.MarkDead` | src/jobs/persistence/jobs_repository_pg.rs:215-233 | Changes that row alone: Dead, one more attempt, error kept, unlocked |
| `JobRunner.JobRunner.Dispatch` | src/jobs/runner.rs:152-204 | On the row's columns: success gives Done; a permanent failure gives Dead with one more attempt and the error; a retryable one gives Dead exactly when the leased attempts are used up, else Pending with one more attempt, later by the backoff; every other row stays, and a failing statement changes nothing |
| `JobRunner.OutcomeOnRow` | src/jobs/runner.rs:162-203 | The same for the decision and statement together, on any row and any leased copy |
| `JobRunner.DueIsWaiting` | src/jobs/persistence/jobs_repository_pg.rs:118-122 | Which rows are due |
| `JobRunner.JobRunner.Poll` | src/jobs/runner.rs:110-150 | One polling round, with handlers that take any time, is a run of the step machine that ends idle; it is disciplined whenever it ends before its own leases and those of the runners at work |
| `Pipeline.EventsAreDeliveredAndHandled` | src/outbox/relayer.rs:88-111 | End to end, all parties interleaved: an event has no job until relayed and exactly one after; the job carries its type and payload, is Done only after a success inside its lease, and runs a bounded number of times when no lease is lost |
| `Pipeline.OutboxStepsAreNeverBlocked` | src/jobs/persistence/jobs_repository_pg.rs:73-75 | Whatever the outbox commits is new pending work for the runners, so joining the protocols forbids nothing |
| `Pipeline.RunnerStepsAreNeverBlocked` | src/jobs/persistence/jobs_repository_pg.rs:127-233 | No runner statement changes what a job is for |
| `Backoff.BackoffIsIdeal` | src/jobs/runner.rs:207-218 | The delay equals min(max, initial * factor^(attempt-1)), to the nanosecond and in unbounded arithmetic, if and only if the whole-second product already reaches the cap, or the initial delay loses no fraction and the product fits 64 bits |
| `Backoff.GrowthIsGeometric` | src/jobs/runner.rs:208-210 | The first retry waits the initial delay once, each later one the factor times as long as the one before |
| `Backoff.SubSecondInitialNeverWaits` | src/jobs/runner.rs:211-212 | With an initial delay below one second no retry waits, whatever the factor |
| `Backoff.BackoffNeverShrinks` | src/jobs/runner.rs:207-218 | For any two attempts in order, the later never waits less if and only if the factor is at least 1, or both or neither are first retries, or the first does not wait |
| `FeatureCache.AnswersAreBoundedlyStale` | src/features/service/evaluate.rs:77-125 | Under any interleaving of evaluations, writes and invalidations, each answer was override-else-default at some instant no later than the return and either at or after the call's start or less than one TTL before it |
| `FeatureWindow.InvalidationHoldsOutsideTheWindow` | src/features/service/evaluate.rs:77-119 | From any state: after a write and its invalidation, some continuation without writes answers an evaluation begun in it otherwise than from the store if and only if the write fell into its window |
| `FeatureWindow.EarlierCallsMayStillReadIt` | src/features/service/evaluate.rs:78-88 | Evaluations begun before the write are not covered: one can be answered with a value cached since, because expiry is compared with its own start |
| `FeatureWindow.GuardedRunsAgree` | src/features/service/evaluate.rs:77-125 | In any interleaving in which no write falls into its window, every live entry is what the store would give, but for keys written and not yet invalidated |
| `FeatureWindow.OpenWindowAnswersStale` | src/features/service/evaluate.rs:101-119 | From any state with such a call in flight, past the overrides or past the definition: a new evaluation begun after the invalidation is answered with the value the store no longer holds |
| `FeatureWindow.WindowsOpen` | src/features/service/evaluate.rs:91-95 | Whatever the table holds at first, every write that changes an answer can find its window open |
| `FeatureCache.StepKeepsInv` | src/features/service/evaluate.rs:77-125 | Every await point keeps each cached value true at the instant its override was looked up, and that instant within a TTL of the expiry |
| `FeatureService.RunsStayCoherent` | src/features/service/set_org_feature.rs:59-72 | In any run of calls that do not overlap every cache entry equals override-else-default |
| `FeatureService.EvaluateRefinesLookup` | src/features/service/evaluate.rs:77-114 | After such a run `evaluate` answers as the uncached lookup, at any instant |
| `FeatureService.EvaluateIsARun` | src/features/service/evaluate.rs:77-114 | An evaluation that nothing overlaps is a run of the concurrent machine with the same answer and the same effect on the cache as the sequential call |
| `FeatureService.PgFeatureEvaluator.Evaluate` | src/features/service/evaluate.rs:77-114 | Hit, override, default and unknown slug; nothing is cached for an unknown slug; on a coherent cache the answer is the lookup's |
| `FeatureService.PgFeatureEvaluator.Invalidate` | src/features/service/evaluate.rs:116-119 | The next answer for the key is the lookup at any instant, whatever was cached; other keys answer as before |
| `FeatureService.PgFeatureEvaluator.InvalidateAll` | src/features/service/evaluate.rs:121-124 | The next answer for every key is the lookup at any instant; the store is left alone |
| `FeatureService.FeatureRepository.GetDefinition` | src/features/service/set_org_feature.rs:43-47 | Finds the definition of a slug exactly when the catalogue has one, with the default the lookup uses |
| `FeatureService.SetOrgFeature` | src/features/service/set_org_feature.rs:37-88 | Accepted exactly when the value is of the flag's declared type and the actor may set it; which error otherwise, with the reason for each type; on success that override alone is written and its cache entry alone dropped, on failure nothing changes; overrides stay of their declared types |
| `FeatureService.MismatchMeans` | src/features/model.rs:40-52 | Exactly the values that do not fit a type are refused: booleans, strings, 64-bit integers, lists of strings, anything |
| `FeatureService.RunsStayTyped` | src/features/service/set_org_feature.rs:49-67 | Over any run of admitted writes every stored override stays of its declared type |
| `FeatureService.ClearOrgFeature` | src/features/service/clear_org_feature.rs:33-73 | The errors in both directions; on success that override alone is gone and its cache entry alone dropped |
| `FeatureService.ListOrgFeatures` | src/features/service/list_org_features.rs:19-52 | One entry per definition in catalogue order, value and source as the store has them although values pass through the cache, each at an instant of its own |
| `LastOwner.OwnersRemain` | src/tenants/persistence/organisation_repository_pg.rs:258-322 | Any number of removals, grants and creations interleaved statement by statement: if ownership is never granted to a target inside its open window, every organisation keeps an owner |
| `LastOwner.WindowIsExact` | src/tenants/persistence/organisation_repository_pg.rs:258-322 | In any state the protocol keeps, after a grant of ownership the organisation can lose its last owner, later grants keeping out of the window, if and only if this grant fell into it |
| `LastOwner.GrantInsideTheWindowLosesTheOwner` | src/tenants/persistence/organisation_repository_pg.rs:293-318 | The hard half: from any such state, with any other removals open and any other owners, such a grant has a continuation without further grants that ends without an owner |
| `LastOwner.WindowsOpen` | src/tenants/persistence/organisation_repository_pg.rs:277-305 | Wherever a member is the sole owner the window can open, by handing the ownership on during a removal |
| `LastOwner.CommitSparesAnOwner` | src/tenants/persistence/organisation_repository_pg.rs:277-320 | A committed removal spares an owner: one it locked, or one that is not its target |
| `LastOwner.WholeRemoval` | src/tenants/persistence/organisation_repository_pg.rs:258-322 | Uninterrupted, a permitted removal deletes exactly the member's rows in that organisation, whatever their roles |
| `OrganisationRepository.Repository.RemoveMemberChecked` | src/tenants/persistence/organisation_repository_pg.rs:258-322 | Not a member exactly when there is no row of that user and organisation; last owner exactly when the user owns it and nobody else does; otherwise exactly the user's rows there are gone |
| `OrganisationRepository.Repository.AddMember` | src/tenants/persistence/organisation_repository_pg.rs:224-256 | Unknown role, unknown user or organisation, or the row is there afterwards; owners stay |
| `OrganisationRepository.Repository.CreateWithInitialOwner` | src/tenants/persistence/organisation_repository_pg.rs:53-113 | Name and role and user errors leave nothing behind; otherwise the organisation starts with its creator's row |
| `OrganisationRepository.RemovalKeepsOwners` | src/tenants/persistence/organisation_repository_pg.rs:307-318 | A removal that passes the check leaves every organisation an owner |
| `Paging.CutPage` | src/tenants/service/list_my_organisations.rs:52-68 | Over-fetch and cut: the first rows after the cursor, and a cursor at the last of them exactly when more rows follow |
| `Paging.PageIsListed` | src/tenants/persistence/organisation_repository_pg.rs:121-156 | What such a page is on the rows' own columns: filtered, strictly past the cursor, by timestamp and then id in the list's direction, the first of them |
| `Paging.WalkListsEveryStableRow` | src/security/service/list_users.rs:64-80 | While the table changes between pages the walk, finished or not, stays in order, never repeats, and lists every key present at each request except those ahead of its cursor; at the end there are none |
| `Paging.FixedWalkIsTheListing` | src/tenants/service/list_organisation_members.rs:66-82 | On a fixed table the pages of a whole walk concatenate to the sorted listing, in max(1, ceil(n / limit)) pages |
| `Paging.FollowCursors` | src/tenants/service/list_my_organisations.rs:52-68 | Following the cursors on a fixed table ends, with that listing in that many pages |
| `Paging.PageThenRest` | src/tenants/service/list_organisation_members.rs:66-82 | A page and the listing of what follows its cursor make the listing of the whole |
| `Walks.MembersWalk` | src/tenants/service/list_organisation_members.rs:66-82 | The walk promise for members, grouped by user, while roles change |
| `Walks.OrganisationsWalk` | src/tenants/service/list_my_organisations.rs:52-68 | The walk promise for the caller's organisations |
| `Walks.ChannelsWalk` | src/tenants/service/list_inbound_channels.rs:41-57 | The walk promise for inbound channels |
| `Walks.AuditWalk` | src/audit/persistence/audit_repository_pg.rs:103-151 | The walk promise for filtered audit events |
| `Walks.UsersWalk` | src/security/service/list_users.rs:64-80 | The walk promise for users, with any of the filters |
| `Keyset.OrderByLimit` | src/security/persistence/user_repository_pg.rs:119-129 | Selection realises the `ORDER BY .. LIMIT` specification |
| `Keyset.TopIsUnique` | src/security/persistence/user_repository_pg.rs:119-129 | Where keys differ that specification has one answer |
| `Listings.ListOrganisationMembers` | src/tenants/service/list_organisation_members.rs:39-96 | Not found exactly for non-operators outside the organisation; else a page of its members, newest first |
| `Listings.OneRowPerMember` | src/tenants/persistence/organisation_repository_pg.rs:167-199 | Grouping by user with the earliest role leaves one row, hence one key, per member |
| `Listings.MembersHoldRoles` | src/tenants/persistence/organisation_repository_pg.rs:169-176 | A member is someone with a role in the organisation, joined with the earliest of them |
| `Listings.ListMyOrganisations` | src/tenants/service/list_my_organisations.rs:37-82 | A page of the organisations in which the caller has a role |
| `Listings.ListInboundChannels` | src/tenants/service/list_inbound_channels.rs:29-60 | A page for limits from 1; limit 0 gives an empty final page; the absence of a cursor tells the truth if and only if the limit is at least 1 or nothing follows |
| `Listings.BuildQuery` | src/audit/persistence/audit_repository_pg.rs:75-102 | Adding one conjunct per given filter selects exactly the events all filters accept |
| `Listings.ListEvents` | src/audit/persistence/audit_repository_pg.rs:63-152 | A page of the selected audit events, newest first, for limits from 1; limit 0 as for channels |
| `UserListing.QueryUsers` | src/security/persistence/user_repository_pg.rs:111-245 | All eight query texts answer as one filter, sort and take, joins and grouping included |
| `UserListing.GroupingUndoesTheJoin` | src/security/persistence/user_repository_pg.rs:144-156 | Joining with role rows, filtering and grouping by user is filtering the members |
| `UserListing.ListUsers` | src/security/service/list_users.rs:41-113 | A page, oldest first, of the users in the organisation asked for (for non-operators: their own) whose name or address matches; each with its own memberships in query order, all of them for operators and callers without an organisation, else exactly those in the caller's organisation |
| `UserListing.GroupByUserId` | src/security/service/list_users.rs:86-90 | The hash map holds each user's rows, in order, and nothing else |
| `UserListing.BulkFetchLosesNothing` | src/security/persistence/user_repository_pg.rs:247-290 | Fetching for many users at once gives each the rows a fetch of its own would |
| `ServiceAccountWalk.ListServiceAccounts` | src/security/service/list_service_accounts.rs:20-38 | Accounts of the organisation past the cursor, oldest first; all of them when there is no next cursor, else a full page, and the cursor is that of an account not on it |
| `ServiceAccountWalk.AccountWalkSkipsRows` | src/security/service/list_service_accounts.rs:24-37 | On a fixed table the walk has n - n / (limit + 1) rows and its row i is row i + i / limit of the sorted listing; it is complete if and only if all fit in one page |
| `ServiceAccountWalk.PageIsFront` | src/security/persistence/service_account_repository_pg.rs:140-158 | Because the query is strictly after the cursor, a page is a front of what remains |
| `AuditPipeline.NothingAcceptedIsLost` | src/audit/worker.rs:50-88 | In every state accepted = settled, in hand, queued, in that order; the table is the stored subsequence; the queue stays within capacity; events are dropped only after max_retries + 1 failed inserts; once the worker has stopped every accepted event is settled |
| `AuditPipeline.TotalPauseIsGeometric` | src/audit/worker.rs:79-85 | Over n retries the worker waits initial * (4^n - 1) / 3 if and only if no pause saturates, never more |
| `AuditWorker.Audit.Record` | src/audit/service/record_event.rs:52-62 | Never waits: with room the event goes to the back of the queue, without it is refused as full and nothing changes; never closed while a sender lives |
| `AuditWorker.Audit.WriteWithRetry` | src/audit/worker.rs:58-88 | Stored after as many failures as there are, or dropped after max_retries + 1, with the exact time slept |
| `AuditWorker.Audit.Run` | src/audit/worker.rs:50-56 | With all senders gone the queue drains and every accepted event is settled |
| `ApiKeys.RunsKeepKeys` | src/security/persistence/api_key_repository_pg.rs:65-219 | Over any run of inserts, revocations and rotations, from any number of callers and with any collisions, prefixes stay unique, no key stores an empty scope list, no key disappears or changes, and none is un-revoked |
| `ApiKeys.RotationKeepsActiveCount` | src/security/persistence/api_key_repository_pg.rs:196-219 | A successful rotation keeps the number of active keys if the old key was active and adds one if it was revoked |
| `ApiKeys.CreateApiKey` | src/security/service/create_api_key.rs:32-83 | Which error, or which of two draws the new key uses; refusals change nothing |
| `ApiKeys.RotateApiKey` | src/security/service/rotate_api_key.rs:37-101 | The same for rotation, with name and scopes inherited unless overridden; a failed rotation changes no key |
| `ApiKeys.ApiKeyRepository.InsertKey` | src/security/persistence/api_key_repository_pg.rs:65-94 | The scope check and the unique prefix decide; otherwise one row is added |
| `ApiKeys.ApiKeyRepository.Rotate` | src/security/persistence/api_key_repository_pg.rs:196-219 | Revocation and insert happen together or not at all |
| `ApiKeys.ApiKeyRepository.FindActiveByPrefix` | src/security/persistence/api_key_repository_pg.rs:107-137 | Finds the active key with that prefix, the only one there can be, and none if and only if there is none |
| `ApiKeys.ApiKeyRepository.Revoke` | src/security/persistence/api_key_repository_pg.rs:167-180 | True exactly when an active key of that account is revoked by this call |
| `KeyFormat.ParseUndoesFrame` | src/security/service/api_key_secret.rs:40-63 | Parsing a framed key returns its parts if and only if the environment has no underscore, the prefix is eight of the digits 0-9, a-f, A-F, and the secret is not empty |
| `KeyFormat.FrameUndoesParse` | src/security/service/api_key_secret.rs:40-63 | Re-framing any successful parse gives the original string |
| `KeyFormat.HexDecodesBytes` | src/security/service/api_key_secret.rs:22-26 | The prefix digits decode to the random bytes, so different bytes give different prefixes |
| `KeyFormat.GeneratedKeysParse` | src/security/service/api_key_secret.rs:20-35 | Every generated key parses to its own prefix and secret, whatever the random bytes |
| `SpecNormaliser.NormalisingTwice` | clients/python/scripts/regen.py:62-130 | A second pass changes nothing, and no visited schema is left bare, if and only if every label the first pass kept was clean, as strings are |
| `SpecNormaliser.WalkCleans` | clients/python/scripts/regen.py:88-127 | The walk leaves no bare free-form schema and no dotted reference at any position it visits, exactly when kept labels were clean |
| `SpecNormaliser.FreeFormBecomesAny` | clients/python/scripts/regen.py:97-115 | A free-form object schema becomes any-or-null when nullable, else keeps its description and title alone |
| `SpecNormaliser.OtherObjectsKeepTheirFields` | clients/python/scripts/regen.py:117-124 | Any other object keeps its fields; reference texts are rewritten, the rest is walked |
| `SpecNormaliser.NormalisingSucceedsWhen` | clients/python/scripts/regen.py:79-86 | On which documents the script does not raise |
| `SpecNormaliser.CleanMeansFixed` | clients/python/scripts/regen.py:88-127 | The documents the walk leaves alone are exactly the clean ones |
| `SpecNormaliser.RewriteLeavesNone` | clients/python/scripts/regen.py:118-122 | Replacing the dotted name never forges a new occurrence |
| `SpecNormaliser.ReferencesResolve` | clients/python/scripts/regen.py:79-86 | A reference that resolved still does if and only if its name does not properly extend the dotted one or the schema it now asks for existed; it finds the walked form of that schema |
| `SpecNormaliser.NoReferenceBreaks` | clients/python/scripts/regen.py:79-130 | When all references resolve and no schema name properly extends the dotted one, every reference of the result resolves |
| `SpecNormaliser.UncleanTitleFallsLater` | clients/python/scripts/regen.py:105-113 | The condition on labels is needed |

## Left out

- HTTP handlers, extractors, routing, permissions, configuration, the web front end and the Python client: one-branch plumbing.
- SQL engine internals: each statement is one atomic step on committed rows plus open transactions; row locks last until commit or abort. Re-checking of rows that changed between a claim's snapshot and its lock is not modelled.
- The row lock that the owner count also takes on the `roles` table through its join: ignoring it only allows more interleavings.
- Clocks: one monotone clock in microseconds; the application's and the database's agree. Identifiers are fresh and totally ordered.
- Columns nothing modelled reads: `created_at` and `updated_at` of jobs, `aggregate_type`, `aggregate_id`, `relay_attempts`, event and user details.
- Argon2, SHA-256, random bytes and tokens: random draws are parameters; secrets are not stored in the model.
- Cursor codecs: a cursor is the (time, id) pair it encodes; malformed cursors are not modelled.
- Overflow of `limit + 1` at the 32-bit maximum and of the attempt counters of jobs.
- Repository errors inside feature, listing and key calls: they return without effect. In the concurrent cache they are the step `Fail`.
- Cascading deletion of users and service accounts: it would bypass the owner check.
- Password reset, login, channel changes, role assignment, audit event constructors: short straight-line code.
- Panics and cancellation of the audit worker, and audit records made by the services themselves.
- `post_process` and the generator call of regen.py.
- SpecNormaliser.Walk: models the rewriting on values, not on dictionaries updated in place. The document is deep-copied first and no node is shared, so the update has no other observer; key order is not modelled.
- SpecNormaliser.ReferencesResolve: concerns schema names without a slash, since a slash in a name is escaped in a reference, and containers that are not themselves free-form object schemas.
- UserListing.ListUsers: requires a limit of at least 1; its caller rejects others (src/security/interface.rs:476-478), and the service would panic on 0.
- AuditPipeline.NothingAcceptedIsLost: assumes that a failed insert stores nothing, and `max_retries` below the 32-bit maximum, where the attempt counter would overflow.
- ApiKeys.RotateApiKey: one call that nothing overlaps, like ApiKeys.CreateApiKey; ApiKeys.RunsKeepKeys covers interleaved transactions. The service-account lookup before each call is a parameter.
- JobRunner.JobRunner.Poll: time passes in the handlers; statements take none. Time passing anywhere is covered by the step machine.
- JobModel.RetryDelay: adding a very long delay to the current time panics in the date library once the date leaves its range; here the sum is unbounded.
- OrganisationRepository.Repository.RemoveMemberChecked: one call that nothing overlaps; interleavings are covered by LastOwner.
