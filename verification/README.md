# Verification model

A Dafny model of the concurrent and stateful core of the service: the RabbitMQ retry and
dead-letter protocol, the fixed-window rate limiters, the quota cache and its Redis form, the
API-key cache, accounts and sessions, usage commits, history pagination, the request
fingerprint, mail delivery and the admin token. `dafny verify dfyconfig.toml` checks it.

Code that changes state step by step is modelled by methods over class fields, each proved
against a specification function of the old state; the properties are then proved about runs of
those functions. Interleaved protocols are state machines whose events are single commands, and
their theorems range over every finite run.

| files | what they model |
|---|---|
| `RedisCounters`, `RateLimit`, `RateLimitClients` | counters with deadlines on a Redis server; the two limiter backends; interleaved clients |
| `Queues`, `Broker`, `BrokerRows`, `BrokerRuns`, `BrokerErrors`, `BrokerBudget`, `BrokerProgress`, `BrokerLifeCycle` | queue configurations; consumer, topology and admin actions; retried rows; safety over runs; errors of dead letters; handler runs of a message; termination; the life of a stored row |
| `QuotaCache`, `QuotaService`, `QuotaTasks`, `DecimalText`, `QuotaRedis` | cache against database; the service's methods; deferred listener tasks; number texts; the flat Redis store |
| `ApiKeyCache` | the API-key hash under interleaved writers |
| `Accounts`, `Sessions`, `UsageLedger` | OAuth linking and sign-up; refresh tokens; usage commits and the credits counter |
| `JsonText`, `Fingerprint`, `History`, `Brevo`, `AdminToken` | JSON printer and canonical request text; cursor pagination; retry loop and batches; signed token |

Times are whole seconds, except the admin token's clock and Brevo's waits, which are reals.
Amounts are whole hundredths. Clocks, random jitter, provider replies, hashes, signatures, the
outcome of a password check and Redis SCAN replies are parameters.

## Where the code does not keep what is promised

Each point is a lemma with the exact condition or a concrete run.

- `commit_usage` is documented as idempotent. A repeated success commit adds the charge to
  `credits_used` again (`UsageLedger.CommitTwiceIff`, `UsageLedger.BalancedIff`).
- The history route promises results from the beginning for an unknown cursor; the query compares
  with NULL and returns nothing (`History.UnknownCursorShowsNothing`). Rows of one `created_at` on
  both sides of a page end are skipped (`History.SeesEverythingIff`).
- The API-key cache is meant to limit stale answers to 15 seconds. Fields written after the hash
  lapsed stay behind without a deadline and are served with a later `id`
  (`ApiKeyCache.LeftoverIff`, `ApiKeyCache.StalePlanServed`); a half-written hash is served and its
  missing `workspace_id` faults (`ApiKeyCache.FaultIff`). Requests that finish within 15 seconds of
  their miss keep the window (`ApiKeyCache.PromptWritersKeepTheWindow`).
- The dead-letter handler's comment says a message it fails to store stays in the queue; it is
  rejected without requeueing and lost (`BrokerRuns.MessagesAreConserved`,
  `BrokerRuns.UnstoredIsLost`).
- The account-deletion route (app/core/routers/auth.py:2465-2470) says the e-mail becomes available
  again; the soft-deleted row keeps it and sign-up refuses it (`Accounts.UsedEmailIsRefused`).
- `action_retry` reads a row without a lock and commits at its end. Two requests at once publish it
  twice (`BrokerLifeCycle.DoubleClickPublishesTwice`), and one that read it before a discard turns
  DISCARDED into RETRIED (`BrokerLifeCycle.LateRetryUndoesDiscard`).
- `action_retry` marks a row RETRIED also when it found no queue to publish to
  (`BrokerRuns.RetryLosesIff`).
- With a limit below 1 the memory limiter admits the first call and Redis does not
  (`RateLimit.BackendsAgreeIff`).
- INCR, EXPIRE and TTL as three commands can leave a counter that never expires
  (`RateLimitClients.CrashStuckIff`); the script cannot.
- Two first sign-ins of one identity at once can give it two users (`Accounts.IdentityForks`).

## Model

| member | source | states |
|---|---|---|
| `RedisCounters.CounterServer.RateLimitScript` | app/core/services/redis_service.py:418-470 | the script is INCR, EXPIRE on the first count and TTL in one step |
| `RateLimitClients.ScriptRunNeverLosesADeadline` | app/core/services/redis_service.py:418-470 | over any run of scripted calls, with any keys, windows and times, no counter is ever without a deadline |
| `RateLimit.MemoryBackend.Check` | app/core/services/rate_limit.py:106-172 | the dict-based check takes its store and answer to those of the fixed-window specification; a lapsed or missing window is opened for `window` seconds; a denial leaves nothing and its `retry_after` ends at `reset_at` |
| `RateLimit.RedisBackend.Check` | app/core/services/rate_limit.py:233-282 | the check made of INCR, EXPIRE and TTL calls takes the server and answer to those of its specification; a denial leaves nothing and its `retry_after` ends at `reset_at` |
| `RateLimit.MemoryBackend.GetRemaining` | app/core/services/rate_limit.py:183-207 | reading what remains changes nothing and agrees with its specification, also on a lapsed window |
| `RateLimit.RedisBackend.GetRemaining` | app/core/services/rate_limit.py:295-314 | the same for Redis |
| `RateLimit.FirstCallTellsApart` | app/core/services/rate_limit.py:162-172 | with a limit below 1 the very first call is admitted in memory and denied by Redis |
| `RateLimit.StepsAgree` | app/core/services/rate_limit.py:106-314 | the simulation: equal deadlines and memory count = min(Redis count, limit) are kept by every operation, which answers alike on both |
| `RateLimit.BackendsAgreeIff` | app/core/services/rate_limit.py:106-314 | both backends give identical results to every ordered run of checks, resets and remaining-queries if and only if every limit is at least 1 |
| `RateLimit.RaisedLimitTellsApart` | app/core/services/rate_limit.py:146-165 | with two limits for one key the backends differ: the memory backend stops counting at the limit |
| `RateLimit.MemoryIntervalBound` | app/core/services/rate_limit.py:106-172 | any interval of length T holds fewer than limit * (ceil(T/W) + 1) allowed checks of a key, whatever happens on other keys |
| `RateLimit.RedisIntervalBound` | app/core/services/rate_limit.py:219-282 | the same bound for Redis, carried over by the simulation |
| `RateLimit.StoredWindowAllowsExactly` | app/core/services/rate_limit.py:106-172 | a stored window allows exactly min(calls in it, limit) |
| `RateLimit.AnswerIsExact` | app/core/services/rate_limit.py:106-172 | after any check, whatever calls but a reset of the key follow before `reset_at`, exactly `remaining` of the key's checks are allowed, so none for `retry_after` seconds after a denial; from `reset_at` on one is allowed again |
| `RateLimit.RedisAnswerIsExact` | app/core/services/rate_limit.py:233-282 | the same for Redis from any counter with a deadline, for limits and windows of at least 1 |
| `RateLimit.BoundIsAttained` | app/core/services/rate_limit.py:106-172 | the interval bound is the best possible: a run reaches it for every limit and every window of at least 2 |
| `RateLimitClients.EveryReachableStateIsSafe` | app/core/services/rate_limit.py:233-282 | any clients, any interleaving with resets and lapses: each lifetime's counts go out once each and are answered by count <= limit; unless a client died none of them is lost and a counter without a deadline has its creator's EXPIRE pending |
| `RateLimitClients.LifetimeAllowsExactlyTheLimit` | app/core/services/rate_limit.py:233-282 | a lifetime that handed out n counts allows exactly min(n, limit) checks once they finished, and never more even with crashes |
| `RateLimitClients.AloneIsCheck` | app/core/services/rate_limit.py:233-282 | a client alone does in its three steps what the check does in one |
| `RateLimitClients.StuckForever` | app/core/services/rate_limit.py:233-256 | a counter left without a deadline and without its creator never lapses until a reset |
| `RateLimitClients.CrashStuckIff` | app/core/services/rate_limit.py:233-256 | in every reachable state, crashes included, a death leaves the key stuck if and only if the key is live without a deadline and the dead client is the only one that counted 1 and has not executed its EXPIRE, in whichever lifetime it counted |
| `RateLimitClients.OnlyCrashesStick` | app/core/services/rate_limit.py:233-256 | no other event leaves a key stuck |
| `Queues.RouteByBudget` | app/infrastructure/messaging/consumer.py:46-83 | a failed message is retried exactly while its attempt count is below the budget, in the queue of its next attempt, and is lost exactly when the budget is spent without a dead-letter queue |
| `Queues.DeployedWellFormed` | app/infrastructure/messaging/queues.py:81-190 | the deployed topology has distinct queue names, finite budgets and dead-letter queues named after their main queues |
| `Broker.Connection.ProcessMessage` | app/infrastructure/messaging/consumer.py:39-98 | an accepted delivery is acknowledged after success and rejected after failure; below the budget the message, one attempt on, waits in the retry queue of that attempt; at the budget it goes to the dead-letter queue with its body, its attempt count and the text of the failure; the effect on the broker is exactly the specified one |
| `Broker.Connection.ActionRetry` | app/admin/views.py:868-898 | the retry loop over any id list, duplicates included, has exactly the specified effect |
| `Broker.Connection.ActionDiscard` | app/admin/views.py:907-916 | each listed pending row becomes DISCARDED and keeps the rest, every other copy is unchanged, and none is added |
| `Broker.StartConsumers` | app/infrastructure/messaging/main.py:52-106 | after declaring, each retry queue has the TTL configured for it and dead-letters to its own main queue, each main queue has its own configuration's consumer, and no other queue exists |
| `BrokerRuns.EveryCopyIsWellPlaced` | app/infrastructure/messaging/consumer.py:39-98 | in every reachable state, crashes included, every copy has its original body, its attempt count fits its queue, and a dead-lettered one carries the full budget, waited out the TTLs, names its main queue and carries an error; only documents are ever handled |
| `BrokerRuns.OkStep` | app/infrastructure/messaging/consumer.py:39-98 | every event, crashes and admin actions included, keeps every copy so |
| `BrokerRuns.FailureLosesIff` | app/infrastructure/messaging/consumer.py:58-98 | a failed delivery loses its message if and only if the budget is spent and there is no dead-letter queue |
| `BrokerRuns.RetryLosesIff` | app/admin/views.py:868-895 | retrying a stored row loses the message if and only if no queue to publish to is found |
| `BrokerRuns.MessagesAreConserved` | app/infrastructure/messaging/consumer.py:39-98 | over every run a published message stands once, plus once per copy a crash added, per retry that marked a row another one had marked meanwhile, and per retry that has published and not marked yet, less once per copy whose storing failed; so at least once unless a storing failed, and exactly once when there was no crash, no such overlap and no retry is half-way |
| `BrokerRuns.UnstoredIsLost` | app/infrastructure/messaging/handlers/dlq_handler.py:62-68 | a message whose storing failed is never made good: in every later state it stands only in copies that crashes or overlapping retries added |
| `BrokerErrors.ErrorsAreTheFailures` | app/infrastructure/messaging/consumer.py:73-83 | in every reachable state a dead-lettered message and a stored row carry the error of a failure of the run, which that message met, body and attempt count included, when its budget was spent |
| `BrokerBudget.HandlerRunsAreBounded` | app/infrastructure/messaging/consumer.py:46-83 | over every run, overlapping retries and crashes included, the handler finishes on a message at most (budget + 1) * (1 + republications + deliveries repeated after a late crash) times, without crashes at most (budget + 1) * (1 + republications) times; each copy has at most budget + 1 runs behind it since its republication, and one in its main queue as many as its attempt count says |
| `BrokerBudget.BudgetIsAttained` | app/infrastructure/messaging/consumer.py:46-83 | for every number n of republications some run without a crash runs the handler exactly (budget + 1) * (1 + n) times |
| `BrokerProgress.WorkDecreases` | app/infrastructure/messaging/consumer.py:46-83 | every delivery, outcome, expiry and storing, failed ones included, decreases the measure (budget left, place) |
| `BrokerProgress.WorkIsBounded` | app/infrastructure/messaging/consumer.py:46-83 | no run can do more work than the measure, so retries terminate |
| `BrokerProgress.NeverStuck` | app/infrastructure/messaging/main.py:56-79 | while the measure is positive some work is enabled once enough time has passed |
| `BrokerProgress.FinishedMeansSettled` | app/infrastructure/messaging/consumer.py:39-98 | after any run, when the measure is zero every message whose storing never failed is handled or a stored row other than the RETRIED ones that republications left behind |
| `BrokerProgress.CanAlwaysFinish` | app/infrastructure/messaging/consumer.py:39-98 | from every reachable state some run without a failed storing leaves nothing to do |
| `BrokerProgress.EveryMessageCanSettle` | app/infrastructure/messaging/consumer.py:39-98 | every run can be continued by time and work alone so that each published message whose storing had not failed is handled or a stored row that is not RETRIED |
| `BrokerProgress.EndlessComesBack` | app/infrastructure/messaging/consumer.py:54-60 | without a maximum one more failure always brings the message back with the next attempt count |
| `BrokerLifeCycle.StatusIsFinal` | app/admin/views.py:868-916 | over any run a RETRIED row stays so, and a DISCARDED one does if and only if no retry marks it that had read it before |
| `BrokerLifeCycle.RowLifeCycle` | app/admin/views.py:868-916 | over any run, overlapping admin actions and crashes included: a row changes status once if it has left PENDING and a second time if and only if a retry overwrote a discard; its republications are one if it is RETRIED with a queue, plus one per retry that died before its commit, marked it after another had, or has not marked it yet |
| `BrokerLifeCycle.DoubleClickPublishesTwice` | app/admin/views.py:873-895 | two retry requests at once on one pending row publish it twice, without any death |
| `BrokerLifeCycle.LateRetryUndoesDiscard` | app/admin/views.py:868-916 | a retry that read a row before it was discarded marks it RETRIED |
| `BrokerLifeCycle.DeadRetryLeavesPending` | app/admin/views.py:873-898 | a retry that dies between publishing and marking has published a row that is still pending |
| `BrokerLifeCycle.AsReadRun` | app/admin/views.py:873-895 | in every reachable state a row that a retry action holds is there as it was read, its status apart |
| `Broker.StepsMakeTheAction` | app/admin/views.py:873-895 | reading, publishing and marking a row with nothing in between is the action alone |
| `BrokerRows.RetryRowsTouch` | app/admin/views.py:868-895 | a retry action marks each listed pending row once and adds exactly one copy per distinct row with a queue, however often its id is listed |
| `BrokerRows.RetryRowsAdd` | app/admin/views.py:868-895 | each added copy starts a new life of one such row in its queue, with the document of its body, or its text wrapped when that does not parse, and the attempt count at zero |
| `BrokerLifeCycle.ReturnsHomeIff` | app/infrastructure/messaging/consumer.py:73-83 | a dead-lettered message returns to the queue it died in if and only if the dead-letter queue is that name with `_dead` |
| `BrokerLifeCycle.InterruptedRetryDoubles` | app/admin/views.py:884-898 | a retry action that dies after k ids leaves every row as it was and each message standing once more for each distinct row of it among the k |
| `QuotaCache.PlanLookupTransparentIff` | app/core/services/quota_cache.py:631-716 | whichever of a plan's four entries are cached, the lookup answers as the database would, if and only if no fully cached plan has the sentinel as a real limit |
| `QuotaCache.FeatureLookupTransparent` | app/core/services/quota_cache.py:727-781 | the feature lookup answers as the database would and keeps the cache coherent |
| `QuotaCache.LoadCoherentIff` | app/core/services/quota_cache.py:400-479 | `init` gives a coherent cache if and only if the backend held no entry of a row that is not live; after `clear` it always does |
| `QuotaCache.RunTransparent` | app/core/services/quota_cache.py:502-810 | from any coherent state every run of writes, soft and hard deletes, lookups and refreshes answers as the database alone |
| `QuotaCache.StartUpTransparent` | app/core/services/quota_cache.py:400-479 | the same from `init` on an empty backend |
| `QuotaCache.RekeyCoherentIff` | app/core/services/quota_cache.py:502-560 | an update that moves a row to another key keeps the cache coherent if and only if the old key had no entry |
| `QuotaCache.RekeyPlanCoherentIff` | app/core/services/quota_cache.py:556-602 | for a pricing rule that moves to another plan, if and only if all four of the old entries were absent |
| `QuotaService.QuotaCacheService.Init` | app/core/services/quota_cache.py:400-479 | loading row by row into a new backend gives exactly the live rows; a second call changes nothing |
| `QuotaService.QuotaCacheService.OnFeatureChange` | app/core/services/quota_cache.py:502-532 | the feature listener writes a live row's cost and drops a deleted row's |
| `QuotaService.QuotaCacheService.OnPricingChange` | app/core/services/quota_cache.py:556-602 | the pricing listener writes all four entries, the sentinel for no limit, or drops all four |
| `QuotaService.QuotaCacheService.GetFeatureConfig` | app/core/services/quota_cache.py:727-781 | cache, then database with fill, then none |
| `QuotaService.QuotaCacheService.GetPlanConfig` | app/core/services/quota_cache.py:631-716 | cache, then database with fill, then none, in state and answer |
| `QuotaService.QuotaCacheService.CalculateBillableCost` | app/core/services/quota_cache.py:784-810 | through a coherent cache, or none, the cost of the live feature times the multiplier of the live plan, or none when either is missing, with both fills |
| `QuotaService.QuotaCacheService.Refresh` | app/core/services/quota_cache.py:829-843 | whatever the cache held, it then holds exactly the live rows |
| `QuotaService.QuotaCacheService.Serve` | app/core/services/quota_cache.py:400-843 | the service's own methods, started up and driven through any run of flushes and lookups, answer as the database alone |
| `QuotaService.LoadedAll` | app/core/services/quota_cache.py:431-479 | loading the rows one by one, in any order and with repetitions, gives the whole-table load |
| `QuotaTasks.StaleOnlyWhilePending` | app/core/services/quota_cache.py:502-624 | with tasks run late in FIFO order and refreshes at any time, in every reachable state a key without a pending task is coherent, replaying the tasks gives coherence, and an empty queue means a coherent cache; a refresh that builds a new backend leaves the tasks of the old one without effect |
| `QuotaTasks.ReplayCoherent` | app/core/services/quota_cache.py:502-624 | in a state kept by every step, replaying the pending tasks makes every entry agree with its live row |
| `QuotaTasks.StaleObjectCoherentIff` | app/core/services/quota_cache.py:502-602 | after a flush from any object, stale or not, with any tasks pending: once they have run every other key agrees with the database, and the flushed key does if and only if the object ends deleted, or the row does not and both are cached alike |
| `QuotaTasks.SplitLookupCoherentIff` | app/core/services/quota_cache.py:631-781 | a lookup split around any run of flushes, deletes and tasks: once the pending tasks have run its key agrees with the database if and only if one of them is for the key or the row is still live and cached alike |
| `QuotaTasks.PromptTasksAreListeners` | app/core/services/quota_cache.py:502-624 | a write, removal, lookup or refresh whose task runs at once does to rows and cache what the one-step listeners and getters do |
| `QuotaRedis.PrefixesAreFree` | app/core/services/quota_cache.py:251-369 | no key of one of the five kinds reads as another's, and ids are recovered from keys |
| `QuotaRedis.FlatKeyInjective` | app/core/services/quota_cache.py:251-369 | two entries share a Redis key only if they are the same entry |
| `QuotaRedis.TextRoundTrip` | app/core/services/quota_cache.py:251-369 | the stored text of every value is read back as the value |
| `QuotaRedis.RunRefines` | app/core/services/quota_cache.py:161-369 | every sequence of sets, deletes, gets and clears gives the same answers on the flat Redis store as on the five maps |
| `QuotaRedis.RedisService.DeletePattern` | app/core/services/redis_service.py:377-416 | for any SCAN replies that cover the matching keys and repeat at will, exactly the keys with the prefix go and the result is their number |
| `QuotaRedis.RedisService.ClearQuota` | app/core/services/quota_cache.py:251-369 | `clear` removes every quota key and no other key |
| `DecimalText.AmountRoundTrip` | app/core/services/quota_cache.py:251-369 | every amount of hundredths, negative ones too, survives printing and reading |
| `ApiKeyCache.KeyCache.CacheApiKeyInfo` | app/apps/cubex_api/services/quota_cache.py:28-52 | one uninterrupted write leaves all four fields and a deadline 15 seconds away, and answers a request with what was written |
| `ApiKeyCache.KeyCache.Resolve` | app/apps/cubex_api/services/quota.py:433-530 | one request alone is denied exactly when the served hash holds another workspace, else answered with its `id`, test flag and plan; when nothing is served it is answered from the database, after which the cache answers the same |
| `ApiKeyCache.EveryReachableStateIsSafe` | app/apps/cubex_api/services/quota_cache.py:22-65 | any writers, any interleaving with lapses and invalidations, no crash: a hash with `id` has a deadline at most 15 seconds after its last EXPIRE or a writer between HSET id and EXPIRE, and one with old or missing fields has a writer still filling it |
| `ApiKeyCache.QuietServesCompleteAndRecent` | app/apps/cubex_api/services/quota_cache.py:22-52 | whenever no writer is mid-way, what is served has all four fields and every field but `id` is less than 15 seconds old |
| `ApiKeyCache.RevokedKeyFades` | app/apps/cubex_api/services/quota_cache.py:6-26 | once no write starts any more and those under way have ended, the key is served for less than 15 seconds more |
| `ApiKeyCache.FaultIff` | app/apps/cubex_api/services/quota.py:433-457 | after any run, crashes included, a request faults if and only if the live hash had its `id` written and either no HSET of `workspace_id` stands since the hash was made, or the workspace matches and none of `is_test_key` does |
| `ApiKeyCache.AnswersAreTheEntry` | app/apps/cubex_api/services/quota.py:433-457 | after any run, crashes included, a request is denied if and only if the served hash holds another workspace and resolved only if it holds its own, with the `id`, test flag and plan of the hash, each of which the database had given to a request of the run |
| `ApiKeyCache.LeftoverIff` | app/core/services/redis_service.py:494-497 | a run meets a hash without `id` if and only if some writer past its EXPIRE writes a field when the hash is gone |
| `ApiKeyCache.PromptWritersKeepTheWindow` | app/apps/cubex_api/services/quota_cache.py:22-52 | if no request is busy for more than d < 15 seconds after its cache miss, none dies and none is invalidated: no hash without `id` ever arises, and every served field but `id` was written less than 15 seconds ago from a database answer less than 15 + d seconds old |
| `ApiKeyCache.WindowIsAttained` | app/apps/cubex_api/services/quota_cache.py:22-52 | for every d below 15 such a run serves a plan 14 + d seconds old |
| `ApiKeyCache.StuckForever` | app/apps/cubex_api/services/quota_cache.py:22-26 | an entry without a deadline that no request will arm is served for ever unless it is invalidated, whatever requests come |
| `ApiKeyCache.StalePlanServed` | app/apps/cubex_api/services/quota_cache.py:47-52 | at 15 seconds the bound is gone: for every age some run answers a request with a plan that old |
| `ApiKeyCache.LateBeginLeavesLeftover` | app/apps/cubex_api/services/quota_cache.py:47-52 | the time has to be counted from the miss: writes of a second each can leave a hash without `id` |
| `ApiKeyCache.InvalidationLeavesLeftover` | app/apps/cubex_api/services/quota_cache.py:54-65 | an invalidation in the middle of a write leaves a hash without `id`, however fast the write |
| `ApiKeyCache.StickIff` | app/core/services/redis_service.py:494-497 | in every state an event makes an entry stuck if and only if it is served without a deadline and the only request that missed and has not executed its EXPIRE dies, or gives up |
| `Accounts.AuthService.EmailSignup` | app/core/services/auth.py:388-436 | sign-up fails exactly when some row has the e-mail, and otherwise adds one unverified user with the given name and password hash, and no link |
| `Accounts.AuthService.OauthAuthenticate` | app/core/services/auth.py:552-679 | returns the identity's user, else links the e-mail's user, else adds one with the reported e-mail, flag, name and picture; an existing row takes only a missing name and avatar and is verified if it was or the report says so; no other row changes |
| `Accounts.RunGrows` | app/core/services/auth.py:388-679 | over every run e-mails stay unique, each identity has one user, links never move, fields only go from empty to set and verified only to true |
| `Accounts.VerifiedByReport` | app/core/services/auth.py:552-679 | a user that a run leaves verified and that was not so before signed in during the run with an identity reported as verified |
| `Accounts.IdentityIsStable` | app/core/services/auth.py:555-588 | an identity that signed in once is the same user after any run, whatever e-mail or name is then reported, and adds no row |
| `Accounts.UsedEmailIsRefused` | app/core/services/auth.py:388-397 | an e-mail once used is refused to every later sign-up, also after a soft delete |
| `Accounts.LateSignInKeepsIdentitiesIff` | app/core/services/auth.py:555-650 | a sign-in acting on tables read before other requests keeps identities unique if and only if none of them linked its identity meanwhile |
| `Accounts.LateSignInOnlyFillsIff` | app/core/services/auth.py:565-621 | such a late sign-in only fills in if and only if neither the name nor the avatar it reports goes over one set meanwhile |
| `Accounts.IdentityForks` | app/core/services/auth.py:555-650 | two first sign-ins at once with different e-mails give one identity two users |
| `Sessions.AuthService.CreateTokenPair` | app/core/services/auth.py:829-861 | adds one row, unless the hash is taken, that an open account can exchange until exactly 30 days later if remembered and 7 days later if not |
| `Sessions.AuthService.RefreshAccessToken` | app/core/services/auth.py:889-921 | succeeds exactly on an unrevoked, undeleted, unexpired row of an open account |
| `Sessions.AuthService.RevokeRefreshToken` | app/core/services/auth.py:948-960 | reports whether an unrevoked row had the hash; afterwards the hash never exchanges |
| `Sessions.AuthService.ChangePassword` | app/core/services/auth.py:1060-1093 | revokes all the user's tokens exactly when the change succeeds and asks for it |
| `Sessions.AuthService.CleanupExpired` | app/core/db/crud/refresh_token.py:189-232 | the clean-up changes the usability of no row, now or later |
| `Sessions.TokenWorksIff` | app/core/services/auth.py:829-994 | after any run a token yields an access token if and only if it was valid, nothing in the run revoked it, it has not expired in the time that passed, and its account was not deleted and was left active |
| `Sessions.IssuedTokenWorksIff` | app/core/services/auth.py:829-918 | a token issued to an account works, whatever follows, for 30 days if remembered and 7 days if not, unless something revokes it or closes the account |
| `Sessions.RevocationIsPermanent` | app/core/services/auth.py:987-994 | no token issued before its user's revoke-all, or its own revocation, ever works again |
| `Sessions.RevokingOneLeavesTheOthers` | app/core/services/auth.py:948-960 | signing out one device changes no exchange of any other token, after any run |
| `UsageLedger.QuotaService.CommitUsage` | app/apps/cubex_api/services/quota.py:958-1027 | the commit's branches and counter update have exactly the specified effect; only a foreign key is refused |
| `UsageLedger.CommitTwiceIff` | app/apps/cubex_api/services/quota.py:986-1012 | committing twice equals committing once if and only if it is not a success of a pending or successful log with a nonzero charge, live key and counter; otherwise the counter moves twice |
| `UsageLedger.StatusIsFinal` | app/apps/cubex_api/db/crud/workspace.py:888-967 | over any run of reservations, commits and expiries a log leaves PENDING at most once and its charge is then fixed |
| `UsageLedger.CounterDrift` | app/core/db/crud/subscription_context.py:78-103 | between renewals the counter runs ahead of the stored charges by exactly the charges of repeated success commits |
| `UsageLedger.BalancedIff` | app/apps/cubex_api/services/quota.py:996-1012 | a balanced counter stays balanced if and only if no success commit with a nonzero charge is delivered twice |
| `JsonText.EscapesCancel` | app/core/utils.py:542-543 | the string escapes are a prefix-free code ended by the quote |
| `JsonText.EscapeForms` | app/core/utils.py:542-543 | printable characters but the quote and the backslash stand for themselves, these two and five control characters take two characters, all others six |
| `JsonText.PrintsAlikeIff` | app/core/utils.py:542-543 | two values print alike if and only if they are equal up to the UTF-16 form of their strings |
| `JsonText.PrintInjective` | app/core/utils.py:542-543 | on strings of Unicode scalar values the printer is injective, for values of any depth |
| `JsonText.SurrogatesCollide` | app/core/utils.py:542-543 | a surrogate pair and the code point it encodes print alike |
| `JsonText.PrintAscii` | app/core/utils.py:542-552 | the output is printable ASCII |
| `Fingerprint.CanonicalFormat` | app/core/utils.py:526-543 | the text is the object with the five keys in order, each with its own normalised value, null where the feature key or the estimate is missing or empty, without blanks |
| `Fingerprint.SameTextIff` | app/core/utils.py:526-543 | whatever case folding does, two requests share a text if and only if their normalised endpoint, method, payload hash, estimate and feature key agree |
| `Fingerprint.ForeignEstimateCounts` | app/core/utils.py:535-540 | an estimate with none of the three keys differs from no estimate; an empty one does not |
| `History.PageOf` | app/apps/cubex_career/routers/history.py:173-197 | a page is the first `limit` rows its cursor leaves, and its own cursor leaves what is older than its last row |
| `History.FollowCursors` | app/apps/cubex_career/routers/history.py:84-89 | the client's loop sees and requests what the recursive description says |
| `History.SeesEverythingIff` | app/apps/cubex_career/db/crud/analysis_result.py:182-196 | the walk sees every row once and in order if and only if no page ends between two rows of one time |
| `History.SkippedRow` | app/apps/cubex_career/db/crud/analysis_result.py:182-196 | otherwise some row is never seen |
| `History.HistoryIsCompleteIff` | app/apps/cubex_career/db/crud/analysis_result.py:174-196 | the walk from no cursor shows only the user's live matching results, none twice, newest first, and all of them if and only if no page ends inside one time |
| `History.SeesNothingTwice` | app/apps/cubex_career/db/crud/analysis_result.py:182-196 | whatever the ties, nothing is seen twice and what is seen is newest first |
| `History.FirstsAreSeen` | app/apps/cubex_career/db/crud/analysis_result.py:182-196 | the first row of each time is always seen |
| `History.RequestCount` | app/apps/cubex_career/routers/history.py:173-197 | no walk takes more than max(1, ceil(n/limit)) requests and a complete one takes as many |
| `History.NewRowsLeaveTheRest` | app/apps/cubex_career/db/crud/analysis_result.py:182-196 | rows added as newer leave what a cursor has still to read as it was |
| `History.GrowthChangesNothing` | app/apps/cubex_career/routers/history.py:173-197 | a walk over a table that gets newer rows before every request sees exactly what the walk of the first table would have seen |
| `History.StayingRowIsSeen` | app/apps/cubex_career/db/crud/analysis_result.py:174-196 | a matching row that stays live is seen, whatever other rows, cursor rows included, are soft-deleted and whatever newer ones are added between the requests, as long as no page ends inside one time of the rows then live |
| `History.UnknownCursorShowsNothing` | app/apps/cubex_career/db/crud/analysis_result.py:182-189 | a cursor that names no row gives an empty last page, which is the promised first page if and only if there are no results |
| `Brevo.Request` | app/core/services/brevo.py:265-341 | for every reply script: at most `max_attempts` requests, on only past a network failure, a 429 or a 5xx, the last reply's outcome, and between two requests a wait of the reset header or of 3, 6, 12, 24, 48, 60, ... seconds times the jitter |
| `Brevo.SleepsBound` | app/core/services/brevo.py:169-176 | without reset headers s sleeps total within 20% of 3 * (2^s - 1), or of 93 + 60 * (s - 5) beyond 5 |
| `Brevo.BatchesPartition` | app/core/services/brevo.py:362-371 | the batches end to end are the list, each holds 1 to 1000, all but the last 1000, and there are ceil(n/1000) |
| `AdminToken.SplitJoin` | app/admin/auth.py:73-79 | colon-free fields are recovered from their join |
| `AdminToken.CreatedTokenFields` | app/admin/auth.py:49-61 | splitting a created token gives back hash, version, time and signature |
| `AdminToken.CreatedTokenAcceptedIff` | app/admin/auth.py:49-104 | a created token is accepted if and only if it is at most a day old, version and credentials hash are unchanged and the signatures agree |
| `AdminToken.AcceptedIff` | app/admin/auth.py:71-104 | the accepted texts are exactly those with the current hash and version, a readable time at most a day old and the signature of just that |

## Left out

- BrokerRuns.MessagesAreConserved: queues are bags, so the order of messages inside one queue is not modelled; publishes of the consumer succeed, except in its crash events.
- BrokerRuns.UnstoredIsLost: a restart of the broker is not modelled; it would lose dead-lettered messages, whose publish is not persistent (app/infrastructure/messaging/consumer.py:77-82), and keep those waiting for a retry.
- BrokerLifeCycle.RowLifeCycle: the rows that one overlapping action holds are marked one by one, while its commit marks them together; a discard and the storing of a dead-lettered message stay single steps.
- BrokerBudget.HandlerRunsAreBounded: counts the runs a handler finishes; one that the consumer's death cuts short is delivered again without an attempt count, as often as the consumer dies.
- BrokerRuns.EveryCopyIsWellPlaced: asks for non-empty retry queue names and the `_dead` naming, which the deployed configuration has; publisher headers of callers, RabbitMQ's own `x-death` header and non-UTF-8 bodies are not modelled.
- RateLimit.BackendsAgreeIff: is about one backend instance and one limit per key; the dependencies build a new limiter for each request, Redis errors (the fail-open branch) and fractions of a second are not modelled.
- QuotaCache.RunTransparent: takes one lookup as one step and the flush as the write of the row; transactions that roll back and columns that were never loaded are not modelled.
- QuotaTasks.StaleOnlyWhilePending: an object's attributes change when it is flushed; a task that runs between an assignment and its flush, and would cache the unflushed value, is not modelled, and a refresh is one step.
- QuotaRedis.TextRoundTrip: covers amounts with two decimals, as the columns store them; other scales and exponents of a decimal are not modelled.
- ApiKeyCache.EveryReachableStateIsSafe: follows the hash of one key; other keys are independent, and swallowed Redis errors are not modelled beyond the crash of a writer.
- ApiKeyCache.PromptWritersKeepTheWindow: says nothing of the age of `id`, which the key's hash determines.
- Accounts.AuthService.OauthAuthenticate: the Stripe call is a parameter that may be missing; its own uniqueness column, password hashing and the provider's token exchange are not modelled.
- Accounts.RunGrows: covers sign-up, OAuth sign-in and soft deletes; profile edits and the purge of old deleted accounts are not in the run.
- Sessions.AuthService.RefreshAccessToken: works on token hashes; SHA-256, the access token itself and device information are not modelled.
- UsageLedger.CounterDrift: is about the API's commit between two renewals; the career commit has the same shape, and metrics, failure details and stored analysis results are not modelled.
- Fingerprint.SameTextIff: is about the hashed text; the HMAC over it is not modelled, nor are case folding and stripping, over which the theorem is quantified.
- JsonText.PrintInjective: prints the keys of an object in the order given; sorting is done where the documents are built, whose keys are fixed.
- History.SeesEverythingIff: rows of one time have some fixed order in the database, which SQL does not promise between two requests.
- Brevo.Request: the floating-point rounding of waits and header values that are not finite are not modelled.
- AdminToken.CreatedTokenAcceptedIff: base64 is taken as undone exactly, and HMAC, SHA-256 and `int` as parameters with the round trip of `str` and `int`.
- Routers, schemas, admin columns, mail templates, payment and storage providers, OTP codes, workspace seats, subscription upgrades and the scheduler are not modelled.
