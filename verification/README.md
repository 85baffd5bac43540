# Number masking: a verified model

The platform lets two people call or text each other without seeing each
other's number. A session binds an agent, a customer and a proxy number; calls
to the proxy are connected to the other party. This project models the engine
that keeps this private and proves it correct over whole runs, together with
the circuit breaker, the rate limits, the configuration cache and the XML
answers around it.

## How the model is built

* `Types`, `Store`: the records, and one value `State` for everything the
  services share: the Redis pool sets, `proxy:{n}:sessions`,
  `phone:{h}:sessions`, `session:{sid}`, `tenant:{t}:active_sessions`, the dedup
  keys, and the Postgres tables. A Redis set under a prefix is a relation of
  pairs. Class `Store` has one field for each and the services update it.
* `NumberPool`, `SessionManager`, `AdminPool`, `Routing`, `Webhook`: the services
  as classes. Each method is proved to take the store from one state to the next
  as a function of the old state says, or, where Redis or Postgres choose
  (SRANDMEMBER, SMEMBERS order, equal timestamps), as a relation says.
* `Lifecycle`: those functions as the steps of one machine. The steps are create
  (success, or rollback from any of its stages), end, swap, expire, loss of a
  session hash, reap, load, quarantine, reinstate, call, text and status webhook.
  A run is any sequence of enabled steps. The invariant is kept by all of them.
* `PoolAccounting`, `PoolPartition`, `Quarantine`, `Masking`, `Traffic`,
  `Workers`: theorems over all runs.
* `CircuitBreaker` with `HealthCheck`, `TierLimits`, `ConfigCache`,
  `ResponseBuilder`: the smaller cores, each with a reference definition of its
  own: the history of events, the log of requests, the rows of the past, a reader
  of XML.

What the model takes for granted:

* Every public operation is one step. The code is not atomic there: `allocate`
  lists the session before its hash exists, and `swapTarget` checks before it
  writes. `InterleavedCreatesMayCollide` shows what the first gap costs.
* `hashPhone` is injective in tenant and phone, and decryption undoes
  encryption under the same tenant's key and fails under any other. Ciphertexts
  carry no nonce.
* New session ids are fresh: no row, hash or set mentions them.
* The clock, fresh ids, configuration values, tenant rows and the command that
  raises during creation are parameters. Redis and Postgres commands succeed,
  except for that one and for the configuration read.
* The TTL of a session hash is a step that may drop any hash at any time. The
  allocator cannot see a session whose hash is gone (`LostHashMayCollide`): its
  test is right about a number if and only if every participant there is named by
  some hash there (`OverlapIsExactWhereAllAreSeen`), and as long as no session on a
  number loses its hash, no two on one number share anybody by the database
  (`NoParticipantSharesANumberByRows`).

Where the code and what is written about it part ways, the code is modelled, the
failing input is given, and the promise is proved exactly where it holds:

* The breaker is documented to recover after a number of consecutive successful
  health checks. The worker reports failed checks through `recordFailure`
  (`src/workers/cpaas-health-check.ts:62`), which does not reset the count, so it
  counts all checks passed since opening
  (`WithoutReportedFailuresRecoveryIsCumulative`), and checks with a failure
  between them are enough (`FailedProbesDoNotInterrupt`). The recovery is a
  consecutive one if and only if no probe failed after the first that passed:
  `RecoveryIsConsecutiveExactlyUnlessInterrupted`. For callers of
  `recordHealthCheckFailure` it always is: `CountersRefineHistory`.
* A quarantined number is said to take no new session. The quarantine does not
  touch the cooldown set, so the reaper ends it for a cooling number
  (`ReapLiftsQuarantine`), and the release script puts back any number that an
  expiry drains, whether the session was live or had been rolled back
  (`ExpiriesLiftQuarantine`). The promise holds until the operator reinstates the
  number if and only if, when it is quarantined, it is not cooling and no
  unexpired row names it: `QuarantineHoldsExactly`, and
  `QuarantineHoldsExactlyAfterEveryRun` from the first load on.
* A status webhook is meant to update the record of its call. The record carries
  the event id (`src/services/webhook-handler.ts:82`), the update looks for the
  provider's call id (`src/services/webhook-handler.ts:186`), so it never does:
  `StatusMissesItsOwnCall`, `CallRecordsRingForever`. What it can reach are the
  records of another call whose event id is used as a call id:
  `StatusReachesExactlyNamesakes`.
* Reloading the pool at boot is meant to reproduce it. Four kinds of step disturb
  that: ending a rolled back session, whose row then holds a number that is free
  or cooling; expiring one without cooldown while its number cools; quarantining a
  cooling number; reinstating a number that still hosts sessions. From a state in
  which every number is accounted for, a reload after any other step changes
  nothing, and after these it does: `RebootIsIdentityExactlyAfterSafeSteps`. From
  other states even an ordinary expiry may disturb it (`SafeThenTidyMayDisturb`);
  in any state reloads are harmless if and only if every number already is where
  the database wants it: `RebootIsIdentityExactlyWhereBooksAgree`. A cooling row
  without an end is the one thing that disturbs the first load: `BootAccounts`.
* The three pool sets are meant to be a partition. A cooling number ends up in
  two of them when it is quarantined and reinstated, and a number that still hosts
  sessions becomes available that way (`ReinstatedTooEarly`). A cooling number also
  ends up in two when a row expires without cooldown that names it without
  occupying it, as a rolled back one does (`RolledBackWhileCooling`,
  `RunFromBootIntoTwoSets`). No other step
  disturbs the partition, from any state in which it holds:
  `PartitionSurvivesExactly`. The total of the sets changes at exactly the steps
  that `TotalChangesExactly` lists.
* The reaper visits the regions that rows name. It never visits the empty region,
  and it visits `lagos`, where rows without a region live, only if some row names
  it or no row names any: `ReaperMissesExactlyUnnamedRegions`.
* Phone hashes are per tenant, so one phone may be in sessions of two tenants on
  one number, and a call without a tenant hint may then reach either. It happens
  exactly then: `MatchIsForcedExactlyWithinATenant`.

## Model

| member | source | states |
|---|---|---|
| `NumberPoolModel.NumberPool.FindOverlap` | src/services/number-pool.ts:64-73 | the inner loop answers whether any session listed on the number has a hash naming one of the two participants, in any field |
| `NumberPoolModel.NumberPool.Allocate` | src/services/number-pool.ts:45-112 | for every choice of SRANDMEMBER: the returned number hosts no participant of the new session, comes from the free numbers, or from those in use when the free ones failed; it is taken into use when it was idle and the session is listed under it and under both participants; a refusal changes nothing and happens only when no number in use fits and no free number was found |
| `NumberPoolModel.NumberPool.ReleaseNumber` | src/services/number-pool.ts:214-258 | the session leaves the number; exactly when it was the last does the number leave use, to cool down for a positive time or to be available, and the row follow |
| `NumberPoolModel.NumberPool.ReapCooldown` | src/services/number-pool.ts:260-292 | exactly the region's elapsed cooldowns become available, in Redis and in their rows, and the count is their number |
| `NumberPoolModel.ReleasesExactly` | src/services/number-pool.ts:138-246 | slot by slot and column by column, a release that drains a number makes it rest until the given minutes times 60,000 ms from now, or makes it available, and touches nothing else |
| `NumberPoolModel.ReleaseOfOneOfMany` | src/services/number-pool.ts:138-150 | a release that does not drain the number only takes the session off it |
| `NumberPoolModel.ReapsExactly` | src/services/number-pool.ts:265-281 | slot by slot and column by column, a reaping returns exactly the slots of the region with scores from 0 to now |
| `NumberPoolModel.NumberPool.LoadPoolFromDb` | src/services/number-pool.ts:348-415 | from any Redis content, every listed slot ends where its row and the held sessions decide and every other slot keeps its place, whatever the order of the rows |
| `NumberPoolModel.InterleavedCreatesMayCollide` | src/services/session-manager.ts:280-332 | so two creations of one pair that interleave there may be given one number, when it was the last free one |
| `SessionManagerModel.SessionManager.WriteSession` | src/services/session-manager.ts:297-382 | the writes after allocation happen in order up to the one that raises |
| `SessionManagerModel.SessionManager.CreateSession` | src/services/session-manager.ts:229-398 | each rejected argument gives its error and changes nothing; an exhausted pool gives POOL_EXHAUSTED, changes nothing and means that the allocator could refuse; else the session exists in full on an allowed number, or was rolled back from the stage that failed; it expires after the minutes of the request, else of the tenant, else of the environment, and its grace period is found in the same order |
| `SessionManagerModel.RequestsAreJudgedExactly` | src/services/session-manager.ts:242-258 | a request passes if and only if it has a tenant, two different phones of a plus sign, a digit from 1 to 9 and 7 to 14 more, and a consent prompt if it records; and which of these is missing is what the error says |
| `SessionManagerModel.SessionManager.EndSession` | src/services/session-manager.ts:419-448 | found exactly for the tenant's own row; unless that is already ending or expired, row and hash enter the grace period with a new expiry, the hash being re-created in part when it was lost |
| `SessionManagerModel.SessionManager.FindConflict` | src/services/session-manager.ts:498-511 | true exactly when another session on the number has a live hash naming the new target |
| `SessionManagerModel.SessionManager.SwapTarget` | src/services/session-manager.ts:460-563 | the verdict names the first check that fails; only an accepted swap changes anything, and then row, hash and phone index name the new customer and no longer the old |
| `SessionManagerModel.SessionManager.ExpireSession` | src/services/session-manager.ts:565-619 | the session leaves every set and its hash goes, the number is released with the tenant's cooldown or else that of the environment, and nothing happens to an expired or unknown session |
| `SessionManagerModel.SessionManager.VerifyCall` | src/services/session-manager.ts:625-659 | a session found is indexed under the phone, of the tenant, and saw a call in the last minute; none found means there is none in the index |
| `AdminPoolModel.AdminPool.QuarantineNumber` | src/api/routes/admin.ts:648-707 | an unknown number is not found, a quarantined one conflicts, and any other is marked and leaves the free and used sets but not the cooldown |
| `AdminPoolModel.AdminPool.ReleaseNumber` | src/api/routes/admin.ts:710-772 | an unknown number is not found, one that is not quarantined conflicts, and a quarantined one is made available again |
| `AdminPoolModel.QuarantinesExactly` | src/api/routes/admin.ts:678-692 | column by column and slot by slot: a quarantine sets the status of the one row and takes its slot from the free and the used numbers, and leaves end, region, cooldowns and everything else |
| `AdminPoolModel.ReinstatesExactly` | src/api/routes/admin.ts:746-755 | a reinstatement sets the row to AVAILABLE without an end and adds its slot to the free numbers, and leaves everything else |
| `RoutingModel.FindMatch` | src/services/call-router.ts:92-113 | for every order of SMEMBERS: a match is a routable session on the number with the caller on that side, and no match means that there is none |
| `RoutingModel.CallRouter.ResolveTenantForProxy` | src/services/call-router.ts:320-332 | the tenant of a row on the number than which none is newer |
| `RoutingModel.CallRouter.RouteIncomingCall` | src/services/call-router.ts:62-276 | a repeated event replays the stored decision and changes nothing; else the decision is that of an allowed match, is remembered for a minute, and is recorded and counted when the call is connected or simulated |
| `RoutingModel.SmsRouter.RouteIncomingSms` | src/services/sms-router.ts:34-189 | the same for a text, with one message record, encrypted, for each one forwarded |
| `LifecycleModel.NewSessionIsOk` | src/services/session-manager.ts:229-398 | a new session agrees with itself in the database, the hash and all three indexes, and nothing else changed |
| `LifecycleModel.NewRowCarriesTheRequest` | src/services/session-manager.ts:293-324 | the row of a new session carries both phones, the terms, the number, and the times of its creation and expiry |
| `LifecycleModel.RollbackLeaves` | src/services/session-manager.ts:383-397 | whatever stage failed, the rolled back session is hosted nowhere and leaves at most a FAILED row, a hash, index entries and an active entry |
| `LifecycleModel.RollbackLeavesExactly` | src/services/session-manager.ts:297-396 | for each stage that raises: a FAILED row unless the insert did, a hash if and only if its write came before, a place among the active sessions if and only if the last command raised, both index entries, and no number |
| `LifecycleModel.EndsExactly` | src/services/session-manager.ts:419-448 | ending touches one row of the tenant, neither ending nor expired: it is due its own grace period in minutes from now; its hash says so, even if it has to be re-created; every other row and hash stays |
| `LifecycleModel.RowsKeepTheirIdentity` | src/services/session-manager.ts:297-619 | over every run, a row changes in nothing but its state, expiry, customer and calls |
| `LifecycleModel.CallTouchesCountersOnly` | src/services/call-router.ts:62-276 | routing changes neither pool nor index nor, in sessions, anything but the call counter and time |
| `LifecycleModel.StepKeeps` | src/services/session-manager.ts:229-619 | every step keeps the invariant: full hashes equal their rows, hosted sessions are live and on their own number, live sessions are indexed under exactly their two participants, expired ones nowhere, and sessions on one number share nobody |
| `LifecycleModel.EveryRunKeeps` | src/services/session-manager.ts:229-619 | so does every run |
| `LifecycleModel.NoParticipantSharesANumber` | src/services/number-pool.ts:54-109 | in every state reachable from boot, two sessions with full hashes on one number have four different participants between them, whatever the operations, their order and the choices of Redis |
| `LifecycleModel.OverlapIsExactForWholeHashes` | src/services/number-pool.ts:64-73 | the overlap test never blames a session that has neither participant in its row, and when no hash on the number is lost it finds every one that has |
| `LifecycleModel.OverlapIsExactWhereAllAreSeen` | src/services/number-pool.ts:64-73 | the test agrees with the rows for every pair, if and only if each participant of a session hosted on the number is named by the hash of some session hosted there |
| `LifecycleModel.LostHashMayCollide` | src/services/number-pool.ts:88-108 | a session whose hash ran out is not seen: its own two participants may be given its number again |
| `LifecycleModel.WholenessSurvivesExactly` | src/services/session-manager.ts:346 | for every enabled step: all hosted sessions keep their hashes, if and only if it is not the TTL of one of them that runs out |
| `LifecycleModel.NoParticipantSharesANumberByRows` | src/services/number-pool.ts:54-109 | after every run from boot in which no hosted session lost its hash, the rows of two sessions on one number have four different participants |
| `PoolAccountingModel.RebuildIsIdentity` | src/services/number-pool.ts:348-406 | where the accounts hold, rebuilding the pool from Postgres changes nothing, cooldown scores included |
| `PoolAccountingModel.BootAccounts` | src/services/number-pool.ts:348-406 | loading an empty Redis makes the accounts hold, and a second reload harmless, if and only if no COOLDOWN row lacks its end |
| `PoolAccountingModel.EndAccounts` | src/services/session-manager.ts:423 | ending keeps the accounts if and only if it does not bring a FAILED or PENDING row to life |
| `PoolAccountingModel.ExpireAccounts` | src/services/session-manager.ts:565-600 | expiring keeps the accounts if and only if it does not release, without cooldown, an idle cooling number that a FAILED or PENDING row points at |
| `PoolAccountingModel.QuarantineAccounts` | src/api/routes/admin.ts:678-692 | quarantining keeps the accounts if and only if the number it marks is not cooling |
| `PoolAccountingModel.ReinstateAccounts` | src/api/routes/admin.ts:746-755 | reinstating keeps the accounts if and only if the number hosts nobody |
| `PoolAccountingModel.RollbackAccounts` | src/services/session-manager.ts:383-397 | a rollback from any stage keeps the accounts |
| `PoolAccountingModel.AccountsSurviveExactlyTidySteps` | src/services/number-pool.ts:45-406 | for every enabled step: each slot, row and allocation stays accounted for if and only if the step is none of four exceptions, each a condition on the state before |
| `PoolAccountingModel.TidyRunsAccount` | src/services/number-pool.ts:45-406 | the accounts hold after every run of such steps |
| `PoolAccountingModel.RebootAfterARunIsIdentity` | src/services/number-pool.ts:348-406 | after any such run, the database alone determines the three pool sets and the cooldown scores, although allocation never writes the status |
| `PoolAccountingModel.RebootIsIdentityExactlyAfterSafeSteps` | src/services/number-pool.ts:358-403 | for every enabled step from an accounted state: every reload after it, at any clock, changes nothing, if and only if the step is safe; an end of a rolled back session is unsafe exactly when its number hosts nobody and is AVAILABLE or COOLDOWN |
| `PoolAccountingModel.RebootAfterARunAndAStep` | src/services/number-pool.ts:348-406 | the same for one more step after any tidy run |
| `PoolAccountingModel.RebootIsIdentityExactlyWhereBooksAgree` | src/services/number-pool.ts:371-404 | in any state: every reload at any clock changes nothing, if and only if each number's slot sits where its row and holders want it and its region pointer is right |
| `PoolAccountingModel.SafeThenTidyMayDisturb` | src/services/session-manager.ts:423 | an input: after a safe end of a rolled back row on a number that hosts another session, the expiry of that session with a cooldown makes reloads change the pool |
| `PoolPartitionModel.BootPlaces` | src/services/number-pool.ts:371-404 | the first load puts every number in its one place, whatever its row says |
| `PoolPartitionModel.AccountedIsPlaced` | src/services/number-pool.ts:74-84 | an accounted state is a placed one |
| `PoolPartitionModel.PartitionSurvivesExactly` | src/services/number-pool.ts:138-149 | for every enabled step from a placed state: the three sets stay disjoint if and only if it does not hand out a cooling number by an expiry without cooldown or a reinstatement; and they stay disjoint with no available or cooling number hosting anybody, the state staying placed, if and only if it does not reinstate a hosting number either |
| `PoolPartitionModel.CoolsForExactly` | src/services/number-pool.ts:214-292 | a number drained with a cooldown of m minutes is returned by a reaping if and only if that comes m times 60,000 ms later or more; without a cooldown it is available at once |
| `PoolPartitionModel.PartitionFromAccountedStates` | src/services/number-pool.ts:138-149 | from an accounted state disjointness is lost exactly by an expiry that is not tidy, and the rest exactly by steps that are neither tidy nor an end or a quarantine |
| `PoolPartitionModel.SafeRunsPartition` | src/services/number-pool.ts:45-406 | over every run of steps that do none of that, the sets are disjoint and only numbers in use host sessions |
| `PoolPartitionModel.TidyRunsAreSafe` | src/services/number-pool.ts:45-406 | every tidy run is such a run |
| `PoolPartitionModel.ReinstatedTooEarly` | src/api/routes/admin.ts:746-755 | the inputs: a number that is quarantined and reinstated is available, and also cooling if it was, and available while it hosts sessions if it did |
| `PoolPartitionModel.RolledBackWhileCooling` | src/services/number-pool.ts:140-147 | in any placed state, a cooling number is available and cooling at once after a rolled back row that names it expires without cooldown |
| `PoolPartitionModel.RunFromBootIntoTwoSets` | src/services/session-manager.ts:383-397 | an input: from the first load, for every available number and every valid pair, four operations lead there |
| `PoolPartitionModel.RunsKeepListing` | src/services/number-pool.ts:45-406 | over every run of any operations, only slots of provisioned numbers under their own region are in the sets |
| `PoolPartitionModel.CreatedInItsRegion` | src/services/number-pool.ts:179-192 | after any run a session gets a number of the region it asks for, or of lagos |
| `PoolPartitionModel.UnknownNumbersAreReleasedToLagos` | src/services/number-pool.ts:215 | a release uses the region given, else the pointer, else lagos |
| `PoolPartitionModel.PoolIsPartitioned` | src/services/number-pool.ts:74-84 | in a placed state available, in use and cooldown are pairwise disjoint and hold each number in service exactly once, and besides only quarantined numbers that still cool; there are none of these in an accounted state |
| `PoolPartitionModel.OnlyNumbersInUseHost` | src/services/number-pool.ts:138-149 | in a placed state a number in service that hosts a session is in use, and none available or cooling hosts one; in an accounted state one in use hosts some or was provisioned so |
| `PoolPartitionModel.PoolSizeIsConstant` | src/services/number-pool.ts:266-274 | without quarantine the total size of the three sets is the number of provisioned rows after every safe run |
| `PoolPartitionModel.TotalChangesExactly` | src/services/number-pool.ts:138-149 | for every enabled step from a placed state: the total size changes if and only if it is an expiry that drains a quarantined number or, without cooldown, a cooling one, an effective quarantine of a number that does not cool, an effective reinstatement, or a load while a quarantined number cools |
| `PoolPartitionModel.FirstSampleFits` | src/services/number-pool.ts:55-85 | in a placed state any free number fits any pair, so the first sample succeeds |
| `PoolPartitionModel.AllocationIsComplete` | src/services/number-pool.ts:55-111 | in a placed state the script refuses exactly when no allocation is possible, which is exactly when nothing is free and every number in use overlaps |
| `PoolPartitionModel.WhenTheCapLosesANumber` | src/services/number-pool.ts:55-86 | in arbitrary states, refusal with a free number left is possible exactly when one free number overlaps, another does not, and none in use fits |
| `PoolAccountingModel.LoadPlacesEveryNumber` | src/services/number-pool.ts:371-404 | from any Redis content, a number's slot ends in the one place its status and holders fix |
| `PoolAccountingModel.LoadedExactly` | src/services/number-pool.ts:363-404 | the same told from the columns: which numbers a load puts where, by status, by the ACTIVE and GRACE_PERIOD rows that name them, by region or lagos, and with which score |
| `PoolAccountingModel.LoadingTwiceIsLoadingOnce` | src/services/number-pool.ts:345-406 | a second load at the same clock changes nothing |
| `QuarantineModel.QuarantineSeals` | src/api/routes/admin.ts:678-692 | a number in no region's sets but its own, that neither cools nor is named by an unexpired row, is wholly out of reach once quarantined |
| `QuarantineModel.QuarantineIsKept` | src/services/number-pool.ts:379-403 | it stays out, and no creation is given it, through every run of any operations until the operator reinstates it |
| `QuarantineModel.QuarantineHoldsExactly` | src/api/routes/admin.ts:678-692 | for a number in no region's sets but its own, whatever is true of the others: the allocator cannot hand it out in any run until it is reinstated, if and only if at the moment of quarantine it is not cooling and no unexpired row names it |
| `QuarantineModel.QuarantineHoldsExactlyAfterEveryRun` | src/api/routes/admin.ts:678-692 | the same for every number in service, with no other hypothesis, after every run of any operations from the first load on |
| `QuarantineModel.ReapLiftsQuarantine` | src/api/routes/admin.ts:685-689 | for every cooling number that hosts nobody there is a run of one reaping after which it is AVAILABLE and on offer again |
| `QuarantineModel.ExpiriesLiftQuarantine` | src/services/number-pool.ts:138-149 | for every number an unexpired row names, live or FAILED, there is a run of expiries and nothing else after which it is on offer again |
| `QuarantineModel.ExpiryLiftsQuarantine` | src/services/number-pool.ts:140-147 | the expiry of the last session on a quarantined number, or of a rolled back one that names it while it is idle, always lifts the quarantine and puts the number into a pool set |
| `MaskingModel.RunsKeepContracts` | src/services/session-manager.ts:513-527 | over every run, each row says what was agreed at creation with the customer of the last accepted swap |
| `MaskingModel.SameTenantSameMatch` | src/services/call-router.ts:92-113 | per tenant, one session and one side of it at most match a caller |
| `MaskingModel.MatchIsForced` | src/services/call-router.ts:92-113 | so within a tenant the match does not depend on the order of SMEMBERS |
| `MaskingModel.MatchIsForcedExactlyWithinATenant` | src/services/call-router.ts:92-113 | without a hint the match is determined if and only if the caller is not in sessions of two tenants on the number |
| `MaskingModel.TenantsDoNotSeeEachOther` | src/utils/crypto.ts:57-59 | the allocator never prevents that: a number whose sessions all belong to other tenants overlaps with nobody, whatever state their hashes are in |
| `MaskingModel.CallsReachTheOtherParty` | src/services/call-router.ts:92-276 | after any run from boot, a call by a party of a routable session is decided by its contract: direction permitting, the agent reaches the customer of the last accepted swap, with the proxy as caller id, and the customer the agent; a recording is announced by the tenant's audio or the platform's; a sandbox call reaches nobody; each answer's message is the documented one; and it is recorded if and only if the direction permits or it is a sandbox call |
| `MaskingModel.RoutableIsUnderContract` | src/services/session-manager.ts:328-382 | every routable session of a run has a contract |
| `MaskingModel.StrangersReachNobody` | src/services/call-router.ts:115-123 | after any run, a caller in no session of the tenant on the number is redirected to its support phone if and only if that behaviour and a phone are set, hears its audio if and only if that behaviour and an audio are set, and else that the number is out of service; nothing is recorded |
| `MaskingModel.NewestSessionNamesTheTenant` | src/services/call-router.ts:320-332 | without a hint that tenant is the one of the session created last on the number; with a hint it is the hint |
| `MaskingModel.TextsReachTheOtherParty` | src/services/sms-router.ts:62-189 | after any run from boot, direction permitting, a text by a party of a routable session is forwarded as written to the other party of its contract, and a fresh one adds exactly one message record, of that session, direction and time, whose text the tenant can decrypt to the body; one that is dropped or repeated adds none |
| `MaskingModel.StrangersTextsAreDropped` | src/services/sms-router.ts:98-102 | after any run, a text of a stranger is dropped and leaves no message record |
| `MaskingModel.SwapsAreJudgedExactly` | src/services/session-manager.ts:460-511 | a swap by the tenant is accepted if and only if the target is a proper phone, the session is ACTIVE or in its grace period, the target is neither of its parties, and no other routable session of the tenant on the number has it; and which of these fails is what the verdict says |
| `MaskingModel.SwapsOfOthersAreNotFound` | src/services/session-manager.ts:465-467 | no other tenant's swap finds the session or changes anything |
| `MaskingModel.SwapCutsOffTheReplacedTarget` | src/services/session-manager.ts:513-527 | right after an accepted swap the replaced customer matches nothing, if and only if no other session of the tenant there has that customer |
| `MaskingModel.FailSafeBranchesAreDead` | src/services/call-router.ts:199-236 | recording without consent and an undecryptable destination never occur |
| `MaskingModel.VoiceAndSmsAgree` | src/services/sms-router.ts:62-134 | for one caller, with a tenant hint or in one tenant only, the two loops find the same match, each in an order of its own, and for a live session both routers then connect the same two phones through the same session, or both refuse |
| `MaskingModel.VerifyingByIndexIsAFullScan` | src/services/session-manager.ts:632-654 | looking under the phone's index key finds a recent call exactly when a scan of all hashes does |
| `MaskingModel.VerifiedExactly` | src/services/session-manager.ts:632-654 | a session is found if and only if its hash is whole and its row is the tenant's, names the phone and saw a call at most 60,000 ms ago |
| `TrafficModel.RecordedCallIsVerified` | src/services/session-manager.ts:632-654 | right after a call is recorded, its session is found for both parties, for 60,000 ms and no longer |
| `MaskingModel.ASessionPerNumber` | src/services/number-pool.ts:66-84 | one participant is in at most as many routable sessions as there are numbers hosting any |
| `MaskingModel.ExpiredLeavesNoTrace` | src/services/session-manager.ts:589-600 | an expired session is in no set and has no full hash |
| `MaskingModel.ExpiredForever` | src/services/session-manager.ts:423-600 | EXPIRED is final in every run, and no trace comes back |
| `TrafficModel.OneCallRecordPerEventAndMinute` | src/services/call-router.ts:62-289 | over every run with repeated webhooks, calls, texts and status events alike, two call records of one event are at least a minute apart |
| `TrafficModel.CallIsRememberedForAMinute` | src/services/call-router.ts:278-289 | a call that is handled is repeated from the cache for 60,000 ms and handled afresh from then on |
| `TrafficModel.SmsIsRememberedForAMinute` | src/services/sms-router.ts:243-254 | so is a text |
| `TrafficModel.StatusIsRememberedForAMinute` | src/services/webhook-handler.ts:98-105 | so is a status event |
| `WebhookModel.OnlyUnansweredInboundCallsAreRouted` | src/services/africastalking/webhook-parser.ts:58-97 | a webhook is taken for an incoming call if and only if it is inbound, active, carries no digits, elapsed time or hangup cause, and its state is not an answered one; so a duration of zero does not end a call that has just come in |
| `WebhookModel.ProgressIsReadExactly` | src/services/africastalking/webhook-parser.ts:58-97 | for every other type, exactly which fields make a webhook one of that type |
| `WebhookModel.LowerExactly` | src/services/africastalking/webhook-parser.ts:59 | the letters are folded to lower case and every other character stays |
| `WebhookModel.EventIdsAreSpelledOut` | src/services/africastalking/webhook-parser.ts:99-110 | the event id is the session id, or unknown and the clock without one, then a colon and the name of the type |
| `WebhookModel.EventIdsIdentify` | src/services/africastalking/webhook-parser.ts:99-110 | event ids agree if and only if they were built from one call key and one type |
| `WebhookModel.RetriesAreRecognisedExactly` | src/services/africastalking/webhook-parser.ts:99-110 | two parsed webhooks share an event id if and only if their types agree and so do their call keys: the session id, or without one the clock; so every retry with a session id is recognised, and one without only at the same clock |
| `WebhookModel.WebhookHandler.HandleVoiceWebhook` | src/services/webhook-handler.ts:58-117 | a repeated event changes nothing and replays what was stored; an incoming call is routed without a tenant hint; any other event updates the records that carry its call id and is remembered for a minute |
| `TrafficModel.StatusMissesItsOwnCall` | src/services/webhook-handler.ts:182-187 | no parsed webhook ever changes the record that an earlier webhook of the same call led to, with a session id or without |
| `WebhookModel.NotesTouchStatusesOnly` | src/services/webhook-handler.ts:159-187 | a status event changes nothing but statuses of records and the cache, and one without progress only the cache |
| `TrafficModel.CallRecordsRingForever` | src/services/webhook-handler.ts:159-187 | over every run in which calls come in through the handler with parsed webhooks, and no call id is the event id of another call, every call record stays RINGING |
| `TrafficModel.NamesakesHaveColons` | src/services/africastalking/webhook-parser.ts:99-110 | a call id that is the event id of an incoming call contains a colon |
| `TrafficModel.CallCountIsTheNumberOfRecords` | src/services/call-router.ts:378-433 | over every run, each row's call_count is the number of its call records and its last_call_at the time of the last of them |
| `TrafficModel.RecordNamesTheTargetInForce` | src/services/call-router.ts:378-414 | a call record names the customer agreed when the call was routed, its side, its mode and whether consent was played |
| `WorkersModel.SweepClearsItsBatch` | src/workers/session-expiry.ts:54-80 | a sweep takes exactly its batch off the due list and leaves no trace of it |
| `WorkersModel.TickClearsABatch` | src/workers/session-expiry.ts:54-80 | a tick keeps the invariant and lowers the backlog by the batch limit or to zero |
| `WorkersModel.DueExactly` | src/workers/session-expiry.ts:56-60 | the due sessions are the ACTIVE and GRACE_PERIOD rows whose expiry is before now |
| `WorkersModel.TickSparesTheRest` | src/workers/session-expiry.ts:54-80 | a tick leaves row, hash and number of every session whose expiry is not before now as they are |
| `WorkersModel.TicksDrainTheBacklog` | src/workers/session-expiry.ts:46-91 | k due sessions are gone after exactly ceil(k / 100) non-empty ticks, and from then on no ACTIVE or GRACE_PERIOD row has an expiry before now |
| `WorkersModel.SessionExpiryWorker.SelectDue` | src/workers/session-expiry.ts:56-60 | at most 100 distinct rows, each ACTIVE or GRACE_PERIOD with its expiry before now, and if fewer, all of them |
| `WorkersModel.SessionExpiryWorker.RunTick` | src/workers/session-expiry.ts:46-91 | a tick in flight blocks another; else one sweep is run, none fails, and the guard is lifted |
| `WorkersModel.PoolReaperWorker.RunTick` | src/workers/pool-reaper.ts:36-59 | exactly the elapsed cooldowns of the visited regions end, in the pool and in their rows, nothing else in the state changes, and the total counts them |
| `WorkersModel.TickIsARunOfReaps` | src/workers/pool-reaper.ts:47-50 | what a tick does is what one reaping step for each visited region does, so every theorem over runs covers it |
| `WorkersModel.ReaperMissesExactlyUnnamedRegions` | src/workers/pool-reaper.ts:41-45 | a tick misses an elapsed cooldown if and only if one is in the empty region, or one is of a row that names no region while some row names one and none names lagos |
| `WorkersModel.ReaperMissesFromBoot` | src/workers/pool-reaper.ts:41-45 | an input: right after boot a cooling number without a region is missed at every clock when the only region named is another |
| `CircuitBreakerModel.HalfOpenFailuresAreNeverCounted` | src/services/circuit-breaker.ts:88-93 | after every history the half-open failure count is zero |
| `CircuitBreakerModel.RecoveryNeverFallsShort` | src/services/circuit-breaker.ts:67-80 | a success never re-opens the breaker, so the branch for an insufficient rate is dead |
| `CircuitBreakerModel.CountersRefineHistory` | src/services/circuit-breaker.ts:59-178 | without overrides, the counters count the events since the last change of state: while closed the failures since the last success and the samples of the current window, while open the successful checks since the last failed one, still fewer than asked for, while half-open the successes, with no failure |
| `CircuitBreakerModel.ChangesExactlyWhenDue` | src/services/circuit-breaker.ts:101-140 | it trips exactly at the failure that completes the run or exceeds the rate over ten samples, half-opens exactly at the check that completes the count, re-opens at any failure and closes exactly at the success that completes the count |
| `CircuitBreakerModel.OpensExactly` | src/services/circuit-breaker.ts:101-140 | a closed breaker opens if and only if the event is a failure and either the failures since the last success reach the threshold, or of the samples of the window, ten or more, the failures exceed the tolerated rate times the samples |
| `CircuitBreakerModel.OpeningIsStamped` | src/services/circuit-breaker.ts:213-224 | whatever opens the breaker is a failure; its time and its reason, the run, the counts of the window or the probe's error, are kept with the state |
| `CircuitBreakerModel.OpenKeepsItsStamp` | src/services/circuit-breaker.ts:95-99 | while open the time stays, and the error is that of the last failure |
| `CircuitBreakerModel.HealthChecksOutsideOpen` | src/services/circuit-breaker.ts:164-178 | a health check of either outcome only clears the recovery count of a breaker that is not open |
| `CircuitBreakerModel.ClosedAgainIsFresh` | src/services/circuit-breaker.ts:246-260 | after any history in which an event other than an override closes the breaker, every later sequence of events, overrides included, leaves the same state and counters as it would leave a fresh breaker in, up to the last error text |
| `HealthCheckModel.CpaasHealthCheckWorker.RunTick` | src/workers/cpaas-health-check.ts:43-70 | only an open breaker is probed; a passed probe is reported as a passed check, a failed one as the failure of a request |
| `HealthCheckModel.WithoutReportedFailuresRecoveryIsCumulative` | src/workers/cpaas-health-check.ts:57-64 | with such reports the recovery count of an open breaker is of all the checks passed since it opened |
| `HealthCheckModel.FailedProbesDoNotInterrupt` | src/workers/cpaas-health-check.ts:57-64 | an input: where two consecutive checks are asked for, two with a failed probe between them half-open the breaker |
| `HealthCheckModel.RecoveryIsConsecutiveExactlyUnlessInterrupted` | src/services/circuit-breaker.ts:164-178 | the check that half-opens the breaker completes a run of the required length without a failed probe, if and only if no probe failed after the first that passed |
| `HealthCheckModel.UninterruptedRecoveryIsAsDocumented` | src/services/circuit-breaker.ts:30-34 | as long as none did, the breaker half-opens exactly at the check that completes such a run |
| `CircuitBreakerModel.CircuitBreaker.RecordSuccess` | src/services/circuit-breaker.ts:59-81 | the hash is the replay of the history with a success appended |
| `CircuitBreakerModel.CircuitBreaker.RecordFailure` | src/services/circuit-breaker.ts:83-140 | the hash is the replay of the history with a failure appended |
| `CircuitBreakerModel.CircuitBreaker.RecordRequest` | src/services/circuit-breaker.ts:146-162 | the hash is the replay of the history with a request appended |
| `CircuitBreakerModel.CircuitBreaker.RecordHealthCheckSuccess` | src/services/circuit-breaker.ts:164-174 | the hash is the replay of the history with a passed check appended |
| `CircuitBreakerModel.CircuitBreaker.RecordHealthCheckFailure` | src/services/circuit-breaker.ts:176-178 | the hash is the replay of the history with a failed check appended |
| `CircuitBreakerModel.CircuitBreaker.ForceState` | src/services/circuit-breaker.ts:207-211 | the state is the one forced and every other field stays; the hash is the replay of the history with the override appended |
| `TierLimitsModel.SlidingWindow.TierRateLimit` | src/api/middleware/tier-rate-limit.ts:36-79 | a request is let through exactly when it and all requests of the 60,000 ms before it, refused ones included, number at most 100, 500 or 2000 by tier |
| `TierLimitsModel.SlidingWindow.EnforceApiRateLimit` | src/services/tier-enforcer.ts:64-93 | the same, though it adds before it trims |
| `TierLimitsModel.AliveEntries` | src/api/middleware/tier-rate-limit.ts:44-47 | the expiry of the key never drops a request that still counts |
| `TierLimitsModel.AtMostLimitPerMinute` | src/api/middleware/tier-rate-limit.ts:36-79 | in no half-open minute are more than `limit` requests let through |
| `TierLimitsModel.SessionsStayWithinTheTier` | src/services/tier-enforcer.ts:41-58 | over every run whose creations pass the cap, a tenant's hosted sessions are at most 100, 1000 or 10,000 by tier |
| `TierLimitsModel.MayOpenExactly` | src/services/tier-enforcer.ts:41-58 | a creation passes the cap if and only if the tenant has fewer active sessions than that |
| `ConfigCacheModel.TTLCache.Get` | src/utils/cache.ts:13-21 | serves the entry until it has expired, and drops it then |
| `ConfigCacheModel.TenantConfigs.LoadTenantConfig` | src/services/session-manager.ts:206-227 | the answer follows from the whole history of lookups and invalidations of that tenant and from the read, a missing tenant being remembered as such; only that history grows |
| `ConfigCacheModel.TenantConfigs.InvalidateTenantConfig` | src/services/session-manager.ts:69-71 | the entry of the tenant is gone, which its history records; no other changes |
| `ConfigCacheModel.MemoIsAPastRow` | src/services/session-manager.ts:206-227 | what is remembered is the row at the instant it was read, and no invalidation came after |
| `ConfigCacheModel.AnswersAreAtMostAMinuteOld` | src/utils/cache.ts:13-25 | unless the database fails, the answer is the row of some instant of the last 60,000 ms and not before the last invalidation; the first successful read after one, however many failed between, is the current row |
| `ConfigCacheModel.ServedForAMinute` | src/utils/cache.ts:13-25 | a row that was read, or the absence of one, answers the lookups of the next 60,000 ms and none after |
| `ResponseBuilderModel.FivePassesAreOne` | src/services/africastalking/response-builder.ts:11-18 | the five replacements in sequence equal one pass over the characters |
| `ResponseBuilderModel.EscapeXmlRoundTrips` | src/services/africastalking/response-builder.ts:11-18 | the result holds no raw `<`, `>` or quote, and decoding the entities of section 4.6 of XML 1.0 gives the input back, for every string |
| `ResponseBuilderModel.DocumentIsRead` | src/services/africastalking/response-builder.ts:30-52 | a reader of tags, attributes and text gets back every printed document, whatever the values |
| `ResponseBuilderModel.BuildDialResponse` | src/services/africastalking/response-builder.ts:30-52 | the text is the printed document of an announcement, audio before words, and a Dial tag with exactly the given attributes |
| `ResponseBuilderModel.DialIsUnderstood` | src/services/africastalking/response-builder.ts:30-52 | reading it recovers every argument, for all strings and numbers; audio is announced before words; empty or absent arguments leave no trace |
| `ResponseBuilderModel.DecimalIsCanonical` | src/services/africastalking/response-builder.ts:43-45 | the duration is printed in decimal digits without a leading zero |
| `ResponseBuilderModel.SameAnswerSameRequest` | src/services/africastalking/response-builder.ts:30-52 | equal answers come from requests that agree in every argument that is given |
| `ResponseBuilderModel.RejectIsUnderstood` | src/services/africastalking/response-builder.ts:56-70 | the given message, or else the one for an unauthorized caller or for a number out of service, is read back word for word in a woman's voice, then Hangup |
| `ResponseBuilderModel.PlayMessageIsUnderstood` | src/services/africastalking/response-builder.ts:79-92 | audio if there is any, else the text, else nothing is read back, then Hangup |
| `ResponseBuilderModel.RedirectIsUnderstood` | src/services/africastalking/response-builder.ts:94-102 | phone and caller id are read back |

## Left out

- SessionManagerModel.SessionManager.CreateSession: one atomic step, so nothing is claimed of creations that interleave with other operations between allocation and hash; metadata columns and the audit trail are not stored.
- SessionManagerModel.SessionManager.SwapTarget: one atomic step; two swaps that interleave between check and write are not covered.
- LifecycleModel.NoParticipantSharesANumber: says nothing of a session whose hash has been lost to its TTL, because the allocator cannot see it, as LostHashMayCollide shows; calls are not routed to such a session either.
- NumberPoolModel.NumberPool.Allocate: the provider keys `pool:{region}:{provider}:available` are not modelled, because nothing reads them to allocate.
- RoutingModel.CallRouter.RouteIncomingCall: the writes that the code starts without waiting for are done within the step.
- RoutingModel.SmsRouter.RouteIncomingSms: handing the text to the provider, and the later status of its record, are left out.
- TierLimitsModel.SlidingWindow.TierRateLimit: requests come with a clock that does not go back and members that differ, the limiter fails open on a Redis error, and LOAD_TEST_MODE is off.
- TierLimitsModel.SessionsStayWithinTheTier: check and creation are one step, so creations racing past the check are not covered.
- ConfigCacheModel.AnswersAreAtMostAMinuteOld: a read that overlaps an invalidation is not covered, because a lookup is one step.
- CircuitBreakerModel.CountersRefineHistory: samples carry positive timestamps, since the code takes a zero anchor for no window; rates are real numbers, not floating point.
- WebhookModel.WebhookHandler.HandleVoiceWebhook: columns of a call record other than its status, such as the recording and the times, are not stored, and the dead-letter queue is left out.
- TrafficModel.CallRecordsRingForever: texts carry event ids of their own, which are not built here.
- ResponseBuilderModel.BuildDialResponse: the duration is a whole number; a fractional one would be printed by the runtime.
- The fixed answer of buildEmptyResponse, which has no values to recover.
- Redis and Postgres failures other than a failed creation and a failed configuration read.
- Real cryptography: key derivation, nonces, authentication tags, HMAC.
- The grace extension of PATCH /sessions/:id, which updates Postgres only, and the list endpoints.
- Webhook signatures, phone decoding, the SMS webhook handler and the event bus.
- canRequest of the breaker, which draws a random number, and its metrics.
- HTTP routing, validation schemas, tokens and roles, billing, analytics, push and presence.
